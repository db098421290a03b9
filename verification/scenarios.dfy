/**
 * Three batches worked through the creation engine: a Story under an Epic, a Subtask whose
 * parent index points nowhere, and a Subtask directly under an Epic.
 */
module Scenarios {
  import opened Wrappers
  import opened Text
  import opened Tickets
  import opened Planner
  import opened Ancestry
  import opened JiraApi
  import opened Executor

  const EpicA := Ticket(0, "Epic", "Epic A", "", [], None, None)
  const StoryA := Ticket(1, "Story", "Story A", "", [], Some(0), None)
  const SubtaskA := Ticket(1, "Subtask", "Subtask A", "", [], Some(0), None)
  const OrphanSubtask := Ticket(0, "Subtask", "Subtask A", "", [], Some(99), None)

  /** `Epic` is an Epic label. */
  lemma EpicLabelIsEpic()
    ensures IsEpicType("Epic")
  {
    StripNoSpace("Epic");
    assert Lower("Epic") == "epic";
  }

  /** An Epic followed by a child at a higher tier is created Epic first. */
  lemma EpicFirst(batch: seq<Ticket>, child: Ticket)
    requires batch == [EpicA, child] && TypeTier(child.issueType) >= 1
    ensures CreationOrder(batch) == [0, 1]
  {
    var order: seq<nat> := [0, 1];
    assert Positions(2) == order;
    assert Before(batch, 0, 1);
    CreationOrderUnique(batch, order);
  }

  /** The table of a two-ticket batch with indices 0 and 1, and the walk from index 0. */
  lemma PairTable(batch: seq<Ticket>, child: Ticket)
    requires batch == [EpicA, child] && child.index == 1
    ensures IndexToTicket(batch) == map[0 := EpicA, 1 := child]
    ensures ParentChain(IndexToTicket(batch), 0) == [0]
  {
    assert batch[..1] == [EpicA] && [EpicA][..0] == [];
    assert IndexToTicket([EpicA]) == map[0 := EpicA];
    var m := IndexToTicket(batch);
    assert m == IndexToTicket([EpicA])[1 := child];
    assert Next(m, 0) == None;
    assert ChainFrom(m, Some(0), {}) == [0] + ChainFrom(m, None, {0});
  }

  /** A two-ticket batch created in batch order is two steps from the initial state. */
  lemma RunTwo(env: Env)
    requires |env.batch| == 2 && CreationOrder(env.batch) == [0, 1]
    ensures Run(env) == Step(env, Step(env, Init, 0), 1)
  {
    ExecSnoc(env, [], 0);
    assert [] + [0] == [0];
    ExecSnoc(env, [0], 1);
    assert [0] + [1] == [0, 1];
  }

  /** The state after the first iteration of both Epic batches. */
  function EpicState(env: Env, key: string): RunState {
    RunState(
      map[0 := key],
      [CreatedRecord(key, "Epic", "Epic A", BrowseUrl(env.baseUrl, key), 0)],
      [],
      [CreateCall(env.projectKey, "Epic", "Epic A", "", None, None)],
      [Progress(1, 2, "Epic A")],
      map[0 := key])
  }

  /** The first call of both Epic batches: the Epic itself, with no links, answered with `key`. */
  lemma EpicStep(env: Env, child: Ticket, key: string)
    requires env.batch == [EpicA, child] && child.index == 1 && |env.replies| >= 1 && env.replies[0] == Some(key)
    ensures Step(env, Init, 0) == EpicState(env, key)
  {
    assert Decide(IndexToTicket(env.batch), map[], EpicA) == Send("Epic", None, None, false);
  }

  /** Once the Epic has a key, the Story is sent with its own type and that key as epic key. */
  lemma StoryDecision(batch: seq<Ticket>, keys: map<int, string>)
    requires batch == [EpicA, StoryA] && keys == map[0 := "KAN-10"]
    ensures Decide(IndexToTicket(batch), keys, StoryA) == Send("Story", None, Some("KAN-10"), false)
  {
    PairTable(batch, StoryA);
    ShortLabelIsNotSubtask("Story");
    EpicLabelIsEpic();
    assert FirstAncestor(IndexToTicket(batch), [0], Epic) == Some(0);
  }

  /** Once the Epic has a key, the Subtask under it is sent as a `Task` with that key as epic key. */
  lemma PromotedDecision(batch: seq<Ticket>, keys: map<int, string>)
    requires batch == [EpicA, SubtaskA] && keys == map[0 := "KAN-30"]
    ensures Decide(IndexToTicket(batch), keys, SubtaskA) == Send("Task", None, Some("KAN-30"), true)
  {
    PairTable(batch, SubtaskA);
    TierTwoIsSubtask("Subtask");
    EpicLabelIsEpic();
    EpicIsNotSubtask("Epic");
    assert FirstAncestor(IndexToTicket(batch), [0], NonSubtask) == Some(0);
  }

  /** The second iteration of the Epic-and-Story batch: the Story goes out with the Epic's key. */
  lemma StoryStep(env: Env, s1: RunState)
    requires env.batch == [EpicA, StoryA] && env.replies == [Some("KAN-10"), Some("KAN-11")]
    requires s1 == EpicState(env, "KAN-10")
    ensures Step(env, s1, 1).calls == [CreateCall(env.projectKey, "Epic", "Epic A", "", None, None),
                                       CreateCall(env.projectKey, "Story", "Story A", "", None, Some("KAN-10"))]
    ensures Step(env, s1, 1).notes == []
    ensures Step(env, s1, 1).created == [CreatedRecord("KAN-10", "Epic", "Epic A", BrowseUrl(env.baseUrl, "KAN-10"), 0),
                                         CreatedRecord("KAN-11", "Story", "Story A", BrowseUrl(env.baseUrl, "KAN-11"), 1)]
  {
    StoryDecision(env.batch, s1.keys);
    assert env.batch[1].summary == "Story A" && |s1.calls| == 1 && |s1.created| == 1;
    assert ReplyAt(env.replies, |s1.calls|) == Some("KAN-11");
    assert DescriptionWithCriteria(env.batch[1].description, env.batch[1].acceptanceCriteria) == "";
  }

  /** A Story whose parent is the Epic is sent with the Epic's key as its epic key. */
  lemma StoryUnderEpicUsesEpicLink(env: Env)
    requires env.projectKey == "KAN" && env.batch == [EpicA, StoryA] && env.replies == [Some("KAN-10"), Some("KAN-11")]
    ensures Run(env).calls == [CreateCall("KAN", "Epic", "Epic A", "", None, None),
                               CreateCall("KAN", "Story", "Story A", "", None, Some("KAN-10"))]
    ensures Run(env).notes == []
    ensures Run(env).created == [CreatedRecord("KAN-10", "Epic", "Epic A", BrowseUrl(env.baseUrl, "KAN-10"), 0),
                                 CreatedRecord("KAN-11", "Story", "Story A", BrowseUrl(env.baseUrl, "KAN-11"), 1)]
  {
    EpicFirst(env.batch, StoryA);
    RunTwo(env);
    EpicStep(env, StoryA, "KAN-10");
    StoryStep(env, Step(env, Init, 0));
  }

  /** The single iteration of the orphan batch: progress, then the skip note. */
  lemma OrphanStep(env: Env)
    requires env.batch == [OrphanSubtask]
    ensures var r := Step(env, Init, 0);
      r.created == [] && r.calls == [] && r.notes == [SkipNote("Subtask A")]
  {
    var m := IndexToTicket(env.batch);
    assert m == map[0 := OrphanSubtask] by {
      assert env.batch[..|env.batch| - 1] == [];
      assert m == IndexToTicket([])[0 := OrphanSubtask];
    }
    assert ParentChain(m, 99) == [99] by {
      assert Next(m, 99) == None;
      assert ChainFrom(m, Some(99), {}) == [99] + ChainFrom(m, None, {99});
    }
    assert FirstAncestor(m, [99], NonSubtask) == None by {
      assert [99][1..] == [];
    }
    TierTwoIsSubtask("Subtask");
    assert Decide(m, map[], OrphanSubtask) == Skip;
  }

  /** A Subtask whose parent index names no ticket is skipped with a note, and nothing is sent. */
  lemma SubtaskSkippedWithoutParent(env: Env)
    requires env.batch == [OrphanSubtask]
    ensures Run(env).created == [] && Run(env).calls == []
    ensures Run(env).notes == [SkipNote("Subtask A")]
  {
    assert Positions(1) == [0];
    CreationOrderUnique(env.batch, [0]);
    ExecSnoc(env, [], 0);
    assert [] + [0] == [0];
    OrphanStep(env);
  }

  /** The second iteration of the Epic-and-Subtask batch: the Subtask goes out as a `Task` under the Epic. */
  lemma PromotedStep(env: Env, s1: RunState)
    requires env.batch == [EpicA, SubtaskA] && env.replies == [Some("KAN-30"), Some("KAN-31")]
    requires s1 == EpicState(env, "KAN-30")
    ensures Step(env, s1, 1).calls == [CreateCall(env.projectKey, "Epic", "Epic A", "", None, None),
                                       CreateCall(env.projectKey, "Task", "Subtask A", "", None, Some("KAN-30"))]
    ensures Step(env, s1, 1).notes == [PromoteNote("Subtask A")]
    ensures Step(env, s1, 1).created == [CreatedRecord("KAN-30", "Epic", "Epic A", BrowseUrl(env.baseUrl, "KAN-30"), 0),
                                         CreatedRecord("KAN-31", "Subtask", "Subtask A", BrowseUrl(env.baseUrl, "KAN-31"), 1)]
  {
    PromotedDecision(env.batch, s1.keys);
    assert env.batch[1].summary == "Subtask A" && |s1.calls| == 1 && |s1.created| == 1;
    assert ReplyAt(env.replies, |s1.calls|) == Some("KAN-31");
    assert DescriptionWithCriteria(env.batch[1].description, env.batch[1].acceptanceCriteria) == "";
  }

  /** A Subtask whose parent is the Epic is sent as a `Task` with the Epic's key, and a note says so. */
  lemma SubtaskUnderEpicPromotedToTask(env: Env)
    requires env.projectKey == "KAN" && env.batch == [EpicA, SubtaskA] && env.replies == [Some("KAN-30"), Some("KAN-31")]
    ensures Run(env).calls == [CreateCall("KAN", "Epic", "Epic A", "", None, None),
                               CreateCall("KAN", "Task", "Subtask A", "", None, Some("KAN-30"))]
    ensures Run(env).notes == [PromoteNote("Subtask A")]
    ensures Run(env).created == [CreatedRecord("KAN-30", "Epic", "Epic A", BrowseUrl(env.baseUrl, "KAN-30"), 0),
                                 CreatedRecord("KAN-31", "Subtask", "Subtask A", BrowseUrl(env.baseUrl, "KAN-31"), 1)]
  {
    EpicFirst(env.batch, SubtaskA);
    RunTwo(env);
    EpicStep(env, SubtaskA, "KAN-30");
    PromotedStep(env, Step(env, Init, 0));
  }
}
