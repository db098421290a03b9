/**
 * `create_tickets`: creates a reviewed batch in Jira, parents before children.
 *
 * The batch is visited in creation order. Before each ticket the progress callback is told
 * `(created so far + 1, batch size, summary)`. The ticket's effective type and parent / epic
 * keys are worked out from its parent chain and from the keys of tickets created earlier. Then
 * the Issue Creator is called, unless a Subtask has nothing to hang under. The Issue Creator is
 * an oracle: call number `j` of the run receives `replies[j]`, a key or a failure.
 */
module Executor {
  import opened Wrappers
  import opened Text
  import opened Tickets
  import opened Planner
  import opened Ancestry
  import opened JiraApi

  /** The arguments of one `create_issue` call. */
  datatype CreateCall = CreateCall(
    projectKey: string,
    issueType: string,
    summary: string,
    description: string,
    parentKey: Option<string>,
    epicKey: Option<string>)

  /** A `created_tickets` entry; `issueType` is the ticket's own type, even after a promotion. */
  datatype CreatedRecord = CreatedRecord(key: string, issueType: string, summary: string, url: string, originalIndex: int)

  /** One `display_creation_progress(current, total, summary)` report. */
  datatype Progress = Progress(current: nat, total: nat, summary: string)

  /**
   * The run so far: `index_to_key`, `created_tickets`, `errors`, the calls made, the progress
   * reports, and the key written into each batch position's ticket.
   */
  datatype RunState = RunState(
    keys: map<int, string>,
    created: seq<CreatedRecord>,
    notes: seq<string>,
    calls: seq<CreateCall>,
    progress: seq<Progress>,
    written: map<nat, string>)

  /** The inputs of a run: project key, the client's base URL, the batch and the oracle's replies. */
  datatype Env = Env(projectKey: string, baseUrl: string, batch: seq<Ticket>, replies: seq<Option<string>>)

  /** Nothing done yet. */
  const Init := RunState(map[], [], [], [], [], map[])

  /** The note for a Subtask left out because its parent is missing or not created. */
  function SkipNote(summary: string): string {
    "Skipped subtask (missing parent): " + summary
  }

  /** The note for a Subtask sent as a Task under an Epic. */
  function PromoteNote(summary: string): string {
    "Promoted subtask to Task under Epic: " + summary
  }

  /** The note for a failed `create_issue` call. */
  function FailNote(summary: string): string {
    "Failed to create: " + summary
  }

  /** The oracle's reply to call number `j`: a missing reply counts as a failure. */
  function ReplyAt(replies: seq<Option<string>>, j: nat): Option<string> {
    if j < |replies| then replies[j] else None
  }

  /** The replies to the first `n` calls. */
  function Consumed(replies: seq<Option<string>>, n: nat): (r: seq<Option<string>>)
    ensures |r| == n && forall j :: 0 <= j < n ==> r[j] == ReplyAt(replies, j)
  {
    seq(n, j requires 0 <= j < n => ReplyAt(replies, j))
  }

  /** One more call consumes one more reply. */
  lemma ConsumedSnoc(replies: seq<Option<string>>, n: nat)
    ensures Consumed(replies, n + 1) == Consumed(replies, n) + [ReplyAt(replies, n)]
  {
  }

  /** `index_to_key.get(i)`. */
  function Lookup(keys: map<int, string>, i: int): Option<string> {
    if i in keys then Some(keys[i]) else None
  }

  // ---------------------------------------------------------------------------------------
  // Linkage

  /** What the engine does with one ticket: skip it, or send it with this type and these keys. */
  datatype Linkage =
    | Skip
    | Send(issueType: string, parentKey: Option<string>, epicKey: Option<string>, promoted: bool)

  /** The linkage rules of `create_tickets` for ticket `t`, given the table and the keys so far. */
  function Decide(m: map<int, Ticket>, keys: map<int, string>, t: Ticket): Linkage {
    match t.parentIndex
    case None => Send(t.issueType, None, None, false)
    case Some(pi) =>
      var chain := ParentChain(m, pi);
      if IsSubtaskType(t.issueType) then
        match FirstAncestor(m, chain, NonSubtask)
        case None => Skip
        case Some(a) =>
          FirstAncestorSpec(m, chain, NonSubtask);
          if IsEpicType(m[a].issueType) then
            var epicKey := Lookup(keys, a);
            if Truthy(epicKey) then Send("Task", None, epicKey, true) else Skip
          else
            var parentKey := Lookup(keys, a);
            if Truthy(parentKey) then Send(t.issueType, parentKey, None, false) else Skip
      else
        match FirstAncestor(m, chain, Epic)
        case None => Send(t.issueType, None, None, false)
        case Some(e) => Send(t.issueType, None, Lookup(keys, e), false)
  }

  /**
   * The linkage rules. A ticket without a parent index is sent as it is, with no keys. A Subtask
   * with a parent index is skipped exactly when it has no non-Subtask ancestor or that ancestor
   * has no key yet; otherwise it is sent as a `Task` with the ancestor's key as epic key when the
   * ancestor is an Epic, and with its own type and the ancestor's key as parent key when not. Any
   * other ticket with a parent index keeps its type, gets no parent key, and gets as epic key the
   * key recorded for the nearest Epic on its parent chain, if any.
   */
  lemma LinkageRules(m: map<int, Ticket>, keys: map<int, string>, t: Ticket)
    ensures t.parentIndex.None? ==> Decide(m, keys, t) == Send(t.issueType, None, None, false)
    ensures t.parentIndex.Some? && IsSubtaskType(t.issueType) ==>
      var a := FirstAncestor(m, ParentChain(m, t.parentIndex.value), NonSubtask);
      && (Decide(m, keys, t).Skip? <==> a.None? || !Truthy(Lookup(keys, a.value)))
      && (a.Some? && a.value in m && IsEpicType(m[a.value].issueType) && Truthy(Lookup(keys, a.value)) ==>
            Decide(m, keys, t) == Send("Task", None, Lookup(keys, a.value), true))
      && (a.Some? && a.value in m && !IsEpicType(m[a.value].issueType) && Truthy(Lookup(keys, a.value)) ==>
            Decide(m, keys, t) == Send(t.issueType, Lookup(keys, a.value), None, false))
    ensures t.parentIndex.Some? && !IsSubtaskType(t.issueType) ==>
      var e := FirstAncestor(m, ParentChain(m, t.parentIndex.value), Epic);
      Decide(m, keys, t) == Send(t.issueType, None, if e.Some? then Lookup(keys, e.value) else None, false)
  {
    if t.parentIndex.Some? {
      FirstAncestorSpec(m, ParentChain(m, t.parentIndex.value), NonSubtask);
    }
  }

  /**
   * Whatever is sent, a parent key and an epic key never travel together; a parent key goes
   * only with a Subtask label and an epic key from a Subtask only with the type `Task`.
   */
  lemma LinkageExclusive(m: map<int, Ticket>, keys: map<int, string>, t: Ticket)
    ensures var d := Decide(m, keys, t);
      && (d.Send? && d.parentKey.Some? ==> d.epicKey.None? && IsSubtaskType(d.issueType) && Truthy(d.parentKey) && !d.promoted)
      && (d.Send? && d.promoted <==> d.Send? && d.issueType == "Task" && IsSubtaskType(t.issueType) && t.parentIndex.Some?)
      && (d.Send? && d.promoted ==> Truthy(d.epicKey))
      && (d.Send? && !d.promoted ==> d.issueType == t.issueType)
      && (d.Skip? ==> IsSubtaskType(t.issueType) && t.parentIndex.Some?)
  {
    if t.parentIndex.Some? && IsSubtaskType(t.issueType) {
      ShortLabelIsNotSubtask("Task");
      LinkageRules(m, keys, t);
    }
  }

  // ---------------------------------------------------------------------------------------
  // Descriptions

  /** The line for one acceptance criterion. */
  function Bullet(criterion: string): string {
    "• " + criterion + "\n"
  }

  /** The bullet lines of all criteria, in order. */
  function Bullets(criteria: seq<string>): string {
    if criteria == [] then "" else Bullet(criteria[0]) + Bullets(criteria[1..])
  }

  /** The description sent: the ticket's own, followed by a criteria section when there are criteria. */
  function DescriptionWithCriteria(description: string, criteria: seq<string>): string {
    if criteria == [] then description else description + "\n\nAcceptance Criteria:\n" + Bullets(criteria)
  }

  /** Adding one more criterion adds one more bullet at the end. */
  lemma {:induction false} BulletsSnoc(criteria: seq<string>, c: string)
    ensures Bullets(criteria + [c]) == Bullets(criteria) + Bullet(c)
  {
    if criteria != [] {
      assert (criteria + [c])[1..] == criteria[1..] + [c];
      BulletsSnoc(criteria[1..], c);
    } else {
      assert [c][1..] == [];
    }
  }

  /** The text lines of the bullet block: one `• criterion` line per criterion, then the empty tail. */
  lemma {:induction false} BulletLines(criteria: seq<string>)
    requires forall i :: 0 <= i < |criteria| ==> '\n' !in criteria[i]
    ensures Split(Bullets(criteria), '\n') == seq(|criteria|, i requires 0 <= i < |criteria| => "• " + criteria[i]) + [""]
  {
    if criteria != [] {
      var c := criteria[0];
      BulletLines(criteria[1..]);
      assert Bullet(c) + Bullets(criteria[1..]) == ("• " + c) + ['\n'] + Bullets(criteria[1..]);
      SplitConcat("• " + c, '\n', Bullets(criteria[1..]));
      SplitNoSeparator("• " + c, '\n');
    }
  }

  /**
   * Read line by line, the description sent is the ticket's description, an empty line, the
   * `Acceptance Criteria:` heading and one `• ` line per criterion in order (then the empty
   * piece after the final line break); without criteria it is the ticket's description.
   */
  lemma DescriptionLines(description: string, criteria: seq<string>)
    requires forall i :: 0 <= i < |criteria| ==> '\n' !in criteria[i]
    ensures criteria == [] ==> DescriptionWithCriteria(description, criteria) == description
    ensures criteria != [] ==>
      Split(DescriptionWithCriteria(description, criteria), '\n') ==
        Split(description, '\n') + ["", "Acceptance Criteria:"]
        + seq(|criteria|, i requires 0 <= i < |criteria| => "• " + criteria[i]) + [""]
  {
    if criteria != [] {
      var heading := "Acceptance Criteria:";
      assert "\n\nAcceptance Criteria:\n" == ['\n'] + ['\n'] + heading + ['\n'];
      assert '\n' !in heading;
      SectionLines(description, heading, Bullets(criteria));
      BulletLines(criteria);
    }
  }

  /** A description, a blank line, a heading line and a block read line by line. */
  lemma SectionLines(d: string, heading: string, b: string)
    requires '\n' !in heading
    ensures Split(d + (['\n'] + ['\n'] + heading + ['\n']) + b, '\n') == Split(d, '\n') + ["", heading] + Split(b, '\n')
  {
    var tail := heading + ['\n'] + b;
    var x := [] + ['\n'] + tail;
    assert d + (['\n'] + ['\n'] + heading + ['\n']) + b == d + ['\n'] + x;
    var sd, sx, st := Split(d, '\n'), Split(x, '\n'), Split(tail, '\n');
    assert sx == [""] + st by {
      SplitConcat([], '\n', tail);
      assert Split([], '\n') == [""];
    }
    assert st == [heading] + Split(b, '\n') by {
      SplitConcat(heading, '\n', b);
      SplitNoSeparator(heading, '\n');
    }
    SplitConcat(d, '\n', x);
  }

  /** The description-building loop of `create_tickets`. */
  method AppendCriteria(description: string, criteria: seq<string>) returns (r: string)
    ensures r == DescriptionWithCriteria(description, criteria)
  {
    r := description;
    if |criteria| > 0 {
      r := r + "\n\nAcceptance Criteria:\n";
      for i := 0 to |criteria|
        invariant r == description + "\n\nAcceptance Criteria:\n" + Bullets(criteria[..i])
      {
        BulletsSnoc(criteria[..i], criteria[i]);
        assert criteria[..i + 1] == criteria[..i] + [criteria[i]];
        r := r + "• " + criteria[i] + "\n";
      }
      assert criteria[..|criteria|] == criteria;
    }
  }

  // ---------------------------------------------------------------------------------------
  // The run

  /** One iteration of the creation loop, for the ticket at batch position `p`. */
  function Step(env: Env, st: RunState, p: nat): RunState
    requires p < |env.batch|
  {
    var t := env.batch[p];
    var shown := st.(progress := st.progress + [Progress(|st.created| + 1, |env.batch|, t.summary)]);
    match Decide(IndexToTicket(env.batch), st.keys, t)
    case Skip => shown.(notes := shown.notes + [SkipNote(t.summary)])
    case Send(issueType, parentKey, epicKey, promoted) =>
      var call := CreateCall(env.projectKey, issueType, t.summary,
                             DescriptionWithCriteria(t.description, t.acceptanceCriteria), parentKey, epicKey);
      var sent := shown.(notes := if promoted then shown.notes + [PromoteNote(t.summary)] else shown.notes,
                         calls := shown.calls + [call]);
      match ReplyAt(env.replies, |st.calls|)
      case None => sent.(notes := sent.notes + [FailNote(t.summary)])
      case Some(k) =>
        sent.(keys := sent.keys[t.index := k],
              created := sent.created + [CreatedRecord(k, t.issueType, t.summary, BrowseUrl(env.baseUrl, k), t.index)],
              written := sent.written[p := k])
  }

  /**
   * What one iteration changes. Progress always gains `(created + 1, batch size, summary)`.
   * A skipped Subtask adds only its note. A failed call adds the call, the promotion note if
   * any, and the failure note. A successful call adds the call, the promotion note if any, one
   * record with the original type and the key's URL, and the key under the ticket's index.
   */
  lemma StepEffects(env: Env, st: RunState, p: nat)
    requires p < |env.batch|
    ensures var t, r := env.batch[p], Step(env, st, p);
      var d := Decide(IndexToTicket(env.batch), st.keys, t);
      && r.progress == st.progress + [Progress(|st.created| + 1, |env.batch|, t.summary)]
      && (d.Skip? ==> r == st.(progress := r.progress, notes := st.notes + [SkipNote(t.summary)]))
      && (d.Send? ==> |r.calls| == |st.calls| + 1 && r.calls[..|st.calls|] == st.calls)
      && (d.Send? ==> r.calls[|st.calls|].issueType == d.issueType && r.calls[|st.calls|].summary == t.summary)
  {
  }

  /** How a call's reply is recorded: a failure note, or the key and one record. */
  lemma StepReplyEffects(env: Env, st: RunState, p: nat)
    requires p < |env.batch|
    ensures var t, r := env.batch[p], Step(env, st, p);
      var d := Decide(IndexToTicket(env.batch), st.keys, t);
      d.Send? ==> var promo := if d.promoted then [PromoteNote(t.summary)] else [];
        match ReplyAt(env.replies, |st.calls|)
        case None =>
          r.notes == st.notes + promo + [FailNote(t.summary)]
          && r.keys == st.keys && r.created == st.created && r.written == st.written
        case Some(k) =>
          r.notes == st.notes + promo
          && r.keys == st.keys[t.index := k] && r.written == st.written[p := k]
          && r.created == st.created + [CreatedRecord(k, t.issueType, t.summary, BrowseUrl(env.baseUrl, k), t.index)]
  {
  }

  /** Each iteration starts with its progress report. */
  lemma StepProgress(env: Env, st: RunState, p: nat)
    requires p < |env.batch|
    ensures Step(env, st, p).progress == st.progress + [Progress(|st.created| + 1, |env.batch|, env.batch[p].summary)]
  {
  }

  /**
   * What one iteration records, independently of the linkage: at most one call; and keys,
   * records and written keys change only when a call was made and answered with a key.
   */
  lemma StepRecords(env: Env, st: RunState, p: nat)
    requires p < |env.batch|
    ensures var r, t := Step(env, st, p), env.batch[p];
      && (|r.calls| == |st.calls| || |r.calls| == |st.calls| + 1)
      && r.calls[..|st.calls|] == st.calls
      && var reply := if |r.calls| == |st.calls| then None else ReplyAt(env.replies, |st.calls|);
      && (reply.None? ==> r.keys == st.keys && r.created == st.created && r.written == st.written)
      && (reply.Some? ==>
            && r.keys == st.keys[t.index := reply.value] && r.written == st.written[p := reply.value]
            && r.created == st.created + [CreatedRecord(reply.value, t.issueType, t.summary, BrowseUrl(env.baseUrl, reply.value), t.index)])
  {
  }

  /** The call an iteration makes, if any, carries the linkage's type and keys. */
  lemma StepCall(env: Env, st: RunState, p: nat)
    requires p < |env.batch|
    ensures var r, d := Step(env, st, p), Decide(IndexToTicket(env.batch), st.keys, env.batch[p]);
      && (d.Skip? <==> |r.calls| == |st.calls|)
      && (d.Send? ==> (|r.calls| == |st.calls| + 1 && r.calls[|st.calls|].issueType == d.issueType
            && r.calls[|st.calls|].parentKey == d.parentKey && r.calls[|st.calls|].epicKey == d.epicKey))
  {
  }

  /** The batch positions processed in `order` are all positions of the batch. */
  predicate ValidOrder(env: Env, order: seq<nat>) {
    forall i :: 0 <= i < |order| ==> order[i] < |env.batch|
  }

  /** The state after the tickets at positions `order`, processed left to right. */
  function Exec(env: Env, order: seq<nat>): RunState
    requires ValidOrder(env, order)
  {
    if order == [] then Init
    else Step(env, Exec(env, order[..|order| - 1]), order[|order| - 1])
  }

  /** The outcome of `create_tickets` on the batch: every position, in creation order. */
  function Run(env: Env): RunState {
    var order := CreationOrder(env.batch);
    assert ValidOrder(env, order);
    Exec(env, order)
  }

  /** The batch with the created keys written into the tickets at their positions. */
  function WithKeys(batch: seq<Ticket>, written: map<nat, string>): (r: seq<Ticket>)
    ensures |r| == |batch|
  {
    seq(|batch|, p requires 0 <= p < |batch| => if p in written then batch[p].(key := Some(written[p])) else batch[p])
  }

  // ---------------------------------------------------------------------------------------
  // Properties of a run

  /** Exec of a one-longer order is one more step. */
  lemma ExecSnoc(env: Env, order: seq<nat>, p: nat)
    requires ValidOrder(env, order) && p < |env.batch|
    ensures ValidOrder(env, order + [p])
    ensures Exec(env, order + [p]) == Step(env, Exec(env, order), p)
  {
    assert (order + [p])[..|order|] == order;
  }

  /**
   * Counting: one progress report per ticket; no more calls than tickets; one record per
   * successful call; and every failure leaves a note, so the notes outnumber the failed calls.
   */
  lemma {:induction false} ExecCounts(env: Env, order: seq<nat>)
    requires ValidOrder(env, order)
    ensures var st := Exec(env, order);
      && |st.progress| == |order|
      && |st.created| <= |st.calls| <= |order|
      && |st.calls| - |st.created| <= |st.notes| <= |order| + |st.calls|
  {
    if order != [] {
      ExecCounts(env, order[..|order| - 1]);
      StepEffects(env, Exec(env, order[..|order| - 1]), order[|order| - 1]);
      StepReplyEffects(env, Exec(env, order[..|order| - 1]), order[|order| - 1]);
    }
  }

  /** The keys of the created records, in order. */
  function KeysOfRecords(created: seq<CreatedRecord>): seq<string> {
    seq(|created|, i requires 0 <= i < |created| => created[i].key)
  }

  /** The keys among a sequence of replies, in order. */
  function Present(replies: seq<Option<string>>): seq<string> {
    if replies == [] then []
    else Present(replies[..|replies| - 1]) + (if replies[|replies| - 1].Some? then [replies[|replies| - 1].value] else [])
  }

  /** One more record adds its key. */
  lemma KeysOfRecordsSnoc(created: seq<CreatedRecord>, r: CreatedRecord)
    ensures KeysOfRecords(created + [r]) == KeysOfRecords(created) + [r.key]
  {
  }

  /** One more reply adds its key, if it has one. */
  lemma PresentSnoc(replies: seq<Option<string>>, n: nat)
    ensures Present(Consumed(replies, n + 1)) ==
      Present(Consumed(replies, n)) + (if ReplyAt(replies, n).Some? then [ReplyAt(replies, n).value] else [])
  {
    ConsumedSnoc(replies, n);
    assert Consumed(replies, n + 1)[..n] == Consumed(replies, n);
  }

  /**
   * The created records are exactly the successful calls, in call order: their keys are the
   * keys the oracle returned to the calls made, each once, and their URLs are the browse URLs.
   */
  lemma {:induction false} ExecCreatedAreReplies(env: Env, order: seq<nat>)
    requires ValidOrder(env, order)
    ensures KeysOfRecords(Exec(env, order).created) == Present(Consumed(env.replies, |Exec(env, order).calls|))
    ensures forall i :: 0 <= i < |Exec(env, order).created| ==>
      Exec(env, order).created[i].url == BrowseUrl(env.baseUrl, Exec(env, order).created[i].key)
  {
    if order != [] {
      var prev := Exec(env, order[..|order| - 1]);
      var p := order[|order| - 1];
      ExecCreatedAreReplies(env, order[..|order| - 1]);
      StepRecords(env, prev, p);
      var st := Exec(env, order);
      assert st == Step(env, prev, p);
      var n := |prev.calls|;
      if |st.calls| == n + 1 {
        PresentSnoc(env.replies, n);
        var reply := ReplyAt(env.replies, n);
        if reply.Some? {
          var t := env.batch[p];
          KeysOfRecordsSnoc(prev.created, CreatedRecord(reply.value, t.issueType, t.summary, BrowseUrl(env.baseUrl, reply.value), t.index));
        }
      }
    }
  }

  /** The keys a run can link to: those the oracle returned to the first `n` calls. */
  predicate FromReplies(env: Env, key: Option<string>, n: nat) {
    key.Some? ==> key in Consumed(env.replies, n)
  }

  /** Every key the run records was returned by the oracle to one of its calls. */
  lemma {:induction false} ExecKeysFromReplies(env: Env, order: seq<nat>)
    requires ValidOrder(env, order)
    ensures forall i :: i in Exec(env, order).keys ==>
      FromReplies(env, Some(Exec(env, order).keys[i]), |Exec(env, order).calls|)
  {
    if order != [] {
      var prev := Exec(env, order[..|order| - 1]);
      var p := order[|order| - 1];
      var n := |prev.calls|;
      ExecKeysFromReplies(env, order[..|order| - 1]);
      var st := Exec(env, order);
      StepRecords(env, prev, p);
      ConsumedSnoc(env.replies, n);
      if |st.calls| == n + 1 {
        forall i | i in st.keys ensures FromReplies(env, Some(st.keys[i]), n + 1) {
          if i in prev.keys && st.keys[i] == prev.keys[i] {
            assert FromReplies(env, Some(prev.keys[i]), n);
          } else {
            assert Some(st.keys[i]) == ReplyAt(env.replies, n);
          }
        }
      } else {
        assert st.keys == prev.keys;
      }
    }
  }

  /** Every parent or epic key the run sends was returned by the oracle to an earlier call. */
  lemma {:induction false} ExecLinksFromEarlierReplies(env: Env, order: seq<nat>)
    requires ValidOrder(env, order)
    ensures forall j :: 0 <= j < |Exec(env, order).calls| ==>
      FromReplies(env, Exec(env, order).calls[j].parentKey, j) && FromReplies(env, Exec(env, order).calls[j].epicKey, j)
  {
    if order != [] {
      var prev := Exec(env, order[..|order| - 1]);
      var p := order[|order| - 1];
      var n := |prev.calls|;
      ExecLinksFromEarlierReplies(env, order[..|order| - 1]);
      ExecKeysFromReplies(env, order[..|order| - 1]);
      var st := Exec(env, order);
      StepRecords(env, prev, p);
      StepCall(env, prev, p);
      if |st.calls| == n + 1 {
        var d := Decide(IndexToTicket(env.batch), prev.keys, env.batch[p]);
        LinkKeysRecorded(IndexToTicket(env.batch), prev.keys, env.batch[p]);
        forall j | 0 <= j < n + 1
          ensures FromReplies(env, st.calls[j].parentKey, j) && FromReplies(env, st.calls[j].epicKey, j)
        {
          if j < n {
            assert st.calls[j] == prev.calls[j];
          } else {
            if d.parentKey.Some? {
              var i :| i in prev.keys && prev.keys[i] == d.parentKey.value;
              assert FromReplies(env, Some(prev.keys[i]), n);
            }
            if d.epicKey.Some? {
              var i :| i in prev.keys && prev.keys[i] == d.epicKey.value;
              assert FromReplies(env, Some(prev.keys[i]), n);
            }
          }
        }
      } else {
        assert st.calls == prev.calls;
      }
    }
  }

  /** A parent key never travels with an epic key, and is sent only with a Subtask label. */
  lemma {:induction false} ExecParentLinksOnlySubtasks(env: Env, order: seq<nat>)
    requires ValidOrder(env, order)
    ensures forall j :: 0 <= j < |Exec(env, order).calls| && Exec(env, order).calls[j].parentKey.Some? ==>
      Exec(env, order).calls[j].epicKey.None? && IsSubtaskType(Exec(env, order).calls[j].issueType)
  {
    if order != [] {
      var prev := Exec(env, order[..|order| - 1]);
      var p := order[|order| - 1];
      var n := |prev.calls|;
      ExecParentLinksOnlySubtasks(env, order[..|order| - 1]);
      var st := Exec(env, order);
      StepRecords(env, prev, p);
      StepCall(env, prev, p);
      if |st.calls| == n + 1 {
        LinkageExclusive(IndexToTicket(env.batch), prev.keys, env.batch[p]);
        forall j | 0 <= j < n + 1 && st.calls[j].parentKey.Some?
          ensures st.calls[j].epicKey.None? && IsSubtaskType(st.calls[j].issueType)
        {
          if j < n {
            assert st.calls[j] == prev.calls[j];
          }
        }
      } else {
        assert st.calls == prev.calls;
      }
    }
  }

  /** A key the linkage sends was recorded in the key map. */
  lemma LinkKeysRecorded(m: map<int, Ticket>, keys: map<int, string>, t: Ticket)
    ensures var d := Decide(m, keys, t);
      && (d.Send? && d.parentKey.Some? ==> d.parentKey.value in keys.Values)
      && (d.Send? && d.epicKey.Some? ==> d.epicKey.value in keys.Values)
  {
  }

  /** The key map recorded by a list of created records: each index maps to the last key created for it. */
  function KeyMapOf(created: seq<CreatedRecord>): map<int, string> {
    if created == [] then map[]
    else KeyMapOf(created[..|created| - 1])[created[|created| - 1].originalIndex := created[|created| - 1].key]
  }

  /**
   * `index_to_key` holds, for each index with a created ticket, the key of the last ticket
   * created under that index, and nothing for indices without one.
   */
  lemma {:induction false} ExecKeysAreRecords(env: Env, order: seq<nat>)
    requires ValidOrder(env, order)
    ensures Exec(env, order).keys == KeyMapOf(Exec(env, order).created)
  {
    if order != [] {
      var prev := Exec(env, order[..|order| - 1]);
      ExecKeysAreRecords(env, order[..|order| - 1]);
      StepEffects(env, prev, order[|order| - 1]);
      StepReplyEffects(env, prev, order[|order| - 1]);
      var st := Exec(env, order);
      if st.created != prev.created {
        assert st.created[..|st.created| - 1] == prev.created;
      }
    }
  }

  /** Report `i` is the report the `i`-th iteration makes, from the records created before it. */
  lemma {:induction false} ExecProgressEntries(env: Env, order: seq<nat>)
    requires ValidOrder(env, order)
    ensures |Exec(env, order).progress| == |order|
    ensures forall i :: 0 <= i < |order| ==>
      Exec(env, order).progress[i] == Progress(|Exec(env, order[..i]).created| + 1, |env.batch|, env.batch[order[i]].summary)
  {
    if order != [] {
      var front, last := order[..|order| - 1], order[|order| - 1];
      var prev := Exec(env, front);
      ExecProgressEntries(env, front);
      StepProgress(env, prev, last);
      var st := Exec(env, order);
      assert st.progress == prev.progress + [Progress(|prev.created| + 1, |env.batch|, env.batch[last].summary)];
      forall i | 0 <= i < |order|
        ensures st.progress[i] == Progress(|Exec(env, order[..i]).created| + 1, |env.batch|, env.batch[order[i]].summary)
      {
        if i < |front| {
          assert order[..i] == front[..i] && order[i] == front[i];
          assert st.progress[i] == prev.progress[i];
        } else {
          assert order[..i] == front && order[i] == last;
        }
      }
    }
  }

  /**
   * Progress: report `i` names the `i`-th ticket of the order and the batch size, and counts
   * the records created before it plus one, so skips and failures do not advance it.
   */
  lemma ExecProgress(env: Env, order: seq<nat>)
    requires ValidOrder(env, order)
    ensures |Exec(env, order).progress| == |order|
    ensures forall i :: 0 <= i < |order| ==>
      && Exec(env, order).progress[i].total == |env.batch|
      && Exec(env, order).progress[i].summary == env.batch[order[i]].summary
      && Exec(env, order).progress[i].current == |Exec(env, order[..i]).created| + 1
      && 1 <= Exec(env, order).progress[i].current <= i + 1
  {
    ExecProgressEntries(env, order);
    forall i | 0 <= i < |order| ensures |Exec(env, order[..i]).created| <= i {
      ExecCounts(env, order[..i]);
    }
  }

  /** Record `r` is for the ticket at batch position `p`, whose ticket received `r`'s key. */
  predicate RecordFor(env: Env, st: RunState, p: nat, r: CreatedRecord) {
    && p < |env.batch| && p in st.written && st.written[p] == r.key
    && r.originalIndex == env.batch[p].index && r.issueType == env.batch[p].issueType
    && r.summary == env.batch[p].summary
  }

  /**
   * Every record is for a batch ticket of the order, under that ticket's index, with its
   * original type and summary, and that ticket received the record's key.
   */
  lemma {:induction false} ExecRecordsFromBatch(env: Env, order: seq<nat>)
    requires ValidOrder(env, order) && Distinct(order)
    ensures forall r :: r in Exec(env, order).created ==>
      exists p :: p in order && RecordFor(env, Exec(env, order), p, r)
  {
    if order != [] {
      var front := order[..|order| - 1];
      var p := order[|order| - 1];
      var prev := Exec(env, front);
      assert Distinct(front);
      ExecRecordsFromBatch(env, front);
      StepRecords(env, prev, p);
      var st := Exec(env, order);
      forall r | r in st.created ensures exists q :: q in order && RecordFor(env, st, q, r) {
        if r in prev.created {
          assert exists q :: q in front && RecordFor(env, prev, q, r);
          var q :| q in front && RecordFor(env, prev, q, r);
          var k :| 0 <= k < |front| && front[k] == q;
          assert order[k] == q && q != p;
          assert RecordFor(env, st, q, r);
        } else {
          assert RecordFor(env, st, p, r);
        }
      }
    }
  }

  // ---------------------------------------------------------------------------------------
  // The imperative engine

  /** The linkage computation of the loop body, with the two ancestor searches. */
  method DetermineLinkage(m: map<int, Ticket>, keys: map<int, string>, t: Ticket) returns (d: Linkage)
    ensures d == Decide(m, keys, t)
  {
    var parentKey: Option<string> := None;
    var epicKey: Option<string> := None;
    var issueType := t.issueType;
    if t.parentIndex.Some? {
      var nonSubtaskParent := FindFirstNonSubtaskAncestor(m, t.parentIndex.value);
      var epicParent := FindEpicAncestor(m, t.parentIndex.value);
      if IsSubtaskType(issueType) {
        if nonSubtaskParent.None? {
          return Skip;
        }
        FirstAncestorSpec(m, ParentChain(m, t.parentIndex.value), NonSubtask);
        var parentTicket := m[nonSubtaskParent.value];
        if IsEpicType(parentTicket.issueType) {
          issueType := "Task";
          epicKey := Lookup(keys, nonSubtaskParent.value);
          if !Truthy(epicKey) {
            return Skip;
          }
          return Send(issueType, parentKey, epicKey, true);
        } else {
          parentKey := Lookup(keys, nonSubtaskParent.value);
          if !Truthy(parentKey) {
            return Skip;
          }
        }
      } else if epicParent.Some? {
        epicKey := Lookup(keys, epicParent.value);
      }
    }
    return Send(issueType, parentKey, epicKey, false);
  }

  /**
   * The body of the creation loop for the ticket at batch position `p`: report progress, work
   * out the linkage, and either note the skip or call the Issue Creator and record the outcome.
   * `key` is the key to write into the ticket, if the call succeeded.
   */
  method CreateOne(ghost env: Env, ghost st: RunState, p: nat, projectKey: string, client: JiraClient,
                   replies: seq<Option<string>>, indexToTicket: map<int, Ticket>, total: nat, ticket: Ticket,
                   indexToKey: map<int, string>, created: seq<CreatedRecord>, notes: seq<string>,
                   calls: seq<CreateCall>, progress: seq<Progress>)
    returns (indexToKey': map<int, string>, created': seq<CreatedRecord>, notes': seq<string>,
             calls': seq<CreateCall>, progress': seq<Progress>, key: Option<string>)
    requires p < |env.batch| == total && ticket == env.batch[p] && indexToTicket == IndexToTicket(env.batch)
    requires projectKey == env.projectKey && client.baseUrl == env.baseUrl && replies == env.replies
    requires st == RunState(indexToKey, created, notes, calls, progress, st.written)
    ensures RunState(indexToKey', created', notes', calls', progress',
                     if key.Some? then st.written[p := key.value] else st.written) == Step(env, st, p)
  {
    indexToKey', created', notes', calls', key := indexToKey, created, notes, calls, None;
    progress' := progress + [Progress(|created| + 1, total, ticket.summary)];
    var linkage := DetermineLinkage(indexToTicket, indexToKey, ticket);
    if linkage.Skip? {
      notes' := notes + [SkipNote(ticket.summary)];
      return;
    }
    if linkage.promoted {
      notes' := notes' + [PromoteNote(ticket.summary)];
    }
    var description := AppendCriteria(ticket.description, ticket.acceptanceCriteria);
    var call := CreateCall(projectKey, linkage.issueType, ticket.summary, description, linkage.parentKey, linkage.epicKey);
    var result := ReplyAt(replies, |calls|);
    calls' := calls + [call];
    if result.Some? {
      var issueKey := result.value;
      indexToKey' := indexToKey[ticket.index := issueKey];
      created' := created + [CreatedRecord(issueKey, ticket.issueType, ticket.summary, client.IssueUrl(issueKey), ticket.index)];
      key := Some(issueKey);
    } else {
      notes' := notes' + [FailNote(ticket.summary)];
    }
  }

  /** The next position of a repetition-free order is new, and processing it is one more step. */
  lemma ExecNext(env: Env, order: seq<nat>, i: nat)
    requires ValidOrder(env, order) && Distinct(order) && i < |order|
    ensures ValidOrder(env, order[..i]) && ValidOrder(env, order[..i + 1])
    ensures order[i] !in order[..i] && order[..i + 1] == order[..i] + [order[i]]
    ensures Exec(env, order[..i + 1]) == Step(env, Exec(env, order[..i]), order[i])
  {
    ExecSnoc(env, order[..i], order[i]);
    assert order[..i + 1] == order[..i] + [order[i]];
    forall k | 0 <= k < i ensures order[..i][k] != order[i] {
      assert order[k] != order[i];
    }
  }

  /** A sequence that agrees with the batch and the written keys position by position is `WithKeys`. */
  lemma WithKeysPointwise(batch: seq<Ticket>, written: map<nat, string>, s: seq<Ticket>)
    requires |s| == |batch|
    requires forall q :: 0 <= q < |s| ==> s[q] == if q in written then batch[q].(key := Some(written[q])) else batch[q]
    ensures s == WithKeys(batch, written)
  {
  }

  /** What `create_tickets` holds after the first `i` positions of `order`: the state so far and the keys written into the array. */
  ghost predicate LoopState(env: Env, order: seq<nat>, i: nat, tickets: seq<Ticket>, st: RunState)
    requires ValidOrder(env, order) && i <= |order|
  {
    && |tickets| == |env.batch|
    && st == Exec(env, order[..i])
    && (forall q :: q in st.written ==> q in order[..i])
    && (forall q :: 0 <= q < |tickets| ==>
          tickets[q] == if q in st.written then env.batch[q].(key := Some(st.written[q])) else env.batch[q])
  }

  /** The loop state after one more position: the new state is one step on, and a created key is written at that position. */
  lemma LoopStateNext(env: Env, order: seq<nat>, i: nat, before: seq<Ticket>, st: RunState,
                      after: seq<Ticket>, st': RunState, key: Option<string>)
    requires ValidOrder(env, order) && Distinct(order) && i < |order|
    requires LoopState(env, order, i, before, st)
    requires st'.written == (if key.Some? then st.written[order[i] := key.value] else st.written)
    requires st' == Step(env, st, order[i])
    requires after == if key.Some? then before[order[i] := before[order[i]].(key := key)] else before
    ensures LoopState(env, order, i + 1, after, st')
  {
    ExecNext(env, order, i);
  }

  /** One iteration of `create_tickets`: the ticket at `order[i]`, and its key written into the array. */
  method CreateNext(ghost env: Env, order: seq<nat>, i: nat, projectKey: string, client: JiraClient,
                    tickets: array<Ticket>, replies: seq<Option<string>>, indexToTicket: map<int, Ticket>,
                    indexToKey: map<int, string>, created: seq<CreatedRecord>, notes: seq<string>,
                    calls: seq<CreateCall>, progress: seq<Progress>, ghost written: map<nat, string>)
    returns (indexToKey': map<int, string>, created': seq<CreatedRecord>, notes': seq<string>,
             calls': seq<CreateCall>, progress': seq<Progress>, ghost written': map<nat, string>)
    modifies tickets
    requires projectKey == env.projectKey && client.baseUrl == env.baseUrl && replies == env.replies
    requires ValidOrder(env, order) && Distinct(order) && i < |order| && indexToTicket == IndexToTicket(env.batch)
    requires LoopState(env, order, i, tickets[..], RunState(indexToKey, created, notes, calls, progress, written))
    ensures LoopState(env, order, i + 1, tickets[..], RunState(indexToKey', created', notes', calls', progress', written'))
  {
    ghost var st := RunState(indexToKey, created, notes, calls, progress, written);
    ghost var before := tickets[..];
    var p := order[i];
    var ticket := tickets[p];
    var key;
    indexToKey', created', notes', calls', progress', key :=
      CreateOne(env, st, p, projectKey, client, replies, indexToTicket, tickets.Length, ticket, indexToKey, created, notes, calls, progress);
    written' := written;
    if key.Some? {
      tickets[p] := ticket.(key := key);
      written' := written[p := key.value];
    }
    LoopStateNext(env, order, i, before, st, tickets[..], RunState(indexToKey', created', notes', calls', progress', written'), key);
  }

  /**
   * `create_tickets`. The client supplies the browse URLs; `replies` stands for the Issue
   * Creator. Each created key is also written into its ticket.
   */
  method CreateTickets(projectKey: string, client: JiraClient, tickets: array<Ticket>, replies: seq<Option<string>>)
    returns (created: seq<CreatedRecord>, notes: seq<string>, calls: seq<CreateCall>, progress: seq<Progress>)
    modifies tickets
    ensures var final := Run(Env(projectKey, client.baseUrl, old(tickets[..]), replies));
      && created == final.created && notes == final.notes
      && calls == final.calls && progress == final.progress
      && tickets[..] == WithKeys(old(tickets[..]), final.written)
  {
    ghost var batch := tickets[..];
    ghost var env := Env(projectKey, client.baseUrl, batch, replies);
    var indexToTicket := IndexToTicket(tickets[..]);
    var order := CreationOrder(tickets[..]);
    assert ValidOrder(env, order);
    var indexToKey: map<int, string> := map[];
    ghost var written: map<nat, string> := map[];
    created, notes, calls, progress := [], [], [], [];
    for i := 0 to |order|
      invariant LoopState(env, order, i, tickets[..], RunState(indexToKey, created, notes, calls, progress, written))
    {
      indexToKey, created, notes, calls, progress, written :=
        CreateNext(env, order, i, projectKey, client, tickets, replies, indexToTicket,
                   indexToKey, created, notes, calls, progress, written);
    }
    assert order[..|order|] == order;
    WithKeysPointwise(batch, written, tickets[..]);
  }
}
