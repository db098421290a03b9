/**
 * The pure helpers of the web form: ticket labels, the parent drop-down, the overview table,
 * the type badge, the criteria text box and the create-button condition.
 */
module WebForm {
  import opened Wrappers
  import opened Text
  import opened Tickets

  // ---------------------------------------------------------------------------------------
  // Labels and table rows

  /** The summary of the ticket at `parentIndex`, or `""` when there is none or it is out of range. */
  function ParentSummary(tickets: seq<Ticket>, parentIndex: Option<int>): string {
    if parentIndex.Some? && 0 <= parentIndex.value < |tickets| then tickets[parentIndex.value].summary else ""
  }

  /** `describe_ticket`: `type - summary`, followed by ` (Parent: …)` when the parent has a non-empty summary. */
  function DescribeTicket(t: Ticket, tickets: seq<Ticket>): (r: string)
    ensures var base, ps := t.issueType + " - " + t.summary, ParentSummary(tickets, t.parentIndex);
      && base <= r
      && (ps == "" ==> r == base)
      && (ps != "" ==> r[|base|..] == " (Parent: " + ps + ")")
  {
    var parentSummary := ParentSummary(tickets, t.parentIndex);
    if parentSummary != "" then t.issueType + " - " + t.summary + " (Parent: " + parentSummary + ")"
    else t.issueType + " - " + t.summary
  }

  /** One row of the overview table. */
  datatype Row = Row(issueType: string, summary: string, parent: string)

  /** `tickets_table`: one row per ticket, in order, with the parent's summary or `""`. */
  method TicketsTable(tickets: seq<Ticket>) returns (rows: seq<Row>)
    ensures |rows| == |tickets|
    ensures forall i :: 0 <= i < |tickets| ==>
      rows[i] == Row(tickets[i].issueType, tickets[i].summary, ParentSummary(tickets, tickets[i].parentIndex))
  {
    rows := [];
    for i := 0 to |tickets|
      invariant |rows| == i
      invariant forall j :: 0 <= j < i ==>
        rows[j] == Row(tickets[j].issueType, tickets[j].summary, ParentSummary(tickets, tickets[j].parentIndex))
    {
      var ticket := tickets[i];
      var parent := "";
      if ticket.parentIndex.Some? && 0 <= ticket.parentIndex.value < |tickets| {
        parent := tickets[ticket.parentIndex.value].summary;
      }
      rows := rows + [Row(ticket.issueType, ticket.summary, parent)];
    }
  }

  /** The label names a parent exactly when the table row shows one, and then it is the same summary. */
  lemma LabelAgreesWithTable(tickets: seq<Ticket>, rows: seq<Row>, i: nat)
    requires i < |tickets| == |rows|
    requires rows[i] == Row(tickets[i].issueType, tickets[i].summary, ParentSummary(tickets, tickets[i].parentIndex))
    ensures var base := tickets[i].issueType + " - " + tickets[i].summary;
      && (DescribeTicket(tickets[i], tickets) == base <==> rows[i].parent == "")
      && (rows[i].parent != "" ==> DescribeTicket(tickets[i], tickets) == base + " (Parent: " + rows[i].parent + ")")
  {
    var base := tickets[i].issueType + " - " + tickets[i].summary;
    var d := DescribeTicket(tickets[i], tickets);
    if rows[i].parent != "" {
      assert |d| > |base|;
    }
  }

  // ---------------------------------------------------------------------------------------
  // The parent drop-down

  /** One entry of the parent drop-down: its label and the position it selects. */
  datatype ParentOption = ParentOption(caption: string, idx: Option<int>)

  /** `f"{idx + 1}. {type} - {summary}"`. */
  function OptionLabel(tickets: seq<Ticket>, p: nat): string
    requires p < |tickets|
  {
    NatToString(p + 1) + ". " + tickets[p].issueType + " - " + tickets[p].summary
  }

  /** Some entry after `None` selects position `p`. */
  predicate Offers(options: seq<ParentOption>, p: int) {
    exists k :: 1 <= k < |options| && options[k].idx == Some(p)
  }

  /**
   * The drop-down for the ticket at `current`: `None` first, then every other position in
   * ascending order, each once, with its label.
   */
  predicate IsParentOptions(options: seq<ParentOption>, tickets: seq<Ticket>, current: int) {
    && |options| >= 1 && options[0] == ParentOption("None", None)
    && (forall k :: 1 <= k < |options| ==>
          && options[k].idx.Some? && 0 <= options[k].idx.value < |tickets| && options[k].idx.value != current
          && options[k].caption == OptionLabel(tickets, options[k].idx.value))
    && (forall k, l :: 1 <= k < l < |options| ==> options[k].idx.value < options[l].idx.value)
    && (forall p :: 0 <= p < |tickets| && p != current ==> Offers(options, p))
  }

  /** `build_parent_options`. */
  method BuildParentOptions(current: int, tickets: seq<Ticket>) returns (options: seq<ParentOption>)
    ensures IsParentOptions(options, tickets, current)
  {
    options := [ParentOption("None", None)];
    for idx := 0 to |tickets|
      invariant |options| >= 1 && options[0] == ParentOption("None", None)
      invariant forall k :: 1 <= k < |options| ==>
        && options[k].idx.Some? && 0 <= options[k].idx.value < idx && options[k].idx.value != current
        && options[k].caption == OptionLabel(tickets, options[k].idx.value)
      invariant forall k, l :: 1 <= k < l < |options| ==> options[k].idx.value < options[l].idx.value
      invariant forall p :: 0 <= p < idx && p != current ==> Offers(options, p)
    {
      if idx == current {
        continue;
      }
      var t := tickets[idx];
      var caption := NatToString(idx + 1) + ". " + t.issueType + " - " + t.summary;
      ghost var before := options;
      options := options + [ParentOption(caption, Some(idx))];
      forall p | 0 <= p < idx + 1 && p != current
        ensures Offers(options, p)
      {
        if p == idx {
          assert options[|options| - 1].idx == Some(p);
        } else {
          assert Offers(before, p);
          var k :| 1 <= k < |before| && before[k].idx == Some(p);
          assert options[k] == before[k];
        }
      }
    }
  }

  /** The run of decimal digits at the start of `s`. */
  function LeadingDigits(s: string): string {
    if s == [] || !('0' <= s[0] <= '9') then [] else [s[0]] + LeadingDigits(s[1..])
  }

  /** The leading digits of digits followed by a non-digit are those digits. */
  lemma {:induction false} LeadingDigitsOf(d: string, x: string)
    requires forall i :: 0 <= i < |d| ==> '0' <= d[i] <= '9'
    requires x != [] && !('0' <= x[0] <= '9')
    ensures LeadingDigits(d + x) == d
  {
    if d == [] {
      assert d + x == x;
    } else {
      LeadingDigitsOf(d[1..], x);
      assert (d + x)[1..] == d[1..] + x;
    }
  }

  /** A label starts with its one-based number, followed by a dot. */
  lemma OptionLabelNumber(tickets: seq<Ticket>, p: nat)
    requires p < |tickets|
    ensures LeadingDigits(OptionLabel(tickets, p)) == NatToString(p + 1)
  {
    var rest := ". " + tickets[p].issueType + " - " + tickets[p].summary;
    assert OptionLabel(tickets, p) == NatToString(p + 1) + rest;
    LeadingDigitsOf(NatToString(p + 1), rest);
  }

  /** `None` does not start with a digit. */
  lemma NoneHasNoNumber()
    ensures LeadingDigits("None") == []
  {
  }

  /**
   * Option labels identify positions: two positions with the same label are the same position,
   * and no position is labelled `None`.
   */
  lemma OptionLabelInjective(tickets: seq<Ticket>, p: nat, q: nat)
    requires p < |tickets| && q < |tickets|
    ensures OptionLabel(tickets, p) == OptionLabel(tickets, q) ==> p == q
    ensures OptionLabel(tickets, p) != "None"
  {
    OptionLabelNumber(tickets, p);
    NoneHasNoNumber();
    if OptionLabel(tickets, p) == OptionLabel(tickets, q) {
      OptionLabelNumber(tickets, q);
      NatToStringValue(p + 1);
      NatToStringValue(q + 1);
    }
  }

  /**
   * Choosing by label is unambiguous: the labels of the drop-down are pairwise different, so
   * looking up the entry with a given label, as the form does, finds that entry's position.
   */
  lemma ParentOptionLabelsDistinct(options: seq<ParentOption>, tickets: seq<Ticket>, current: int)
    requires IsParentOptions(options, tickets, current)
    ensures forall k, l :: 0 <= k < l < |options| ==> options[k].caption != options[l].caption
  {
    forall k, l | 0 <= k < l < |options| ensures options[k].caption != options[l].caption {
      var q := options[l].idx.value;
      OptionLabelInjective(tickets, q, q);
      if k > 0 {
        var p := options[k].idx.value;
        OptionLabelInjective(tickets, p, q);
      }
    }
  }

  // ---------------------------------------------------------------------------------------
  // The type badge

  /** The badge text tests: the type stripped and lower-cased, a missing type read as `""`. */
  function PillForm(ticketType: Option<string>): string {
    Lower(Strip(ticketType.GetOr("")))
  }

  /** `pill_class`: the badge class for `epic`, `story` and `subtask`, and `pill-task` for everything else. */
  function PillClass(ticketType: Option<string>): (r: string)
    ensures r in ["pill-epic", "pill-story", "pill-subtask", "pill-task"]
    ensures r == "pill-epic" <==> PillForm(ticketType) == "epic"
    ensures r == "pill-story" <==> PillForm(ticketType) == "story"
    ensures r == "pill-subtask" <==> PillForm(ticketType) == "subtask"
  {
    var normalized := PillForm(ticketType);
    if normalized == "epic" then "pill-epic"
    else if normalized == "story" then "pill-story"
    else if normalized == "subtask" then "pill-subtask"
    else "pill-task"
  }

  /** The Epic badge appears exactly for the labels the creation engine treats as Epics. */
  lemma EpicPillIsEpicType(t: string)
    ensures PillClass(Some(t)) == "pill-epic" <==> IsEpicType(t)
  {
  }

  /** The Subtask badge appears only for labels the creation engine treats as Subtasks. */
  lemma SubtaskPillIsSubtaskType(t: string)
    ensures PillClass(Some(t)) == "pill-subtask" ==> IsSubtaskType(t)
  {
    var l := Lower(Strip(t));
    if l == "subtask" {
      RemoveAllSpec(l, '-');
      RemoveAllSpec(l, ' ');
    }
  }

  /** The converse fails: `Sub-task` gets the Task badge although the engine treats it as a Subtask. */
  lemma HyphenSubtaskGetsTaskPill(ticketType: string)
    requires ticketType == "Sub-task"
    ensures PillClass(Some(ticketType)) == "pill-task" && IsSubtaskType(ticketType)
  {
    TierTwoIsSubtask(ticketType);
    StripNoSpace(ticketType);
    assert Lower(ticketType) == "sub-task";
  }

  // ---------------------------------------------------------------------------------------
  // The criteria text box

  /** The line boundaries of Python's `str.splitlines`. */
  predicate IsLineBreak(c: char) {
    c == '\n' || c == '\r' || c == '\U{B}' || c == '\U{C}' || c == '\U{1C}' || c == '\U{1D}'
    || c == '\U{1E}' || c == '\U{85}' || c == '\U{2028}' || c == '\U{2029}'
  }

  /**
   * `s` cut at every line boundary. It differs from `splitlines` only by extra empty pieces
   * (inside `\r\n`, after a final boundary, and for `""`), which the criteria parse drops.
   */
  function SplitLines(s: string): (r: seq<string>)
    ensures |r| >= 1
  {
    if s == [] then [""]
    else
      var rest := SplitLines(s[1..]);
      if IsLineBreak(s[0]) then [""] + rest else [[s[0]] + rest[0]] + rest[1..]
  }

  /** No line holds a line boundary. */
  lemma {:induction false} SplitLinesChars(s: string)
    ensures forall i, c :: 0 <= i < |SplitLines(s)| && c in SplitLines(s)[i] ==> !IsLineBreak(c)
  {
    if s != [] {
      var rest := SplitLines(s[1..]);
      SplitLinesChars(s[1..]);
      var r := SplitLines(s);
      forall i, c | 0 <= i < |r| && c in r[i] ensures !IsLineBreak(c) {
        if IsLineBreak(s[0]) {
          if i > 0 {
            assert r[i] == rest[i - 1];
          }
        } else if i == 0 {
          assert r[0] == [s[0]] + rest[0];
          if c != s[0] {
            assert c in rest[0];
          }
        } else {
          assert r[i] == rest[i];
        }
      }
    }
  }

  /** A piece without a line boundary is one line. */
  lemma {:induction false} SplitLinesSingle(a: string)
    requires forall i :: 0 <= i < |a| ==> !IsLineBreak(a[i])
    ensures SplitLines(a) == [a]
  {
    if a != [] {
      SplitLinesSingle(a[1..]);
      assert [a[0]] + a[1..] == a;
    }
  }

  /** A first line without a boundary, then `\n`, then the rest. */
  lemma {:induction false} SplitLinesAfterLine(a: string, b: string)
    requires forall i :: 0 <= i < |a| ==> !IsLineBreak(a[i])
    ensures SplitLines(a + "\n" + b) == [a] + SplitLines(b)
  {
    if a == [] {
      assert a + "\n" + b == "\n" + b;
      assert ("\n" + b)[1..] == b;
    } else {
      SplitLinesAfterLine(a[1..], b);
      assert (a + "\n" + b)[1..] == a[1..] + "\n" + b;
      assert [a[0]] + a[1..] == a;
    }
  }

  /** Lines without boundaries, joined by `\n`, split back into themselves. */
  lemma {:induction false} SplitLinesJoin(lines: seq<string>)
    requires |lines| >= 1
    requires forall i, c :: 0 <= i < |lines| && c in lines[i] ==> !IsLineBreak(c)
    ensures SplitLines(Join(lines, "\n")) == lines
  {
    if |lines| == 1 {
      SplitLinesSingle(lines[0]);
    } else {
      SplitLinesJoin(lines[1..]);
      SplitLinesAfterLine(lines[0], Join(lines[1..], "\n"));
      assert [lines[0]] + lines[1..] == lines;
    }
  }

  /** `[c.strip() for c in text.splitlines() if c.strip()]`. */
  function CriteriaFromText(text: string): seq<string> {
    KeepNonBlank(SplitLines(text))
  }

  /** Every parsed criterion is non-empty, stripped and free of line boundaries. */
  lemma CriteriaFromTextClean(text: string)
    ensures var r := CriteriaFromText(text);
      forall i, c :: 0 <= i < |r| && c in r[i] ==> !IsLineBreak(c)
    ensures var r := CriteriaFromText(text); forall i :: 0 <= i < |r| ==> r[i] != [] && Strip(r[i]) == r[i]
  {
    var pieces := SplitLines(text);
    var r := CriteriaFromText(text);
    SplitLinesChars(text);
    KeepNonBlankClean(pieces);
    forall i, c | 0 <= i < |r| && c in r[i] ensures !IsLineBreak(c) {
      KeepNonBlankChars(pieces, c);
    }
  }

  /**
   * The text box shows the criteria one per line; criteria that are non-empty, stripped and
   * free of line boundaries are read back unchanged, and none gives none.
   */
  lemma CriteriaTextRoundTrip(criteria: seq<string>)
    requires forall i :: 0 <= i < |criteria| ==> criteria[i] != [] && Strip(criteria[i]) == criteria[i]
    requires forall i, c :: 0 <= i < |criteria| && c in criteria[i] ==> !IsLineBreak(c)
    ensures CriteriaFromText(Join(criteria, "\n")) == criteria
  {
    if criteria == [] {
      assert SplitLines("") == [""];
      assert IsBlank("");
    } else {
      SplitLinesJoin(criteria);
      KeepNonBlankKeepsClean(criteria);
    }
  }

  // ---------------------------------------------------------------------------------------
  // The create button

  /** `create_disabled`: the create button is greyed out. */
  function CreateDisabled(creating: bool, created: bool, confirm: bool, ticketCount: nat,
                          requirements: string, lastRequirements: string): bool
  {
    creating || created || !confirm || ticketCount == 0 || Strip(requirements) != lastRequirements
  }

  /** The session state the create button depends on. */
  datatype Session = Session(creating: bool, created: bool, lastRequirements: string, ticketCount: nat)

  /** The session a fresh page starts with. */
  const Fresh := Session(false, false, "", 0)

  /**
   * A button press of the page, with the requirements text box and the confirmation box as they
   * are then; `generated` is the size of the batch the analyser returns.
   */
  datatype Press =
    | Analyze(requirements: string, generated: nat)
    | ClearDraft
    | Create(requirements: string, confirm: bool)

  /**
   * The session after a press. Every button is greyed out while a creation runs. Analysing
   * blank requirements changes nothing; otherwise it records the stripped requirements, takes
   * the new batch and forgets the last creation. Clearing empties the batch and the recorded
   * requirements. Creating acts only when the button is shown and enabled, and ends with the
   * batch created.
   */
  function Apply(s: Session, p: Press): Session {
    if s.creating then s
    else match p
      case Analyze(requirements, generated) =>
        if Strip(requirements) == "" then s
        else s.(lastRequirements := Strip(requirements), created := false, ticketCount := generated)
      case ClearDraft => s.(created := false, lastRequirements := "", ticketCount := 0)
      case Create(requirements, confirm) =>
        if !s.created && !CreateDisabled(s.creating, s.created, confirm, s.ticketCount, requirements, s.lastRequirements)
        then s.(created := true)
        else s
  }

  /** The session after a run of presses. */
  function ApplyAll(s: Session, presses: seq<Press>): Session
    decreases presses
  {
    if presses == [] then s else ApplyAll(Apply(s, presses[0]), presses[1..])
  }

  /** A press that starts a new draft: an analysis of non-blank requirements, or a clear. */
  predicate StartsDraft(p: Press) {
    p.ClearDraft? || (p.Analyze? && Strip(p.requirements) != "")
  }

  /**
   * Right after analysing non-blank requirements, the button is enabled exactly when the box is
   * ticked and the analyser returned tickets, for the same requirements or any that strip to them.
   */
  lemma AnalysisEnablesCreate(s: Session, requirements: string, generated: nat, now: string, confirm: bool)
    requires !s.creating && Strip(requirements) != "" && Strip(now) == Strip(requirements)
    ensures var t := Apply(s, Analyze(requirements, generated));
      !CreateDisabled(t.creating, t.created, confirm, t.ticketCount, now, t.lastRequirements) <==> confirm && generated > 0
  {
  }

  /** A creation only goes ahead for the requirements that were analysed last. */
  lemma CreateUsesAnalysedRequirements(s: Session, requirements: string, confirm: bool)
    requires Apply(s, Create(requirements, confirm)).created && !s.created
    ensures Strip(requirements) == s.lastRequirements && s.ticketCount > 0 && confirm
  {
  }

  /**
   * At most one creation per draft: once a batch is created, the button stays disabled, whatever
   * is typed or ticked, until a press starts a new draft.
   */
  lemma {:induction false} CreatedUntilNewDraft(s: Session, presses: seq<Press>, confirm: bool, now: string)
    requires s.created
    requires forall i :: 0 <= i < |presses| ==> !StartsDraft(presses[i])
    ensures var t := ApplyAll(s, presses);
      t.created && t.lastRequirements == s.lastRequirements && t.ticketCount == s.ticketCount &&
      CreateDisabled(t.creating, t.created, confirm, t.ticketCount, now, t.lastRequirements)
  {
    if presses != [] {
      assert !StartsDraft(presses[0]);
      var next := Apply(s, presses[0]);
      assert next == s;
      CreatedUntilNewDraft(next, presses[1..], confirm, now);
    }
  }

  /** On a fresh page, nothing can be created before an analysis of non-blank requirements. */
  lemma {:induction false} NoCreateBeforeAnalysis(presses: seq<Press>)
    requires forall i :: 0 <= i < |presses| ==> !(presses[i].Analyze? && Strip(presses[i].requirements) != "")
    ensures ApplyAll(Fresh, presses) == Fresh
  {
    if presses != [] {
      assert Apply(Fresh, presses[0]) == Fresh;
      NoCreateBeforeAnalysis(presses[1..]);
    }
  }
}
