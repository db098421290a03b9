/**
 * The console front end: the loop that reads the requirements line by line, and the editing
 * of one ticket from the answers to three prompts.
 */
module ConsoleUi {
  import opened Wrappers
  import opened Text
  import opened Tickets

  // ---------------------------------------------------------------------------------------
  // Reading the requirements

  /** What one `input()` call yields: a line, or a keyboard interrupt. The end of the sequence is end of file. */
  datatype InputEvent = Line(text: string) | Interrupt

  /** The `/done` command, in any case and with any surrounding whitespace. */
  predicate IsDone(line: string) {
    Lower(Strip(line)) == "/done"
  }

  /** Event `k` is a blank line. */
  predicate BlankAt(events: seq<InputEvent>, k: nat)
    requires k < |events|
  {
    events[k].Line? && IsBlank(events[k].text)
  }

  /** Input ends at event `k`: an interrupt, the `/done` command, or the second of two blank lines in a row. */
  predicate EndsAt(events: seq<InputEvent>, k: nat)
    requires k < |events|
  {
    || events[k].Interrupt?
    || IsDone(events[k].text)
    || (BlankAt(events, k) && k >= 1 && BlankAt(events, k - 1))
  }

  /** The first event at or after `k` where input ends, or the end of the events. */
  function FirstEndFrom(events: seq<InputEvent>, k: nat): (r: nat)
    requires k <= |events|
    ensures k <= r <= |events|
    decreases |events| - k
  {
    if k == |events| then k
    else if EndsAt(events, k) then k
    else FirstEndFrom(events, k + 1)
  }

  /** Where reading stops: the first terminator, or end of file. */
  function FirstEnd(events: seq<InputEvent>): nat {
    FirstEndFrom(events, 0)
  }

  /** The non-blank lines among `events`, in order, as typed. */
  function Kept(events: seq<InputEvent>): seq<string> {
    if events == [] then []
    else
      var last := events[|events| - 1];
      Kept(events[..|events| - 1]) + (if last.Line? && !IsBlank(last.text) then [last.text] else [])
  }

  /**
   * What `get_requirements` returns: the empty string when reading stops at an interrupt, and
   * otherwise the non-blank lines before the terminator (or before end of file) joined by line breaks.
   */
  function Requirements(events: seq<InputEvent>): string {
    var k := FirstEnd(events);
    if k < |events| && events[k].Interrupt? then "" else Join(Kept(events[..k]), "\n")
  }

  /** The first terminator is the first position that ends input. */
  lemma {:induction false} FirstEndIs(events: seq<InputEvent>, k: nat, i: nat)
    requires k <= i <= |events|
    requires forall j :: k <= j < i ==> !EndsAt(events, j)
    requires i == |events| || EndsAt(events, i)
    ensures FirstEndFrom(events, k) == i
    decreases i - k
  {
    if k < i {
      FirstEndIs(events, k + 1, i);
    }
  }

  /**
   * `get_requirements` reading from `events`. The `/done` test comes before the blank test; a
   * blank line counts towards two in a row, and any other line is kept and resets the count.
   */
  method GetRequirements(events: seq<InputEvent>) returns (requirements: string)
    ensures requirements == Requirements(events)
  {
    var lines: seq<string> := [];
    var emptyLines := 0;
    var i := 0;
    while i < |events|
      invariant i <= |events|
      invariant forall j :: 0 <= j < i ==> !EndsAt(events, j)
      invariant lines == Kept(events[..i])
      invariant emptyLines == if i > 0 && BlankAt(events, i - 1) then 1 else 0
    {
      assert events[..i + 1][..i] == events[..i];
      match events[i]
      case Interrupt =>
        FirstEndIs(events, 0, i);
        return "";
      case Line(line) =>
        if Lower(Strip(line)) == "/done" {
          break;
        }
        if Strip(line) == [] {
          emptyLines := emptyLines + 1;
          if emptyLines >= 2 {
            break;
          }
        } else {
          emptyLines := 0;
          lines := lines + [line];
        }
      i := i + 1;
    }
    FirstEndIs(events, 0, i);
    requirements := Join(lines, "\n");
  }

  /** Every kept line is non-blank, and blank lines are never kept. */
  lemma {:induction false} KeptAreNonBlank(events: seq<InputEvent>)
    ensures forall x :: x in Kept(events) ==> !IsBlank(x)
    ensures |Kept(events)| <= |events|
  {
    if events != [] {
      KeptAreNonBlank(events[..|events| - 1]);
    }
  }

  /**
   * The lines can be read back: when the kept lines hold no line break themselves, splitting the
   * result at line breaks gives exactly the kept lines.
   */
  lemma KeptLinesRecovered(events: seq<InputEvent>)
    requires var k := FirstEnd(events); !(k < |events| && events[k].Interrupt?)
    requires var ls := Kept(events[..FirstEnd(events)]); |ls| >= 1 && forall i :: 0 <= i < |ls| ==> '\n' !in ls[i]
    ensures Split(Requirements(events), '\n') == Kept(events[..FirstEnd(events)])
  {
    SplitJoin(Kept(events[..FirstEnd(events)]), '\n');
  }

  /** With no terminator anywhere, end of file returns all non-blank lines. */
  lemma EndOfFileKeepsAll(events: seq<InputEvent>)
    requires forall k :: 0 <= k < |events| ==> !EndsAt(events, k)
    ensures Requirements(events) == Join(Kept(events), "\n")
  {
    FirstEndIs(events, 0, |events|);
    assert events[..|events|] == events;
  }

  /** The lines kept from `line one`, a blank line, `line two`. */
  lemma KeptOfThree(pre: seq<InputEvent>)
    requires pre == [Line("line one"), Line(""), Line("line two")]
    ensures Kept(pre) == ["line one", "line two"]
  {
    StripNoSpace("line one");
    StripNoSpace("line two");
    assert IsBlank("");
    assert pre[..2][..1] == [Line("line one")] && [Line("line one")][..0] == [];
    assert Kept([Line("line one")]) == ["line one"];
    assert Kept(pre[..2]) == ["line one"];
  }

  /** `line one`, a blank line, `line two`, `/done` reads as the two lines. */
  lemma SingleBlankLineInContent(events: seq<InputEvent>)
    requires events == [Line("line one"), Line(""), Line("line two"), Line("/done")]
    ensures Requirements(events) == "line one\nline two"
  {
    StripNoSpace("line one");
    StripNoSpace("line two");
    StripNoSpace("/done");
    assert Lower("/done") == "/done";
    assert IsBlank("");
    assert !EndsAt(events, 0) && !EndsAt(events, 1) && !EndsAt(events, 2) && EndsAt(events, 3);
    FirstEndIs(events, 0, 3);
    KeptOfThree(events[..3]);
    assert Join(["line one", "line two"], "\n") == "line one" + "\n" + "line two";
  }

  /** `update backend`, `/done` reads as the one line. */
  lemma FinishesOnDone(events: seq<InputEvent>)
    requires events == [Line("update backend"), Line("/done")]
    ensures Requirements(events) == "update backend"
  {
    StripNoSpace("update backend");
    StripNoSpace("/done");
    assert Lower("/done") == "/done";
    assert !EndsAt(events, 0) && EndsAt(events, 1);
    FirstEndIs(events, 0, 1);
    assert events[..1] == [Line("update backend")] && [Line("update backend")][..0] == [];
  }

  /** Two blank lines with nothing before them read as nothing. */
  lemma TwoBlankLinesEndEmpty(events: seq<InputEvent>)
    requires events == [Line(""), Line("")]
    ensures Requirements(events) == ""
  {
    assert IsBlank("");
    assert !EndsAt(events, 0) && EndsAt(events, 1);
    FirstEndIs(events, 0, 1);
    assert events[..1] == [Line("")] && [Line("")][..0] == [];
  }

  // ---------------------------------------------------------------------------------------
  // Editing a ticket

  /** `[ac.strip() for ac in answer.split(',') if ac.strip()]`. */
  function ParseCriteria(answer: string): seq<string> {
    KeepNonBlank(Split(answer, ','))
  }

  /**
   * `edit_ticket`, given the three answers (a prompt's default is its answer to an empty reply).
   * Only summary, description and criteria change. An empty criteria answer keeps the old
   * criteria; any other answer replaces them by its parsed, comma-separated entries.
   */
  function EditTicket(t: Ticket, newSummary: string, newDescription: string, criteriaAnswer: string): (r: Ticket)
    ensures r.index == t.index && r.issueType == t.issueType && r.parentIndex == t.parentIndex && r.key == t.key
    ensures r.summary == newSummary && r.description == newDescription
    ensures criteriaAnswer == "" ==> r.acceptanceCriteria == t.acceptanceCriteria
    ensures criteriaAnswer != "" ==> r.acceptanceCriteria == ParseCriteria(criteriaAnswer)
  {
    var criteria := if criteriaAnswer != "" then ParseCriteria(criteriaAnswer) else t.acceptanceCriteria;
    t.(summary := newSummary, description := newDescription, acceptanceCriteria := criteria)
  }

  /** Parsed criteria are non-empty, carry no surrounding whitespace and hold no comma. */
  lemma ParseCriteriaClean(answer: string)
    ensures var r := ParseCriteria(answer);
      forall i :: 0 <= i < |r| ==> r[i] != [] && Strip(r[i]) == r[i] && ',' !in r[i]
  {
    var pieces := Split(answer, ',');
    KeepNonBlankClean(pieces);
    KeepNonBlankChars(pieces, ',');
    var r := ParseCriteria(answer);
    assert !exists j :: 0 <= j < |pieces| && ',' in pieces[j];
  }

  /** Criteria written back comma-separated are parsed back to themselves. */
  lemma ParseCriteriaRoundTrip(criteria: seq<string>)
    requires |criteria| >= 1
    requires forall i :: 0 <= i < |criteria| ==> criteria[i] != [] && Strip(criteria[i]) == criteria[i] && ',' !in criteria[i]
    ensures ParseCriteria(Join(criteria, ",")) == criteria
  {
    SplitJoin(criteria, ',');
    KeepNonBlankKeepsClean(criteria);
  }

  /** An answer of whitespace and commas only, such as `", ,"`, is not empty, so it clears the criteria. */
  lemma BlankAnswerClearsCriteria(t: Ticket, newSummary: string, newDescription: string, answer: string)
    requires answer != "" && forall i :: 0 <= i < |answer| ==> answer[i] == ',' || IsSpace(answer[i])
    ensures EditTicket(t, newSummary, newDescription, answer).acceptanceCriteria == []
  {
    var pieces := Split(answer, ',');
    SplitChars(answer, ',');
    forall j | 0 <= j < |pieces| ensures IsBlank(pieces[j]) {
      forall k | 0 <= k < |pieces[j]| ensures IsSpace(pieces[j][k]) {
        assert pieces[j][k] in pieces[j];
        assert pieces[j][k] in answer;
        var i :| 0 <= i < |answer| && answer[i] == pieces[j][k];
      }
      BlankIffAllSpace(pieces[j]);
    }
    KeepNonBlankAllBlank(pieces);
  }
}
