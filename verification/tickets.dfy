/**
 * A proposed work item of a batch, and the three ways the batch engine reads its
 * free-text type: the creation tier (exact labels), the Subtask test
 * (case-, space- and hyphen-insensitive) and the Epic test (case-insensitive).
 */
module Tickets {
  import opened Wrappers
  import opened Text

  /**
   * One ticket of a batch: its local `index`, free-text type, texts, the optional
   * (possibly dangling or cyclic) `parentIndex`, and the remote `key` once created.
   */
  datatype Ticket = Ticket(
    index: int,
    issueType: string,
    summary: string,
    description: string,
    acceptanceCriteria: seq<string>,
    parentIndex: Option<int>,
    key: Option<string>)

  /**
   * The creation tier `type_order.get(type, 1)`: exact labels only, so
   * `Epic` is 0, `Subtask` and `Sub-task` are 2 and every other label is 1.
   */
  function TypeTier(issueType: string): (tier: nat)
    ensures tier <= 2
    ensures tier == 0 <==> issueType == "Epic"
    ensures tier == 2 <==> issueType == "Subtask" || issueType == "Sub-task"
  {
    if issueType == "Epic" then 0
    else if issueType == "Subtask" || issueType == "Sub-task" then 2
    else 1
  }

  /** The normal form `is_subtask_type` compares: stripped, lower-cased, without `-` and ` `. */
  function SubtaskForm(issueType: string): string {
    RemoveAll(RemoveAll(Lower(Strip(issueType)), '-'), ' ')
  }

  /** `is_subtask_type`: the label reads `subtask` once case, hyphens and spaces are ignored. */
  predicate IsSubtaskType(issueType: string) {
    SubtaskForm(issueType) == "subtask"
  }

  /** The Epic test of the ancestor search: the stripped, lower-cased label is `epic`. */
  predicate IsEpicType(issueType: string) {
    Lower(Strip(issueType)) == "epic"
  }

  /** A label the Epic test accepts is never a Subtask label. */
  lemma EpicIsNotSubtask(issueType: string)
    requires IsEpicType(issueType)
    ensures !IsSubtaskType(issueType)
  {
    var e := Lower(Strip(issueType));
    RemoveAllSpec(e, '-');
    RemoveAllSpec(e, ' ');
  }

  /** A label with no surrounding whitespace has the Subtask form of its lower-cased text. */
  lemma FormOfTrimmedLabel(issueType: string, l: string)
    requires issueType != [] && !IsSpace(issueType[0]) && !IsSpace(issueType[|issueType| - 1])
    requires Lower(issueType) == l
    ensures SubtaskForm(issueType) == RemoveAll(RemoveAll(l, '-'), ' ')
  {
    StripNoSpace(issueType);
  }

  /** Text without hyphens and spaces is its own Subtask form. */
  lemma FormOfPlainText(l: string)
    requires '-' !in l && ' ' !in l
    ensures RemoveAll(RemoveAll(l, '-'), ' ') == l
  {
    RemoveAllSpec(l, '-');
    RemoveAllSpec(l, ' ');
  }

  /** One hyphen or space between two plain pieces is dropped by the Subtask form. */
  lemma FormOfMarkedText(a: string, b: string, mark: char)
    requires mark == '-' || mark == ' '
    requires '-' !in a && ' ' !in a && '-' !in b && ' ' !in b
    ensures RemoveAll(RemoveAll(a + [mark] + b, '-'), ' ') == a + b
  {
    if mark == '-' {
      RemoveSingle(a, b, '-');
      assert ' ' !in a + b;
      RemoveAllSpec(a + b, ' ');
    } else {
      var s := a + [mark] + b;
      assert '-' !in s;
      RemoveAllSpec(s, '-');
      RemoveSingle(a, b, ' ');
    }
  }

  /** `sub`, a hyphen or a space, and `task`, lower-cased, has the Subtask form `subtask`. */
  lemma MarkedSubtaskForm(issueType: string, mark: char)
    requires mark == '-' || mark == ' '
    requires issueType != [] && !IsSpace(issueType[0]) && !IsSpace(issueType[|issueType| - 1])
    requires Lower(issueType) == "sub" + [mark] + "task"
    ensures IsSubtaskType(issueType)
  {
    var a, b := "sub", "task";
    FormOfTrimmedLabel(issueType, a + [mark] + b);
    FormOfMarkedText(a, b, mark);
  }

  /** Every label of creation tier 2 passes the Subtask test. */
  lemma TierTwoIsSubtask(issueType: string)
    requires TypeTier(issueType) == 2
    ensures IsSubtaskType(issueType)
  {
    var l := Lower(issueType);
    if issueType == "Subtask" {
      assert l == "subtask";
      FormOfTrimmedLabel(issueType, l);
      FormOfPlainText(l);
    } else {
      MarkedSubtaskForm(issueType, '-');
    }
  }

  /** The two rules disagree: `subtask` passes the Subtask test but sorts in tier 1. */
  lemma LowerSubtaskSortsInTierOne(issueType: string)
    requires issueType == "subtask"
    ensures TypeTier(issueType) == 1 && IsSubtaskType(issueType)
  {
    assert Lower(issueType) == issueType;
    FormOfTrimmedLabel(issueType, issueType);
    FormOfPlainText(issueType);
  }

  /**
   * The two rules disagree for every casing of `sub task` and `sub-task` other than the exact
   * label `Sub-task`: each passes the Subtask test, yet sorts in tier 1.
   */
  lemma MarkedSubtaskSortsInTierOne(issueType: string, mark: char)
    requires mark == '-' || mark == ' '
    requires issueType != "Sub-task"
    requires Lower(issueType) == "sub" + [mark] + "task"
    ensures TypeTier(issueType) == 1 && IsSubtaskType(issueType)
  {
    assert LowerChar(issueType[0]) == 's' && LowerChar(issueType[7]) == 'k';
    MarkedSubtaskForm(issueType, mark);
  }

  /** A label shorter than `subtask` can never pass the Subtask test. */
  lemma ShortLabelIsNotSubtask(issueType: string)
    requires |issueType| < 7
    ensures !IsSubtaskType(issueType)
  {
    StripSpec(issueType);
    var l := Lower(Strip(issueType));
    RemoveAllSpec(l, '-');
    RemoveAllSpec(RemoveAll(l, '-'), ' ');
  }
}
