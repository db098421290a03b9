/**
 * The Jira client's local logic: issue-type alias normalisation, the description-to-paragraph
 * conversion, the issue payload with its parent / epic-link rule, the project-and-board merge
 * with de-duplication by key, the cached epic-link field lookup and issue URLs.
 * The HTTP requests themselves are replaced by their replies, passed in as parameters.
 */
module JiraApi {
  import opened Wrappers
  import opened Text
  import opened Tickets

  /** Python truthiness of an optional string: present and non-empty. */
  predicate Truthy(o: Option<string>) {
    o.Some? && o.value != ""
  }

  // ---------------------------------------------------------------------------------------
  // Issue types

  /** `_normalize_issue_type`: the alias table lookup, falling back to the label itself. */
  function NormalizeIssueType(issueType: string): (r: string)
    ensures r == issueType || r == "Subtask"
    ensures r != issueType <==> issueType in {"Sub-task", "Sub task", "subtask", "sub-task"}
  {
    if issueType in {"Sub-task", "Sub task", "subtask", "sub-task"} then "Subtask" else issueType
  }

  /** Normalising twice is normalising once. */
  lemma NormalizeIdempotent(issueType: string)
    ensures NormalizeIssueType(NormalizeIssueType(issueType)) == NormalizeIssueType(issueType)
  {
  }

  /** `Subtask` itself passes the Subtask test. */
  lemma SubtaskLabelPasses(issueType: string)
    requires issueType == "Subtask"
    ensures IsSubtaskType(issueType)
  {
    TierTwoIsSubtask(issueType);
  }

  /** Normalisation never changes whether the batch engine treats a label as a Subtask. */
  lemma NormalizeKeepsSubtaskTest(issueType: string)
    ensures IsSubtaskType(NormalizeIssueType(issueType)) == IsSubtaskType(issueType)
  {
    var r := NormalizeIssueType(issueType);
    if r != issueType {
      SubtaskLabelPasses(r);
      if issueType == "Sub-task" {
        TierTwoIsSubtask(issueType);
      } else if issueType == "Sub task" {
        MarkedSubtaskSortsInTierOne(issueType, ' ');
      } else if issueType == "subtask" {
        LowerSubtaskSortsInTierOne(issueType);
      } else {
        MarkedSubtaskSortsInTierOne(issueType, '-');
      }
    }
  }

  // ---------------------------------------------------------------------------------------
  // Description paragraphs

  /** A text node of the Atlassian document format. */
  datatype Node = TextNode(text: string)

  /** A paragraph of the Atlassian document format. */
  datatype Paragraph = Paragraph(content: seq<Node>)

  /** The paragraph for one line: empty for a whitespace-only line, else the line verbatim. */
  function ParagraphOf(line: string): Paragraph {
    if IsBlank(line) then Paragraph([]) else Paragraph([TextNode(line)])
  }

  /** The document content for a description: one paragraph per `\n`-separated line. */
  function Paragraphs(text: string): seq<Paragraph> {
    var lines := Split(text, '\n');
    seq(|lines|, i requires 0 <= i < |lines| => ParagraphOf(lines[i]))
  }

  /**
   * One paragraph per line, in order, never none; a whitespace-only line gives an empty
   * paragraph and any other line a single text node holding the line unchanged.
   */
  lemma ParagraphsShape(text: string)
    ensures var lines, ps := Split(text, '\n'), Paragraphs(text);
      && |ps| == |lines| && |ps| >= 1
      && (forall i :: 0 <= i < |ps| ==> (ps[i].content == [] <==> IsBlank(lines[i])))
      && (forall i :: 0 <= i < |ps| && !IsBlank(lines[i]) ==> ps[i].content == [TextNode(lines[i])])
  {
  }

  /** The text a paragraph carries. */
  function ParagraphText(p: Paragraph): string {
    if p.content == [] then "" else p.content[0].text
  }

  /**
   * The paragraphs lose nothing but whitespace-only lines: when every blank line is empty,
   * joining the paragraph texts with `\n` gives the description back.
   */
  lemma ParagraphsRoundTrip(text: string)
    requires forall line :: line in Split(text, '\n') && IsBlank(line) ==> line == ""
    ensures var ps := Paragraphs(text);
      Join(seq(|ps|, i requires 0 <= i < |ps| => ParagraphText(ps[i])), "\n") == text
  {
    var lines := Split(text, '\n');
    var ps := Paragraphs(text);
    var texts := seq(|ps|, i requires 0 <= i < |ps| => ParagraphText(ps[i]));
    forall i | 0 <= i < |lines| ensures texts[i] == lines[i] {
      assert lines[i] in lines;
    }
    assert texts == lines;
    JoinSplit(text, '\n');
  }

  /** `_format_description`: a loop appending one paragraph per line. */
  method FormatDescription(text: string) returns (content: seq<Paragraph>)
    ensures content == Paragraphs(text)
  {
    var lines := Split(text, '\n');
    content := [];
    for i := 0 to |lines|
      invariant content == Paragraphs(text)[..i]
    {
      if IsBlank(lines[i]) {
        content := content + [Paragraph([])];
      } else {
        content := content + [Paragraph([TextNode(lines[i])])];
      }
    }
    assert content == Paragraphs(text);
  }

  // ---------------------------------------------------------------------------------------
  // The issue payload

  /** A value in the `fields` object of the create-issue request. */
  datatype FieldValue =
    | KeyRef(key: string)          // `{"key": ...}`
    | NameRef(name: string)        // `{"name": ...}`
    | Plain(text: string)          // a bare string
    | Doc(content: seq<Paragraph>) // `{"type": "doc", "version": 1, "content": ...}`

  /**
   * The `fields` object `create_issue` sends. `epicField` is the epic-link field id the
   * lookup returned; it is consulted only for a non-empty `epicKey`.
   */
  function IssueFields(projectKey: string, issueType: string, summary: string, description: string,
                       parentKey: Option<string>, epicKey: Option<string>, epicField: Option<string>): map<string, FieldValue>
  {
    WithEpic(WithParent(BaseFields(projectKey, issueType, summary, description), parentKey), epicKey, epicField)
  }

  /** The four fields every request carries. */
  function BaseFields(projectKey: string, issueType: string, summary: string, description: string): map<string, FieldValue> {
    map[
      "project" := KeyRef(projectKey),
      "summary" := Plain(summary),
      "description" := Doc(Paragraphs(description)),
      "issuetype" := NameRef(NormalizeIssueType(issueType))]
  }

  /** Adds `parent` for a non-empty parent key. */
  function WithParent(fields: map<string, FieldValue>, parentKey: Option<string>): map<string, FieldValue> {
    if Truthy(parentKey) then fields["parent" := KeyRef(parentKey.value)] else fields
  }

  /** Places a non-empty epic key: in the epic-link field when known, else in `parent` unless already set. */
  function WithEpic(fields: map<string, FieldValue>, epicKey: Option<string>, epicField: Option<string>): map<string, FieldValue> {
    if !Truthy(epicKey) then fields
    else if Truthy(epicField) then fields[epicField.value := Plain(epicKey.value)]
    else if "parent" !in fields then fields["parent" := KeyRef(epicKey.value)]
    else fields
  }

  /**
   * The payload rules: project, summary, description and normalised type are always sent; a
   * `parent` is sent exactly when there is a parent key, or an epic key with no known epic-link
   * field, and the parent key wins; an epic key goes to the epic-link field when one is known.
   */
  lemma IssueFieldsRules(projectKey: string, issueType: string, summary: string, description: string,
                         parentKey: Option<string>, epicKey: Option<string>, epicField: Option<string>)
    requires !(Truthy(epicField) && epicField.value in {"project", "summary", "description", "issuetype", "parent"})
    ensures var f := IssueFields(projectKey, issueType, summary, description, parentKey, epicKey, epicField);
      && f["project"] == KeyRef(projectKey)
      && f["summary"] == Plain(summary)
      && f["description"] == Doc(Paragraphs(description))
      && f["issuetype"] == NameRef(NormalizeIssueType(issueType))
      && ("parent" in f <==> Truthy(parentKey) || (Truthy(epicKey) && !Truthy(epicField)))
      && (Truthy(parentKey) ==> f["parent"] == KeyRef(parentKey.value))
      && (!Truthy(parentKey) && Truthy(epicKey) && !Truthy(epicField) ==> f["parent"] == KeyRef(epicKey.value))
      && (Truthy(epicField) ==> (epicField.value in f <==> Truthy(epicKey)))
      && (Truthy(epicKey) && Truthy(epicField) ==> f[epicField.value] == Plain(epicKey.value))
      && f.Keys <= {"project", "summary", "description", "issuetype", "parent"} + (if Truthy(epicField) then {epicField.value} else {})
  {
  }

  // ---------------------------------------------------------------------------------------
  // The epic-link field

  /** An entry of the `/field` reply: its name (`""` when missing) and its id, if any. */
  datatype JiraField = JiraField(name: string, id: Option<string>)

  /** The field-matching rule: the trimmed, lower-cased name is `epic link`. */
  predicate IsEpicLinkName(name: string) {
    Lower(Strip(name)) == "epic link"
  }

  /** Which fields carry the epic-link name, position by position. */
  function NameMatches(fields: seq<JiraField>): (ms: seq<bool>)
    ensures |ms| == |fields|
  {
    seq(|fields|, j requires 0 <= j < |fields| => IsEpicLinkName(fields[j].name))
  }

  /** The first position at or after `from` whose flag is set, if any. */
  function FirstSet(ms: seq<bool>, from: nat): Option<nat>
    requires from <= |ms|
    decreases |ms| - from
  {
    if from == |ms| then None
    else if ms[from] then Some(from)
    else FirstSet(ms, from + 1)
  }

  /** The search finds the first set flag, and `None` exactly when no flag from `from` on is set. */
  lemma {:induction false} FirstSetSpec(ms: seq<bool>, from: nat)
    requires from <= |ms|
    ensures var r := FirstSet(ms, from);
      && (r.Some? ==> from <= r.value < |ms| && ms[r.value])
      && (r.Some? ==> forall j :: from <= j < r.value ==> !ms[j])
      && (r.None? <==> forall j :: from <= j < |ms| ==> !ms[j])
    decreases |ms| - from
  {
    if from < |ms| && !ms[from] {
      FirstSetSpec(ms, from + 1);
    }
  }

  /** The position of the first epic-link field, if any. */
  function EpicLinkPosition(fields: seq<JiraField>): Option<nat> {
    FirstSet(NameMatches(fields), 0)
  }

  /** The epic-link field is the first field whose trimmed, lower-cased name is `epic link`. */
  lemma EpicLinkPositionSpec(fields: seq<JiraField>)
    ensures var r := EpicLinkPosition(fields);
      && (r.Some? ==> r.value < |fields| && IsEpicLinkName(fields[r.value].name))
      && (r.Some? ==> forall j :: 0 <= j < r.value ==> !IsEpicLinkName(fields[j].name))
      && (r.None? <==> forall j :: 0 <= j < |fields| ==> !IsEpicLinkName(fields[j].name))
  {
    var ms := NameMatches(fields);
    FirstSetSpec(ms, 0);
    var r := EpicLinkPosition(fields);
    var bound := if r.Some? then r.value else |fields|;
    forall j | 0 <= j < bound ensures !IsEpicLinkName(fields[j].name) {
      assert !ms[j];
    }
    if r.Some? {
      assert ms[r.value];
    } else if forall j :: 0 <= j < |fields| ==> !IsEpicLinkName(fields[j].name) {
      forall j | 0 <= j < |fields| ensures !ms[j] {
        assert !IsEpicLinkName(fields[j].name);
      }
    }
  }

  /** The id the lookup yields for a successfully fetched field list. */
  function EpicLinkId(fields: seq<JiraField>): Option<string> {
    EpicLinkPositionSpec(fields);
    match EpicLinkPosition(fields)
    case None => None
    case Some(p) => fields[p].id
  }

  /**
   * What `_get_epic_link_field_id` returns: a cached id as is, otherwise the lookup in the
   * fetched fields, and `None` when the fetch failed.
   */
  function EpicLinkLookup(cache: Option<string>, fetched: Option<seq<JiraField>>): Option<string> {
    if cache.Some? then cache
    else if fetched.None? then None
    else EpicLinkId(fetched.value)
  }

  /** `get_issue_url`: the browse URL of an issue. */
  function BrowseUrl(baseUrl: string, issueKey: string): string {
    baseUrl + "/browse/" + issueKey
  }

  /** Different issue keys get different URLs, and the key can be read back from its URL. */
  lemma BrowseUrlKey(baseUrl: string, issueKey: string)
    ensures BrowseUrl(baseUrl, issueKey)[|baseUrl| + 8..] == issueKey
    ensures forall other :: BrowseUrl(baseUrl, other) == BrowseUrl(baseUrl, issueKey) ==> other == issueKey
  {
    forall other | BrowseUrl(baseUrl, other) == BrowseUrl(baseUrl, issueKey) ensures other == issueKey {
      assert BrowseUrl(baseUrl, other)[|baseUrl| + 8..] == other;
    }
  }

  /** The client object: its base URL and the cached epic-link field id. */
  class JiraClient {
    const baseUrl: string
    var epicLinkFieldId: Option<string>

    /** `__init__`: trailing slashes of the configured URL are dropped; nothing is cached yet. */
    constructor(jiraUrl: string)
      ensures baseUrl == RStripChar(jiraUrl, '/')
      ensures baseUrl == [] || baseUrl[|baseUrl| - 1] != '/'
      ensures epicLinkFieldId == None
    {
      baseUrl := RStripChar(jiraUrl, '/');
      epicLinkFieldId := None;
    }

    /** `get_issue_url`: the base URL, `/browse/`, then the key. */
    function IssueUrl(issueKey: string): (url: string)
      ensures url == BrowseUrl(baseUrl, issueKey)
      ensures url[..|baseUrl|] == baseUrl && url[|baseUrl| + 8..] == issueKey
    {
      baseUrl + "/browse/" + issueKey
    }

    /**
     * `_get_epic_link_field_id`. `fetched` is the reply of the `/field` request (`None` when
     * it fails); it is consulted only when no id is cached, and the answer is cached.
     */
    method GetEpicLinkFieldId(fetched: Option<seq<JiraField>>) returns (id: Option<string>)
      modifies this
      ensures id == EpicLinkLookup(old(epicLinkFieldId), fetched)
      ensures epicLinkFieldId == id
      ensures old(epicLinkFieldId).Some? ==> epicLinkFieldId == old(epicLinkFieldId)
    {
      if epicLinkFieldId.Some? {
        return epicLinkFieldId;
      }
      if fetched.None? {
        epicLinkFieldId := None;
        return None;
      }
      var fields := fetched.value;
      ghost var matches := NameMatches(fields);
      for i := 0 to |fields|
        invariant FirstSet(matches, i) == EpicLinkPosition(fields)
        invariant epicLinkFieldId == None
      {
        assert matches[i] == IsEpicLinkName(fields[i].name);
        if IsEpicLinkName(fields[i].name) {
          epicLinkFieldId := fields[i].id;
          return epicLinkFieldId;
        }
      }
      epicLinkFieldId := None;
      return None;
    }

    /**
     * The payload half of `create_issue`: fills the fields object step by step, looking up
     * the epic-link field only for a non-empty epic key.
     */
    method BuildIssueFields(projectKey: string, issueType: string, summary: string, description: string,
                            parentKey: Option<string>, epicKey: Option<string>,
                            fetched: Option<seq<JiraField>>) returns (fields: map<string, FieldValue>)
      modifies this
      ensures var epicField := if Truthy(epicKey) then EpicLinkLookup(old(epicLinkFieldId), fetched) else None;
        fields == IssueFields(projectKey, issueType, summary, description, parentKey, epicKey, epicField)
      ensures Truthy(epicKey) ==> epicLinkFieldId == EpicLinkLookup(old(epicLinkFieldId), fetched)
      ensures !Truthy(epicKey) ==> epicLinkFieldId == old(epicLinkFieldId)
    {
      var normalizedType := NormalizeIssueType(issueType);
      var content := FormatDescription(description);
      fields := map[
        "project" := KeyRef(projectKey),
        "summary" := Plain(summary),
        "description" := Doc(content),
        "issuetype" := NameRef(normalizedType)];
      assert fields == BaseFields(projectKey, issueType, summary, description);
      if Truthy(parentKey) {
        fields := fields["parent" := KeyRef(parentKey.value)];
      }
      ghost var withParent := fields;
      assert withParent == WithParent(BaseFields(projectKey, issueType, summary, description), parentKey);
      if Truthy(epicKey) {
        var epicField := GetEpicLinkFieldId(fetched);
        if Truthy(epicField) {
          fields := fields[epicField.value := Plain(epicKey.value)];
        } else if "parent" !in fields {
          fields := fields["parent" := KeyRef(epicKey.value)];
        }
      }
    }
  }

  // ---------------------------------------------------------------------------------------
  // Projects and boards

  /** Where an entry of the project list came from. */
  datatype EntryKind = ProjectEntry | BoardEntry

  /** A project of the `/project` reply. */
  datatype Project = Project(key: string, name: string, id: string)

  /** A board of the `/board` reply; `projectKey` is `location.projectKey`, `""` when missing. */
  datatype Board = Board(name: string, id: string, projectKey: string)

  /** An entry of the merged list. */
  datatype Entry = Entry(key: string, name: string, id: string, kind: EntryKind)

  /** The entry for a project. */
  function FromProject(p: Project): Entry {
    Entry(p.key, p.name, p.id, ProjectEntry)
  }

  /** The entry for a board, named after it with ` (Board)` appended. */
  function FromBoard(b: Board): Entry {
    Entry(b.projectKey, b.name + " (Board)", b.id, BoardEntry)
  }

  /** The project entries, in order. */
  function ProjectEntries(ps: seq<Project>): seq<Entry> {
    if ps == [] then [] else ProjectEntries(ps[..|ps| - 1]) + [FromProject(ps[|ps| - 1])]
  }

  /** The entries of the boards that name a project, in order. */
  function BoardEntries(bs: seq<Board>): seq<Entry> {
    if bs == [] then []
    else BoardEntries(bs[..|bs| - 1]) + (if bs[|bs| - 1].projectKey != "" then [FromBoard(bs[|bs| - 1])] else [])
  }

  /** The keys occurring in a list of entries. */
  function KeysOf(s: seq<Entry>): set<string> {
    set e | e in s :: e.key
  }

  /** The list without entries whose key occurred earlier: a first-come-first-kept filter. */
  function Dedup(s: seq<Entry>): seq<Entry> {
    if s == [] then []
    else
      var front := s[..|s| - 1];
      Dedup(front) + (if s[|s| - 1].key in KeysOf(front) then [] else [s[|s| - 1]])
  }

  /** Every project becomes an entry, in order. */
  lemma {:induction false} ProjectEntriesShape(ps: seq<Project>)
    ensures |ProjectEntries(ps)| == |ps|
    ensures forall i :: 0 <= i < |ps| ==> ProjectEntries(ps)[i] == FromProject(ps[i])
  {
    if ps != [] {
      ProjectEntriesShape(ps[..|ps| - 1]);
    }
  }

  /** The positions of the boards that name a project, in ascending order. */
  function KeptBoards(bs: seq<Board>): seq<nat> {
    if bs == [] then []
    else KeptBoards(bs[..|bs| - 1]) + (if bs[|bs| - 1].projectKey != "" then [|bs| - 1] else [])
  }

  /**
   * Exactly the boards with a non-empty project key become entries, in board order: entry `i`
   * comes from the board at the `i`-th such position, and the positions ascend.
   */
  lemma {:induction false} BoardEntriesShape(bs: seq<Board>)
    ensures forall e :: e in BoardEntries(bs) <==> exists b :: b in bs && b.projectKey != "" && e == FromBoard(b)
    ensures var k := KeptBoards(bs);
      && |BoardEntries(bs)| == |k|
      && (forall i :: 0 <= i < |k| ==> k[i] < |bs| && bs[k[i]].projectKey != "" && BoardEntries(bs)[i] == FromBoard(bs[k[i]]))
      && (forall i, j :: 0 <= i < j < |k| ==> k[i] < k[j])
      && (forall j :: 0 <= j < |bs| && bs[j].projectKey != "" ==> j in k)
  {
    if bs != [] {
      var front := bs[..|bs| - 1];
      BoardEntriesShape(front);
      assert bs == front + [bs[|bs| - 1]];
      forall j | 0 <= j < |front| ensures bs[j] == front[j] { }
    }
  }

  /** A de-duplicated list has each key once and keeps exactly the keys of its input. */
  lemma {:induction false} DedupKeys(s: seq<Entry>)
    ensures KeysOf(Dedup(s)) == KeysOf(s)
    ensures forall i, j :: 0 <= i < j < |Dedup(s)| ==> Dedup(s)[i].key != Dedup(s)[j].key
  {
    if s != [] {
      var front := s[..|s| - 1];
      DedupKeys(front);
      assert s == front + [s[|s| - 1]];
      assert KeysOf(s) == KeysOf(front) + {s[|s| - 1].key};
    }
  }

  /** Every kept entry is the first entry of the input with its key. */
  lemma {:induction false} DedupKeepsFirst(s: seq<Entry>)
    ensures forall e :: e in Dedup(s) ==> exists i :: 0 <= i < |s| && s[i] == e && forall j :: 0 <= j < i ==> s[j].key != e.key
  {
    if s != [] {
      var front := s[..|s| - 1];
      DedupKeepsFirst(front);
      forall e | e in Dedup(s) ensures exists i :: 0 <= i < |s| && s[i] == e && forall j :: 0 <= j < i ==> s[j].key != e.key {
        if e in Dedup(front) {
          var i :| 0 <= i < |front| && front[i] == e && forall j :: 0 <= j < i ==> front[j].key != e.key;
          assert s[i] == e;
          assert forall j :: 0 <= j < i ==> s[j] == front[j];
        } else {
          var i := |s| - 1;
          assert e == s[i] && e.key !in KeysOf(front);
          forall j | 0 <= j < i ensures s[j].key != e.key {
            assert s[j] == front[j] && front[j] in front;
          }
        }
      }
    }
  }

  /** De-duplicating a longer list only adds entries at the end: earlier entries keep their places. */
  lemma {:induction false} DedupPrefix(s: seq<Entry>, n: nat)
    requires n <= |s|
    ensures Dedup(s[..n]) <= Dedup(s)
    decreases |s| - n
  {
    if n < |s| {
      DedupPrefix(s, n + 1);
      assert s[..n + 1][..n] == s[..n];
    } else {
      assert s[..n] == s;
    }
  }

  /** With distinct project keys, the merged list starts with all the projects, in order. */
  lemma {:induction false} ProjectsComeFirst(ps: seq<Project>, bs: seq<Board>)
    requires forall i, j :: 0 <= i < j < |ps| ==> ps[i].key != ps[j].key
    ensures Dedup(ProjectEntries(ps)) == ProjectEntries(ps)
    ensures ProjectEntries(ps) <= Dedup(ProjectEntries(ps) + BoardEntries(bs))
  {
    var pe := ProjectEntries(ps);
    ProjectEntriesShape(ps);
    DistinctKeysDedup(pe);
    var all := pe + BoardEntries(bs);
    DedupPrefix(all, |pe|);
    assert all[..|pe|] == pe;
  }

  /** A list whose keys are already distinct is left as it is. */
  lemma {:induction false} DistinctKeysDedup(s: seq<Entry>)
    requires forall i, j :: 0 <= i < j < |s| ==> s[i].key != s[j].key
    ensures Dedup(s) == s
  {
    if s != [] {
      var front := s[..|s| - 1];
      var last := s[|s| - 1];
      assert s == front + [last];
      forall i, j | 0 <= i < j < |front| ensures front[i].key != front[j].key {
        assert front[i] == s[i] && front[j] == s[j];
      }
      DistinctKeysDedup(front);
      assert last.key !in KeysOf(front) by {
        KeysOfIndex(front, last.key);
        forall i | 0 <= i < |front| ensures front[i].key != last.key {
          assert front[i] == s[i];
        }
      }
    }
  }

  /** A key is among the keys of `s` exactly when some position of `s` holds it. */
  lemma KeysOfIndex(s: seq<Entry>, k: string)
    ensures k in KeysOf(s) <==> exists i :: 0 <= i < |s| && s[i].key == k
  {
    if k in KeysOf(s) {
      var e :| e in s && e.key == k;
      var i :| 0 <= i < |s| && s[i] == e;
    }
  }

  /** The merge/de-duplication half of `get_projects`: projects, then boards, then duplicates dropped. */
  method MergeProjects(projects: seq<Project>, boards: seq<Board>) returns (unique: seq<Entry>)
    ensures unique == Dedup(ProjectEntries(projects) + BoardEntries(boards))
  {
    var result: seq<Entry> := [];
    for i := 0 to |projects|
      invariant result == ProjectEntries(projects[..i])
    {
      assert projects[..i + 1][..i] == projects[..i];
      result := result + [FromProject(projects[i])];
    }
    assert projects[..|projects|] == projects;
    for i := 0 to |boards|
      invariant result == ProjectEntries(projects) + BoardEntries(boards[..i])
    {
      assert boards[..i + 1][..i] == boards[..i];
      if boards[i].projectKey != "" {
        result := result + [FromBoard(boards[i])];
      }
    }
    assert boards[..|boards|] == boards;
    unique := DedupByKey(result);
  }

  /** The `seen`-set loop of `get_projects` that keeps the first entry per key. */
  method DedupByKey(result: seq<Entry>) returns (unique: seq<Entry>)
    ensures unique == Dedup(result)
  {
    var seen: set<string> := {};
    unique := [];
    for i := 0 to |result|
      invariant unique == Dedup(result[..i])
      invariant seen == KeysOf(result[..i])
    {
      assert result[..i + 1][..i] == result[..i];
      assert KeysOf(result[..i + 1]) == seen + {result[i].key};
      if result[i].key !in seen {
        seen := seen + {result[i].key};
        unique := unique + [result[i]];
      }
    }
    assert result[..|result|] == result;
  }
}
