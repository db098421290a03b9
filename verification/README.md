# Jira ticket automation: the batch creation engine, in Dafny

This project models the local logic of the Jira ticket automation tool and proves properties of
it. A language model proposes a flat batch of tickets. Each ticket has a dense `index`, a free-text
type, a summary, a description, acceptance criteria and an optional `parent_index`; the parent
index may dangle or form a cycle. The user reviews the batch, then `create_tickets` creates it in
Jira, parents before children.

The heart of the model is `create_tickets`:

- its creation order, a stable sort by `(type_order.get(type, 1), index)`;
- the parent-chain walk, guarded by a visited set;
- the two ancestor searches;
- the linkage rules that give each ticket its effective type, parent key and epic key, and that
  promote a Subtask under an Epic to a Task;
- the state it builds: `index_to_key`, `created_tickets`, `errors`, the progress reports and the
  key written into each ticket.

The Issue Creator is an oracle: call number `j` of a run receives `replies[j]`, a key or a
failure. A call beyond the end of the replies fails. The progress callback becomes an appended
trace of `(current, total, summary)` reports.

The run is defined twice:

- as a fold of one-iteration steps over the creation order (`Executor.Run`), and
- as the imperative loop of the source, over an array of tickets (`Executor.CreateTickets`).

The loop is proved equal to the fold. The properties are then proved about the fold.

Around the engine sit the smaller pieces it depends on, all modelled:

- Ingest: the normaliser of the analyser's answer, and the post-processing of the e-mail
  extraction.
- Batch edits: delete-and-renumber, and ticket editing.
- The requirements reader of the console front end.
- The Jira client's local logic:
  - type-alias normalisation;
  - description paragraphs;
  - the payload rule for `parent` and the epic-link field;
  - the cached epic-link field lookup;
  - the project/board merge with de-duplication;
  - issue URLs.
- The helpers of the web form:
  - ticket labels and table rows;
  - the parent drop-down;
  - badge classes;
  - the criteria text box;
  - the create button condition, and the presses of Analyze, Clear and Create that drive it.

The engine reads a ticket's type in three ways, and the model proves where they disagree:

- The creation tier matches exact labels only.
- The Subtask test ignores case, spaces and hyphens.
- The badge test ignores only case and surrounding whitespace.

Examples of the disagreements:

- `subtask`, `sub-task` and `Sub task` pass the Subtask test but sort in tier 1, with Stories
  and Tasks (`Tickets.LowerSubtaskSortsInTierOne` for `subtask`,
  `Tickets.MarkedSubtaskSortsInTierOne` for the other two and every other casing of them).
- `Sub-task` is a Subtask to the engine but gets the Task badge
  (`WebForm.HyphenSubtaskGetsTaskPill`).

The delete branch does not renumber parent indices. So deleting the parent of the next ticket
makes that ticket its own parent (`BatchEdit.DeletedParentBecomesSelfLink`).

Modules, one file each: `Wrappers`, `Text` (the Python string methods used), `Tickets`,
`Planner`, `Ancestry`, `Executor`, `Scenarios`, `BatchEdit`, `Ingest`, `JiraApi`, `ConsoleUi`,
`WebForm`.

## Model

| member | source | states |
|---|---|---|
| Tickets.TypeTier | jira_automation/main.py:214-215 | the tier is 0 exactly for `Epic` and 2 exactly for `Subtask` or `Sub-task`; every other label is tier 1 |
| Tickets.IsSubtaskType | jira_automation/main.py:220-222 | definition; stated by `Tickets.TierTwoIsSubtask`, `Tickets.ShortLabelIsNotSubtask`, `Tickets.MarkedSubtaskSortsInTierOne` and `JiraApi.NormalizeKeepsSubtaskTest` |
| Tickets.IsEpicType | jira_automation/main.py:249 | definition of the Epic test, also used at main.py:276-277; stated by `Tickets.EpicIsNotSubtask` and `WebForm.EpicPillIsEpicType` |
| Tickets.TierTwoIsSubtask | jira_automation/main.py:214-222 | every tier-2 label passes the Subtask test |
| Tickets.EpicIsNotSubtask | jira_automation/main.py:220-222 | a label the Epic test accepts never passes the Subtask test |
| Tickets.ShortLabelIsNotSubtask | jira_automation/main.py:220-222 | no label shorter than seven characters passes the Subtask test |
| Tickets.LowerSubtaskSortsInTierOne | jira_automation/main.py:214-222 | `subtask` passes the Subtask test, yet sorts in tier 1 |
| Tickets.MarkedSubtaskSortsInTierOne | jira_automation/main.py:214-222 | every casing of `sub task` or `sub-task` other than the exact `Sub-task` (such as `Sub task`, `sub-task`, `SUB TASK`) passes the Subtask test, yet sorts in tier 1 |
| Planner.SortPositions | jira_automation/main.py:215 | insertion sort of distinct positions: a permutation of its input, strictly ordered by (tier, index, position) |
| Planner.CreationOrder | jira_automation/main.py:215 | the creation order lists every batch position exactly once; it is non-decreasing in tier, ties go by ascending index, and remaining ties keep batch order (stability) |
| Planner.CreationOrderUnique | jira_automation/main.py:215 | any arrangement of all positions, each once, strictly ordered by (tier, index, position) is the creation order, so the sort key alone determines it |
| Ancestry.IndexToTicketKeys | jira_automation/main.py:210 | the table's keys are exactly the indices occurring in the batch |
| Ancestry.IndexToTicketLastWins | jira_automation/main.py:210 | on duplicate indices the table holds the ticket that comes last |
| Ancestry.IndexToTicketDense | jira_automation/main.py:210 | for a dense batch, the table maps each position to the ticket there, and has no other keys |
| Ancestry.ChainFromIsWalk | jira_automation/main.py:224-233 | the computed chain starts at the start index, follows parent links, has no repeats, avoids the visited set, and stops at a missing or dangling parent or a revisit |
| Ancestry.WalkIsChainFrom | jira_automation/main.py:224-233 | any sequence with those walk properties is the computed chain |
| Ancestry.ParentChainIsTheWalk | jira_automation/main.py:224-233 | `find_parent_chain(start)` is the unique parent walk from `start` (both directions) |
| Ancestry.ParentChain | jira_automation/main.py:224-233 | definition; stated by `Ancestry.ParentChainIsTheWalk` |
| Ancestry.FindParentChain | jira_automation/main.py:224-233 | the visited-set loop computes the parent chain and terminates even on cycles |
| Ancestry.FirstAncestorSpec | jira_automation/main.py:235-251 | an ancestor search returns a chain index holding a live ticket of the wanted kind, with none before it; it returns `None` exactly when no index of the chain qualifies |
| Ancestry.FirstAncestor | jira_automation/main.py:235-251 | definition of both searches; stated by `Ancestry.FirstAncestorSpec` |
| Ancestry.FindFirstNonSubtaskAncestor | jira_automation/main.py:235-242 | the loop returns the first live non-Subtask index on the chain, skipping indices without a ticket |
| Ancestry.FindEpicAncestor | jira_automation/main.py:244-251 | the loop returns the first live index on the chain whose stripped, lower-cased type is `epic` |
| Executor.Decide | jira_automation/main.py:262-292 | definition; stated by `Executor.LinkageRules` and `Executor.LinkageExclusive` |
| Executor.LinkageRules | jira_automation/main.py:262-292 | the linkage rules. No parent index: sent as is, without keys. A Subtask with a parent index is skipped exactly when it has no non-Subtask ancestor or that ancestor has no key. Under an Epic ancestor it is sent as `Task` with the Epic's key as epic key; otherwise with its own type and the ancestor's key as parent key. Any other ticket with a parent index, Epics included, keeps its type, has no parent key, and takes as epic key the key recorded for the nearest Epic on its chain |
| Executor.LinkageExclusive | jira_automation/main.py:262-292 | a parent key never travels with an epic key, and goes only with a Subtask label; promotion happens exactly for a Subtask with a parent index sent as `Task`, always with an epic key; only a Subtask with a parent index is ever skipped |
| Executor.DetermineLinkage | jira_automation/main.py:262-292 | the loop body's linkage code, with its two ancestor searches and early exits, computes the linkage rules |
| Executor.DescriptionLines | jira_automation/main.py:295-299 | without criteria the description is sent unchanged; otherwise, read line by line, it is the description, an empty line, `Acceptance Criteria:`, one `• ` line per criterion in order, then the empty tail |
| Executor.AppendCriteria | jira_automation/main.py:295-299 | the description loop builds exactly that text, one bullet per criterion |
| Executor.Step | jira_automation/main.py:254-324 | definition of one iteration; stated by `Executor.StepEffects` and `Executor.StepReplyEffects` |
| Executor.Run | jira_automation/main.py:254-326 | definition of the run over the creation order; stated by the `Executor.Exec…` lemmas and tied to the loop by `Executor.CreateTickets` |
| Executor.StepEffects | jira_automation/main.py:254-324 | each iteration first reports `(created + 1, batch size, summary)`; a skip adds only the skip note and leaves keys, records and calls unchanged; a sent ticket adds one call, with the linkage's type and the ticket's summary |
| Executor.StepReplyEffects | jira_automation/main.py:302-324 | a failed call adds the promotion note (if any), then the failure note, and records nothing; a successful call adds the promotion note (if any), records the key under the ticket's index, and appends one record with the ticket's original type, summary, browse URL and index |
| Executor.ExecCounts | jira_automation/main.py:254-326 | after a run: one progress report per ticket; records <= calls <= tickets; failed calls <= notes |
| Executor.ExecProgress | jira_automation/main.py:255-259 | report `i` names the `i`-th ticket of the order and the batch size; it counts the records created before it plus one, so skips and failures do not advance it |
| Executor.ExecCreatedAreReplies | jira_automation/main.py:311-321 | the created records are the successful calls in call order: their keys are exactly the oracle's keys for the calls made, and each URL is the browse URL of its key |
| Executor.ExecKeysFromReplies | jira_automation/main.py:311-314 | every key in `index_to_key` was returned by the oracle to one of the run's calls |
| Executor.ExecLinksFromEarlierReplies | jira_automation/main.py:276-292 | every parent or epic key sent with call `j` was returned by the oracle to a call before `j` |
| Executor.ExecParentLinksOnlySubtasks | jira_automation/main.py:276-292 | across the whole run, a call with a parent key has no epic key and carries a Subtask label |
| Executor.ExecKeysAreRecords | jira_automation/main.py:311-321 | `index_to_key` maps each index to the key of the last record created under it, and holds nothing else |
| Executor.ExecRecordsFromBatch | jira_automation/main.py:311-322 | every record is for a ticket of the order, under its index, with its original type and summary, and that ticket received the record's key |
| Executor.CreateOne | jira_automation/main.py:254-324 | the loop body (progress, linkage, skip note or call, recording of the reply) performs exactly one step of the run |
| Executor.CreateNext | jira_automation/main.py:254-324 | one iteration also writes a created key into its ticket, and keeps the loop invariant: the state is the run over the order so far, and the array holds the written keys |
| Executor.CreateTickets | jira_automation/main.py:204-326 | `create_tickets` returns the records, notes, calls and progress trace of the run over the creation order, and leaves each created ticket holding its key, every other ticket unchanged |
| Scenarios.StoryUnderEpicUsesEpicLink | tests/test_create_tickets.py:13-42 | Epic then Story: the Epic is sent without keys, the Story with the Epic's key as epic key; there are no notes and two records |
| Scenarios.SubtaskSkippedWithoutParent | tests/test_create_tickets.py:44-52 | a Subtask whose parent index names no ticket is skipped with the skip note, and nothing is sent |
| Scenarios.SubtaskUnderEpicPromotedToTask | tests/test_create_tickets.py:54-75 | Epic then Subtask: the Subtask is sent as `Task` with the Epic's key, and the promotion note is logged |
| BatchEdit.Popped | jira_automation/main.py:192 | `pop(idx)` removes exactly that position and keeps the others in order |
| BatchEdit.DeleteTicket | jira_automation/main.py:189-198 | a number outside `1 .. n` changes nothing; otherwise that ticket is removed, the others keep their order and all fields but `index`, and `index` is renumbered to the new position |
| BatchEdit.DeletedParentBecomesSelfLink | jira_automation/main.py:191-195 | parent indices are not renumbered, so deleting the parent of the next ticket leaves that ticket as its own parent, with parent chain `[k]` |
| Ingest.ProcessTickets | jira_automation/llm_analyzer.py:112-128 | same length and order as the input; ticket `i` has index `i`; a missing type, summary, description or criteria list defaults to `Task`, `Untitled`, `""`, `[]`; present values, and the parent index (dangling or not), are copied; the key is unset; the engine's index table of the result maps each `i` to ticket `i` and has no other key |
| Ingest.ProcessIdempotent | jira_automation/llm_analyzer.py:116-125 | a processed batch, fed back with every field present, comes out unchanged |
| Ingest.Prefix | jira_automation/llm_analyzer.py:175-176 | `s[:n]` is a prefix of `s` of length `min(|s|, n)` |
| Ingest.Get | jira_automation/llm_analyzer.py:174-175 | `get(key, default)` gives the default only for a missing key, `None` for an explicit `null`, and the value otherwise |
| Ingest.TaskFromReply | jira_automation/llm_analyzer.py:169-179 | there is a task exactly when there is a usable reply whose summary is not `null` (slicing `None` raises, and the handler returns `None`). The summary is a prefix of at most 255 characters of the reply's summary, or of `Email inquiry` when the key is missing. A present description is kept and a `null` one stays `None`; a missing one is the first 2000 characters of the body |
| JiraApi.NormalizeIssueType | jira_automation/jira_client.py:168-176 | exactly `Sub-task`, `Sub task`, `subtask` and `sub-task` change, and they become `Subtask`; every other label is returned unchanged |
| JiraApi.NormalizeIdempotent | jira_automation/jira_client.py:168-176 | normalising twice is normalising once |
| JiraApi.NormalizeKeepsSubtaskTest | jira_automation/jira_client.py:168-176 | normalisation never changes whether the engine treats a label as a Subtask |
| JiraApi.Paragraphs | jira_automation/jira_client.py:204-221 | definition; stated by `JiraApi.ParagraphsShape` and `JiraApi.ParagraphsRoundTrip` |
| JiraApi.ParagraphsShape | jira_automation/jira_client.py:204-221 | one paragraph per `\n`-separated line, in order, never none; a whitespace-only line gives empty content, any other line a single text node holding it verbatim |
| JiraApi.ParagraphsRoundTrip | jira_automation/jira_client.py:204-221 | when every whitespace-only line is empty, joining the paragraph texts with `\n` gives the description back |
| JiraApi.FormatDescription | jira_automation/jira_client.py:204-221 | the paragraph loop computes those paragraphs |
| JiraApi.IssueFields | jira_automation/jira_client.py:119-141 | definition; stated by `JiraApi.IssueFieldsRules` |
| JiraApi.IssueFieldsRules | jira_automation/jira_client.py:119-141 | project, summary, description paragraphs and normalised type are always sent. `parent` is present exactly when there is a non-empty parent key, or a non-empty epic key with no known epic-link field; the parent key wins. A non-empty epic key goes into the epic-link field when one is known. No other field is sent |
| JiraApi.JiraClient.BuildIssueFields | jira_automation/jira_client.py:119-141 | the in-place filling of the payload gives those fields; the epic-link lookup is made only for a non-empty epic key |
| JiraApi.FirstSetSpec | jira_automation/jira_client.py:196-199 | the search finds the first set flag, and `None` exactly when none is set |
| JiraApi.EpicLinkPositionSpec | jira_automation/jira_client.py:196-202 | the epic-link field is the first field whose trimmed, lower-cased name is `epic link`, and there is none exactly when no field has that name |
| JiraApi.JiraClient.GetEpicLinkFieldId | jira_automation/jira_client.py:178-202 | a cached id is returned as is, without a lookup; otherwise the id of the first epic-link field, or `None` when the fetch failed or no field matched, is returned and cached |
| JiraApi.JiraClient.constructor | jira_automation/jira_client.py:19-23 | the base URL is the configured URL without its trailing slashes, and nothing is cached yet |
| JiraApi.JiraClient.IssueUrl | jira_automation/jira_client.py:223-225 | the issue URL is the base URL, `/browse/` and then the key |
| JiraApi.BrowseUrlKey | jira_automation/jira_client.py:223-225 | the key can be read back from its URL, so different keys get different URLs |
| JiraApi.ProjectEntriesShape | jira_automation/jira_client.py:62-68 | every project becomes one entry, in order |
| JiraApi.BoardEntriesShape | jira_automation/jira_client.py:70-78 | exactly the boards with a non-empty project key become entries, named with ` (Board)`, in board order: entry `i` comes from the `i`-th such board, at ascending positions |
| JiraApi.Dedup | jira_automation/jira_client.py:80-86 | definition; stated by `JiraApi.DedupKeys`, `JiraApi.DedupKeepsFirst`, `JiraApi.DedupPrefix` and `JiraApi.DistinctKeysDedup` |
| JiraApi.DedupKeys | jira_automation/jira_client.py:80-86 | the de-duplicated list has each key once, and keeps exactly the keys of its input |
| JiraApi.DedupKeepsFirst | jira_automation/jira_client.py:80-86 | every kept entry is the first entry of the input with its key |
| JiraApi.DedupPrefix | jira_automation/jira_client.py:80-86 | de-duplicating a longer list only adds entries at the end |
| JiraApi.DistinctKeysDedup | jira_automation/jira_client.py:80-86 | a list whose keys are already distinct is left as it is |
| JiraApi.ProjectsComeFirst | jira_automation/jira_client.py:61-88 | with distinct project keys, the merged list starts with all the projects, in order |
| JiraApi.MergeProjects | jira_automation/jira_client.py:61-88 | the merge loops build the projects, then the boards with a project key, de-duplicated by key |
| JiraApi.DedupByKey | jira_automation/jira_client.py:80-88 | the `seen`-set loop keeps the first entry per key |
| ConsoleUi.Requirements | jira_automation/console_ui.py:98-140 | definition; stated by `ConsoleUi.FirstEndIs`, `ConsoleUi.KeptAreNonBlank`, `ConsoleUi.KeptLinesRecovered`, `ConsoleUi.EndOfFileKeepsAll` and the three test lemmas |
| ConsoleUi.GetRequirements | jira_automation/console_ui.py:98-140 | the reading loop returns `""` on an interrupt. Otherwise it returns the non-blank lines before the first terminator (`/done` in any case and spacing, or a second blank line in a row), or before end of file, joined by line breaks |
| ConsoleUi.FirstEndIs | jira_automation/console_ui.py:102-125 | reading stops at the first event that ends input |
| ConsoleUi.KeptAreNonBlank | jira_automation/console_ui.py:113-121 | blank lines are never kept |
| ConsoleUi.KeptLinesRecovered | jira_automation/console_ui.py:132 | when the kept lines hold no line break, splitting the result at line breaks gives the kept lines back |
| ConsoleUi.EndOfFileKeepsAll | jira_automation/console_ui.py:123-125 | with no terminator, end of file returns all non-blank lines |
| ConsoleUi.SingleBlankLineInContent | tests/test_console_ui.py:24-26 | `line one`, blank, `line two`, `/done` reads as `line one\nline two` |
| ConsoleUi.FinishesOnDone | tests/test_console_ui.py:28-30 | `update backend`, `/done` reads as `update backend` |
| ConsoleUi.TwoBlankLinesEndEmpty | tests/test_console_ui.py:32-34 | two blank lines read as `""` |
| ConsoleUi.EditTicket | jira_automation/console_ui.py:181-202 | only summary, description and criteria change. An empty criteria answer keeps the old criteria; any other answer replaces them with its parsed entries |
| ConsoleUi.ParseCriteria | jira_automation/console_ui.py:195 | definition; stated by `ConsoleUi.ParseCriteriaClean`, `ConsoleUi.ParseCriteriaRoundTrip` and `ConsoleUi.BlankAnswerClearsCriteria` |
| ConsoleUi.ParseCriteriaClean | jira_automation/console_ui.py:195 | parsed criteria are non-empty, already stripped, and hold no comma |
| ConsoleUi.ParseCriteriaRoundTrip | jira_automation/console_ui.py:195 | clean criteria written comma-separated parse back to themselves |
| ConsoleUi.BlankAnswerClearsCriteria | jira_automation/console_ui.py:194-195 | a non-empty answer made only of commas and whitespace, such as `", ,"`, clears the criteria |
| WebForm.DescribeTicket | streamlit_app.py:180-187 | the label is `type - summary`, extended by ` (Parent: …)` exactly when the parent index is in range and that parent's summary is non-empty |
| WebForm.TicketsTable | streamlit_app.py:200-214 | one row per ticket, in order, with type and summary; the parent's summary, or `""` when the parent index is missing or out of range |
| WebForm.LabelAgreesWithTable | streamlit_app.py:180-214 | a ticket's label names a parent exactly when its table row shows one, and then it is the same summary |
| WebForm.BuildParentOptions | streamlit_app.py:190-197 | `None` first; then every position but the current one, in ascending order, each once, labelled `{idx+1}. {type} - {summary}` |
| WebForm.OptionLabelNumber | streamlit_app.py:195 | an option label starts with the one-based position number |
| WebForm.OptionLabelInjective | streamlit_app.py:195 | two positions with the same option label are the same position, and no position is labelled `None` |
| WebForm.ParentOptionLabelsDistinct | streamlit_app.py:400-410 | the drop-down labels are pairwise different, so selecting an entry by its label finds that entry's position |
| WebForm.PillClass | streamlit_app.py:217-225 | `pill-epic`, `pill-story` and `pill-subtask` each appear exactly when the stripped, lower-cased type is `epic`, `story` or `subtask`; everything else, a missing type included, gets `pill-task` |
| WebForm.EpicPillIsEpicType | streamlit_app.py:217-220 | the Epic badge appears exactly for the labels the engine treats as Epics |
| WebForm.SubtaskPillIsSubtaskType | streamlit_app.py:217-225 | the Subtask badge appears only for labels the engine treats as Subtasks |
| WebForm.HyphenSubtaskGetsTaskPill | streamlit_app.py:217-225 | `Sub-task` is a Subtask to the engine but gets the Task badge |
| WebForm.SplitLinesJoin | streamlit_app.py:391-398 | lines without line boundaries, joined by `\n`, split back into themselves |
| WebForm.CriteriaFromText | streamlit_app.py:398 | definition; stated by `WebForm.CriteriaFromTextClean` and `WebForm.CriteriaTextRoundTrip` |
| WebForm.CriteriaFromTextClean | streamlit_app.py:398 | every criterion read from the text box is non-empty, stripped, and free of line boundaries |
| WebForm.CriteriaTextRoundTrip | streamlit_app.py:391-398 | clean criteria shown one per line are read back unchanged |
| WebForm.CreateDisabled | streamlit_app.py:418-424 | definition of the button rule; stated by the four lemmas below |
| WebForm.Apply | streamlit_app.py:334-434 | definition of the session after a press of Analyze, Clear or Create; stated by the four lemmas below |
| WebForm.AnalysisEnablesCreate | streamlit_app.py:334-424 | right after analysing non-blank requirements, the button is enabled exactly when the box is ticked and tickets came back, for any text that strips to the analysed one |
| WebForm.CreateUsesAnalysedRequirements | streamlit_app.py:418-434 | a creation only happens with the box ticked, a non-empty batch, and requirements that strip to the last analysed ones |
| WebForm.CreatedUntilNewDraft | streamlit_app.py:418-434 | once a batch is created, no sequence of presses that neither clears nor analyses non-blank requirements enables the button again, whatever is typed or ticked |
| WebForm.NoCreateBeforeAnalysis | streamlit_app.py:249-434 | from a fresh page, presses without an analysis of non-blank requirements leave the session as it started, so nothing is created |
| Text.StripSpec | jira_automation/main.py:221 | `strip()` leaves a contiguous slice of its argument that neither starts nor ends with whitespace, and everything dropped before and after it is whitespace |
| Text.StripIdempotent | jira_automation/main.py:221 | stripping twice is stripping once |
| Text.RemoveAllSpec | jira_automation/main.py:221 | `replace(c, "")` leaves no `c`, and changes nothing when there is none |
| Text.RStripChar | jira_automation/jira_client.py:21 | `rstrip('/')` drops exactly the trailing run of `/`: the result is a prefix, what is dropped is all `/`, and the result does not end in `/` |
| Text.JoinSplit | jira_automation/jira_client.py:206 | splitting at `\n` and joining back gives the text back |
| Text.SplitJoin | jira_automation/console_ui.py:132 | joining separator-free pieces and splitting again gives the pieces back |
| Text.NatToStringValue | streamlit_app.py:195 | reading back the digits of `str(n)` gives `n` |

## Left out

- HTTP: all requests of the Jira client are left out (connection test, project and board lists, field list, issue creation). Their replies are parameters: the project and board lists, the fetched field list (`None` for a failed fetch), and the Issue Creator's replies.
- The language model: the requests of the analyser, and its prompts, are left out. `_process_tickets` starts from the parsed JSON answer, and the e-mail post-processing from the parsed reply. A missing answer, an empty answer and a JSON error all map to "no reply".
- Configuration, credentials, `.env` handling, the webhook server and the project-selection prompts are left out. They are I/O around the core.
- Rendering is left out: the Rich panels and tables, the Streamlit widgets and theme, and the verbose `print` output. The preview's unchecked parent lookup is part of the left-out preview.
- The input loop of the review step is left out, except its delete branch. The number typed is taken as an `int`; a `ValueError` from parsing it is an input error outside the model.
- `Prompt.ask` defaults: `EditTicket` receives the three answers already resolved, so an empty reply to a prompt is passed as its default.
- `line_count` in `get_requirements`: it is only printed, so it is not modelled.
- `Text.Lower`: lower-cases ASCII letters only. Python's `lower()` also folds non-ASCII letters, and U+212A KELVIN SIGN becomes the ASCII `k`. So a label or field name holding that sign is classified differently: `SUBTAS` followed by U+212A passes the source's Subtask test but not `Tickets.IsSubtaskType`, and a field named `Epic Lin` followed by U+212A is the source's epic-link field but fails `JiraApi.IsEpicLinkName`.
- JSON values of the wrong type, such as a number for a summary, are not modelled.
- `Ingest.ProcessTickets`: an explicit `null` for the type, summary, description or criteria of a proposed ticket is not modelled. `get` returns `None` for it rather than the default, so the source's batch would hold `None` there (a `null` type later fails at `.strip()` in main.py:221); the model's raw ticket cannot hold a `null` for these fields, whose `None` means a missing key, and its tickets hold plain strings. A `null` parent index is modelled: it is `None` in the source too.
- Indices are integers. Keys, ids and board project keys are strings.
- The JSON object built by `create_issue` is a `map<string, FieldValue>`, so insertion order is not modelled.
- `JiraApi.IssueFieldsRules`: requires that the epic-link field id is none of the five fixed field names. The source would overwrite such a field; Jira's epic-link ids have the form `customfield_…`.
- `JiraApi.FormatDescription`: the fallback for an empty paragraph list is unreachable, because `split('\n')` always yields at least one line. The model proves the list is never empty (`JiraApi.ParagraphsShape`) instead of modelling the fallback.
- `WebForm.SplitLines`: models Python's `splitlines()` up to extra empty pieces (inside `\r\n`, after a final boundary, and for `""`). The criteria parse drops blank pieces, so `WebForm.CriteriaFromText` equals the source's result.
- `WebForm.SplitLinesJoin`: stated for lines without any line boundary. `splitlines()` also splits at `\r`, `\v`, `\f`, `\x1c`–`\x1e`, `\x85`, U+2028 and U+2029, so criteria holding one of those do not round-trip.
- `Executor.CreateTickets`: tickets are an array whose `key` field is written in place. The aliasing between `sorted_tickets` and the caller's list is modelled through this array, not through shared dictionaries.
- `Executor.Run`: each reply of the Issue Creator is a key or a failure. A truthy reply without a `key` entry raises `KeyError` at main.py:311 and ends the batch; the model assumes every truthy reply carries a key, and an empty reply `{}` is a failure, as in the source.
- `WebForm.Apply`: a creation that raises leaves `creating` set in the source, greying out every button; exceptions are not modelled, so no press sets it. The other session fields (`created_tickets`, `create_errors`, the batch itself) are not part of `Session`.
- `Executor.ExecCounts`: states bounds on the counts, not exact values. The exact contents follow from `Executor.StepEffects` and `Executor.StepReplyEffects`.
