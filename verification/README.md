# Phonton CLI: a verified model

This Dafny project models the parts of the Phonton command line and terminal interface that are protocols, parsers and
arithmetic, and proves what they promise. `dafny verify dfyconfig.toml` checks all of it.

- **Runs** (`RunEvidence`, `RunDirectory`, `RunLifecycle`, `RunListing`, `RecentRuns`). A local run leaves files behind:
  an attempt marker, receipt snapshots, check reservations, and one of two end files. A crash can fall after any write.
  `RunLifecycle` runs admission, worker, end and crash steps in any order over a file map and says what any reader
  concludes; `RunDirectory` holds the writers and the reader as methods that change files and receipts in place.
  `RunListing` is the bounded list over two roots and its agreement with reopening.
- **Token reserve** (`TokenReserve`). The budget raising for reviewed plans and the halving loop behind its warnings.
- **Consent** (`Approval`, `ApprovalSafety`, `KeyLaws`, `ApprovalLoop`, `ApprovalFailures`). Plan prompts, MCP prompts
  and the host-check question, with two maps of one-shot replies, goal deletion, mode changes and quitting interleaved.
  `ApprovalSafety` proves the laws of the functions in `Approval` over every event sequence; `KeyLaws` says what a key
  does to each part of the app, whatever handler it reaches; `ApprovalLoop` is the mutable machine, whose methods keep
  those laws as their contracts; `ApprovalFailures` exhibits the runs that fall short.
- **Printers and parsers** (`CommandLine`, `WordSplitter`, `UnifiedDiff`, `DiffRoundTrip`, `DiffReader`, `Mentions`,
  `TreeDigest`). Each printer is paired with what reads it: a decoder, the other splitter, the separate diff counter, a
  reader of the unified format, the other scanner, the installer's own digest.
- **Grouping, wrapping, packing** (`HunkGrouping`, `Wrapping`, `AskPacking`).

Functions without `ghost` and all methods are executable; loops of the source are loops here, proved against a recursive
specification, and the laws are lemmas about that specification.

## Assumptions about code outside the model

- The worker. `RunLifecycle.WorkerReceipt` says a snapshot carries the id, goal and model of its attempt
  (`phonton-worker/src/local_run.rs:479-488`), selects a candidate only beside `finalizing`, `review_ready` or
  `review_unverified`, and that its counter does not exceed the reservations; `WorkerResult` says a returned result selects
  only beside the two review states. The selection rule is what `phonton-worker/src/local_run.rs:1510-1514` does: the
  selection is stored together with `finalizing`. `SnapshotSelectionExactly` says what would hold without it: a snapshot left in
  `awaiting_existing_edit`, which recovery does not count as unfinished, could carry a selection to a dead reader.
- Validation of a saved review, hashing, UUID parsing and character widths are arbitrary functions; one from
  contents to hexadecimal digests stands for SHA-256.
- MCP approval ids are never repeated: they come from one atomic counter (`phonton-cli/src/main.rs:4493`). Goal ids are
  random UUIDs in the program and a counter here, so the model assumes that no two of them are equal.
- The input thread drops key releases (`phonton-cli/src/main.rs:6712`), so only presses and repeats reach the handlers. The
  model lets releases through as well: it covers more runs than the program has.

## Where the code falls short of a simple promise

Each of these is a lemma with the exact condition, a concrete input, or both.

- A recorded end does hide a selection from a dead reader, but `show` reads as live whenever neither end file exists. If
  the write of `record_end` is lost while the last snapshot was finalizing with a selection, `show` reports that selection
  (`ShowAfterLostRecord`, `ShowCanSelectAfterLostRecord`). Apply is not affected (`ApplyOnlyAfterCompletion`).
- The list reads a run directory under the name found on disk, and reopening uses the canonical id. A directory named by
  another spelling of the same UUID can be offered and fail to reopen (`OfferedDirectory`,
  `UncanonicalDirectoryMisleads`).
- A clarified goal is requeued under the id of the first goal in the list, not its own
  (`ClarifiedGoalKeepsItsIdExactly`, `ClarifiedGoalCanLoseItsId`). A task held for the host-check question
  runs as a goal when the screen is in Settings by the time the question is answered, as after pasting an API key, and
  nothing else loses its mode (`DirectFlagExactly`, `HeldTaskCanLoseItsMode`).
- An MCP request is approved by Enter or Y with any modifier, and by a repeat as well as a press: an Enter held down while
  the request appears approves it. Only plans ask for a plain press (`McpAcceptsWhatPlansRefuse`, `HeldEnterApproves`).
- The diff counter trusts any line that begins with `+++ `. The counts come back when no second or later goal line names a
  file this way, no added text begins with `++ `, no removed text begins with `--`, and no path begins with `b/`, is
  `/dev/null`, holds a line feed or ends in a carriage return (`DiffReadsBack`). For a one-line goal, and for any goal over
  such paths, they come back only then (`DiffReadsBackExactly`). Elsewhere two faults can cancel (`FaultsCanCancel`).
- The two groupings differ when a path holds a backslash or one file is spelled in two ways, such as `a/b` and `a//b`:
  the list compares paths by components, the map by text (`GroupingsAgreeExactly`,
  `GroupingsCanDiffer`).
- The scanners trim different punctuation: a mention that ends in a colon names two different targets
  (`ScannersAgreeExactly`, `ScannersCanDiffer`).
- The context scanner writes a bare mention down from its trimmed target. When trimming brings a quote or bracket to the
  front, what is written down names something else (`RawReadsBackExactly`, `RawCanMislead`).
- A context that overshoots its budget can push the end of the question out of the prompt although room was reserved for
  it (`QuestionSurvivesExactly`), and this can happen to every such question (`OvershootCutsQuestion`, `NoQuestionIsSafe`).
- The bytes of a runtime tree read back exactly when no name holds a NUL and no value a line feed
  (`TreeReadsBackExactly`). Two different trees can have the same bytes: a link target that holds a line feed can lend its
  end to the next name (`LineFeedHidesEntry`). The installer disagrees with the script exactly when a path holds a
  backslash or the archive ships `.archive-sha256` or `.phonton-stage` at its root (`DigestsAgreeExactly`,
  `DigestsCanDiffer`).

## Model

| member | source | states |
|---|---|---|
| RunDirectory.SavedReceipt.CountReservations | phonton-cli/src/local_goal_cli.rs:1208-1212 | the counter becomes the largest of itself and the numbers of the reservation files within the budget (`DurableChecksIsMaximum` says what that function is) |
| RunDirectory.SavedReceipt.Recover | phonton-cli/src/local_goal_cli.rs:1188-1214 | repairs a receipt in place, by literal states (`ReadAs`): of a dead run, `baseline`, `finalizing`, anything `generating_`, `hypothesizing_` or `verifying_`, and a review claim outside end.json become interrupted, unselected, with every reserved check counted and a gap exactly for `verifying_`; a live review claim outside end.json becomes finalizing without a selection; any other receipt stays |
| RunDirectory.SavedReceipt.Revalidate | phonton-cli/src/local_goal_cli.rs:1180-1186 | a selection that no longer validates is withdrawn with the reason, as stated field by field; nothing else changes |
| RunDirectory.SavedReceipt.End | phonton-cli/src/local_goal_cli.rs:773-795 | the whole receipt `record_end` writes: failed or interrupted, no selection, the message and then the gap of an unfinished verification, the larger time, every reserved check |
| RunDirectory.RunFolder.BeginAttempt | phonton-cli/src/local_goal_cli.rs:710-746 | admits exactly when the id has no evidence of any kind and the run root lies outside the repository; then it adds only the attempt marker, and the recent-run index gets the run unless that save fails, which stops nothing |
| RunDirectory.RunFolder.RecordEnd | phonton-cli/src/local_goal_cli.rs:765-809 | writes the ended receipt over the last readable snapshot, or without one the attempt under `interrupted_before_receipt` or `ended_before_receipt` with the message; a failed write changes no file and is not reported |
| RunDirectory.RunFolder.ReadSaved | phonton-cli/src/local_goal_cli.rs:1145-1170 | end.json outranks interruption.json, which outranks receipt.json, which outranks the attempt files; the receipt believed is read as the literal states say, and only end.json is revalidated |
| RunEvidence.DurableChecksIsMaximum | phonton-cli/src/local_goal_cli.rs:788-794 | the recovered counter is at least the saved one and every reservation within the budget, and is one of them |
| RunEvidence.RecoveryIsClosure | phonton-cli/src/local_goal_cli.rs:1188-1214 | recovering twice is recovering once; a live recovery before or after a dead one, even over other files, changes nothing |
| RunEvidence.ReceiptReadsExactly | phonton-cli/src/local_goal_cli.rs:1145-1214 | for any files: the receipt of the highest rank is read as its literal state says, dead or live, and an unreadable one is an error |
| RunEvidence.AttemptReadsExactly | phonton-cli/src/local_goal_cli.rs:748-764 | without a receipt the ended attempt is read, else the marker; one still started, of a dead run, reads as interrupted before a receipt |
| RunLifecycle.StepKeepsInv | phonton-cli/src/local_goal_cli.rs:1527-1562 | admission, snapshots, reservations, results, ends and crashes all keep the evidence invariant: end.json holds the completed result or an unselected record, reservations are numbered without holes, no counter exceeds them |
| RunLifecycle.ReachableInv | phonton-cli/src/local_goal_cli.rs:1527-1562 | that invariant after every interleaving, crashes after any write included |
| RunLifecycle.ApplyOnlyAfterCompletion | phonton-cli/src/local_goal_cli.rs:1145-1186 | for any reader, live or dead, after any interleaving: the receipt meets the demand of Apply if and only if end.json was written from a completed review-ready result selecting that candidate and it still validates |
| RunLifecycle.SelectionExactly | phonton-cli/src/local_goal_cli.rs:1145-1214 | a reader sees a selection if and only if such a completed result stands, or it reads as live a provisional finalizing snapshot that selects |
| RunLifecycle.SnapshotSelectionExactly | phonton-cli/src/local_goal_cli.rs:1194-1207 | without any assumption on the worker: a snapshot left without an end shows its selection to a dead reader if and only if its state is neither a review nor unfinished |
| RunLifecycle.AwaitingEditIsNotUnfinished | phonton-cli/src/local_goal_cli.rs:1198-1201 | `awaiting_existing_edit` is such a state, so the stated assumption on the worker is needed |
| RunLifecycle.RecordedEndNeverSelects | phonton-cli/src/local_goal_cli.rs:765-809 | a run ended by `record_end` selects nothing for a dead reader, even when its own write was lost |
| RunLifecycle.ShowAfterLostRecord | phonton-cli/src/local_goal_cli.rs:1328-1334 | after a lost `record_end`, `show` still reports a selection if and only if the last snapshot was finalizing with one |
| RunLifecycle.ShowCanSelectAfterLostRecord | phonton-cli/src/local_goal_cli.rs:1328-1334 | such a run exists, so "never selects after record_end" is false of `show` |
| RunLifecycle.DeadReadCountsEveryReservation | phonton-cli/src/local_goal_cli.rs:1202-1213 | once dead, an unfinished receipt or a recorded end counts every check slot reserved before the crash |
| RunLifecycle.RecordAgreesWithRecovery | phonton-cli/src/local_goal_cli.rs:777-795 | from any snapshot recovery would repair, review claims included, `record_end` counts what recovery would have counted, and recovery leaves its record alone |
| RunLifecycle.AdmittedRunReadsBack | phonton-cli/src/local_goal_cli.rs:1145-1170 | after every interleaving an admitted run reads back, live or dead, under the id, goal and model it was admitted with |
| RunLifecycle.AdmittedOnce | phonton-cli/src/local_goal_cli.rs:717-719 | once an id left any file, a later admission of it is refused and changes nothing |
| RunLifecycle.RunWithoutReceiptReads | phonton-cli/src/local_goal_cli.rs:748-808 | after every interleaving, a run that left neither receipt nor record reads back dead as interrupted, and one recorded without a receipt as its record says |
| RunListing.ScanRoot | phonton-cli/src/local_goal_cli.rs:303-355 | gathers candidates of one root in directory order under both limits; without truncation it gathers all of them |
| RunListing.GatherCandidates | phonton-cli/src/local_goal_cli.rs:296-359 | both roots, the chosen one first, a shared root once |
| RunListing.KeepIndexed | phonton-cli/src/local_goal_cli.rs:266-278 | index entries with canonical ids and evidence in exactly one root, each id once, none of the first twelve missed |
| RunListing.ReadCandidates | phonton-cli/src/local_goal_cli.rs:361-440 | the fallback loop: each added run is offered by a candidate at least as new as every omitted good one; read limits hold; without truncation every good candidate is listed |
| RunListing.NewestKeeps | phonton-cli/src/local_goal_cli.rs:441-447 | sorting and cutting keeps ids distinct and drops nothing newer than what it keeps |
| RunListing.ListSavedRuns | phonton-cli/src/local_goal_cli.rs:258-452 | the list: at most twelve, distinct ids, later times first and the larger id first among equal times; every entry is a visible index entry or was offered by the scan, and then no good scanned candidate that is left out and not in the index is newer; if not `limited`, every good candidate of both roots and every visible index entry is listed; if `limited`, some bound was reached |
| RunListing.CandidatesExactly | phonton-cli/src/local_goal_cli.rs:296-359 | the candidates are the small markers and receipt files of both roots under names that parse, and a shared root counts once |
| RunListing.OffersExactly | phonton-cli/src/local_goal_cli.rs:361-440 | a candidate offers the receipt in its own directory, or, where no receipt was saved, the attempt in the canonical one: read dead, not validated, under its own id |
| RunListing.AdvertisedExactly | phonton-cli/src/local_goal_cli.rs:361-375 | a candidate of the chosen root is passed over if and only if the legacy root holds its run |
| RunListing.IndexVisibleExactly | phonton-cli/src/local_goal_cli.rs:266-278 | an index entry is listed if and only if its id is canonical and exactly one root holds its run |
| RunListing.ReopensExactly | phonton-cli/src/local_goal_cli.rs:160-186 | a run is reopened from the legacy root where that holds it, else from the chosen one, validated again, and only under the id asked for |
| RunListing.OfferedDirectory | phonton-cli/src/local_goal_cli.rs:166-173 | a fallback entry was read from the directory reopening picks for its id if and only if its directory name is canonical (markers always are) |
| RunListing.OfferedReopens | phonton-cli/src/local_goal_cli.rs:179-186 | then reopening succeeds and shows the advertised goal and model |
| RunListing.IndexEntryReopensExactly | phonton-cli/src/local_goal_cli.rs:268-278 | for a visible index entry over the files of an admitted run: no other root has evidence, and reopening shows the entry if and only if the admission marker bears its id, goal and model |
| RunListing.UncanonicalDirectoryMisleads | phonton-cli/src/local_goal_cli.rs:331-350 | a directory whose name only parses to the id can be listed and then fail to reopen |
| RecentRuns.IndexFile.Save | phonton-cli/src/local_goal_cli.rs:225-252 | one save moves the run to the front and cuts to twelve; an unreadable index counts as empty |
| RecentRuns.IndexIsLastTwelve | phonton-cli/src/local_goal_cli.rs:225-252 | after any saves the index is the latest save of each of the last twelve distinct ids, most recent first, without duplicates |
| TokenReserve.MinimumEditAllocationsFit | phonton-cli/src/local_goal_cli.rs:894-913 | the halving loop answers whether the outputs it would hand out are all at least 128 |
| TokenReserve.FitsExactly | phonton-cli/src/local_goal_cli.rs:894-913 | true if and only if calls cover the paths and, with paths to edit, the per-call limit is at least 128 and the reserve at least `Need`, a closed recursion over calls and paths |
| TokenReserve.FitsIsOrdered | phonton-cli/src/local_goal_cli.rs:894-913 | monotone in tokens, antitone in the per-call limit above 128; all spare call counts answer alike and imply the answer without spares |
| TokenReserve.OutputsAreAllocations | phonton-cli/src/local_goal_cli.rs:900-911 | the outputs are one per path, each at most the per-call limit, summing to at most the reserve |
| TokenReserve.FullReserveIsNeverHalved | phonton-cli/src/local_goal_cli.rs:900-911 | a reserve of one full allowance per call gives every edit its full allowance |
| TokenReserve.LocalPlan.AdjustReviewedPlanBudget | phonton-cli/src/local_goal_cli.rs:811-892 | the plan in place: which budgets are raised to what, and which warnings are appended, for explicit and implicit budgets and every protocol; the next four rows say what those functions are |
| TokenReserve.RaisedBudgetExactly | phonton-cli/src/local_goal_cli.rs:857-869 | a budget is raised as little as gives one call for every path, a baseline and a check run for every call and a full allowance for every call, and never past the caps of 8, 32 and 16,384 |
| TokenReserve.ExplicitWarningsExactly | phonton-cli/src/local_goal_cli.rs:826-855 | a budget the user gave is commented on, in this order, exactly for too few calls, too few check slots, and tokens below `Need` |
| TokenReserve.RaisedWarningsExactly | phonton-cli/src/local_goal_cli.rs:870-890 | a raised budget is commented on exactly when calls were added, when the checks pass their cap, and for more than eight paths or under 128 tokens per call, or else when the tokens pass their cap |
| TokenReserve.CountsExactly | phonton-cli/src/local_goal_cli.rs:816-825 | the paths to edit are the existing files, and the new one if there is one, modulo 2^32; each candidate is checked by every check and the preparation; a call may ask for the most that keeps to the output limit and a quarter of the context |
| TokenReserve.RaisedBudgetFitsExactly | phonton-cli/src/local_goal_cli.rs:861-889 | whatever the budget was, the raised one passes the test if and only if there are at most eight paths and at least 128 tokens per call |
| TokenReserve.BelowCapIsFull | phonton-cli/src/local_goal_cli.rs:865-866 | below the token cap every path gets its full allowance |
| TokenReserve.CapsMeet | phonton-cli/src/local_goal_cli.rs:863-866 | eight paths need at most the 16,384 cap, and exactly it once a call may use half of it |
| ApprovalLoop.AppState.HandleKey | phonton-cli/src/main.rs:855-1055 | while a prompt waits no key reaches the goals, the mode or the host answer; a goal is queued only after the host answer; Ctrl+Y and nothing else applies a candidate, that of the selected goal, and changes nothing; every part of the app changes as the laws of `KeyLaws` say |
| ApprovalLoop.AppState.HandlePlanKey | phonton-cli/src/main.rs:856-865 | an answering key removes and resolves the oldest plan, with yes only for a plain Y press; any other key leaves every plan and changes nothing else |
| ApprovalLoop.AppState.ResolveSelectedMcpApproval | phonton-cli/src/main.rs:833-848 | the request under the clamped cursor leaves the queue and is resolved, and the cursor is clamped to what remains |
| ApprovalLoop.AppState.HandleMcpApprovalKey | phonton-cli/src/main.rs:1161-1185 | an answering key removes and resolves the selected request, with yes for Enter and Y; any other key leaves every request; the cursor stays on one, and goals, mode and host answer are untouched |
| ApprovalLoop.AppState.HandleHostChecksKey | phonton-cli/src/main.rs:581-598 | Y, Enter and N, and no other key, answer the question and queue the held goal in front; Esc drops it; otherwise nothing changes |
| ApprovalLoop.AppState.DeleteSelectedGoal | phonton-cli/src/main.rs:612-619 | exactly the selected goal goes, the others keep their order, the selection stays valid, and nothing else changes |
| ApprovalLoop.AppState.Submit | phonton-cli/src/main.rs:1491-1533 | a goal is queued only when the host question was answered; before that it is held and the list stays as it is; the answer itself is never touched |
| ApprovalLoop.EventLoop.OnPlanRequested | phonton-cli/src/main.rs:7357-7366 | a plan is shown if and only if its goal is listed and no plan of that goal waits; else its request is answered no at once |
| ApprovalLoop.EventLoop.OnMcpRequested | phonton-cli/src/main.rs:7367-7370 | the newest request waits behind the others with the cursor on it, and a new id answers nobody |
| ApprovalLoop.EventLoop.FirstWithId | phonton-cli/src/main.rs:7297-7301 | a state update reaches only the first goal with the id |
| ApprovalLoop.EventLoop.constructor | phonton-cli/src/main.rs:6795-6813 | a fresh program satisfies the loop invariant |
| ApprovalLoop.EventLoop.Turn | phonton-cli/src/main.rs:6807-7413 | one pass keeps the loop invariant, revises no answer, and gives a yes or a no exactly by the rules of `YesComesFromTheKey` and `NoComesFromExactly` |
| ApprovalLoop.EventLoop.RunApp | phonton-cli/src/main.rs:6807-7413 | after any events prompts and replies match, every waiting plan has its goal, every spawn carries the host answer, and no answer given was revised |
| ApprovalSafety.PlanPromptIsModal | phonton-cli/src/main.rs:856-865 | while a plan waits a key changes nothing but that plan: no deletion, quit or mode change gets past it |
| ApprovalSafety.McpPromptIsModal | phonton-cli/src/main.rs:866-868 | while an MCP request waits a key only moves the cursor, asks to quit or resolves the selected request |
| ApprovalSafety.KeyPutsPromptsFirst | phonton-cli/src/main.rs:855-871 | for every key and state with consent in order: waiting prompts shield goals, mode and host answer, no key makes a prompt, and consent stays in order |
| ApprovalSafety.StepKeepsInv | phonton-cli/src/main.rs:6807-7413 | every event keeps prompts and replies matched, requests counted once, consent ordered and goal ids fresh |
| ApprovalSafety.PromptsMatchReplies | phonton-cli/src/main.rs:6807-6813 | at every loop head pending plans have distinct ids, equal to the reply keys, each of a goal still listed; pending MCP prompts match theirs and the cursor is on one |
| ApprovalSafety.PlanKeyKeeps | phonton-cli/src/main.rs:6922-6928 | the listed-goal guard never turns a Y into a refusal: when a plan is decided its reply waits and its goal is listed |
| ApprovalSafety.RequestsAreConserved | phonton-cli/src/main.rs:7357-7370 | every request ever made is waiting in exactly one map or answered, never both; after the loop all are answered |
| ApprovalSafety.YesComesFromTheKey | phonton-cli/src/local_plan_approval.rs:123-163 | a request hears yes if and only if an approving key meets its own prompt in front; no answer is ever revised |
| ApprovalSafety.NoComesFromExactly | phonton-cli/src/main.rs:6821-6941 | a request hears no if and only if a denying key meets its own prompt, its plan is refused on arrival, or the loop ends while it waits |
| ApprovalSafety.EveryYesHasItsKey | phonton-cli/src/main.rs:6807-7413 | over a whole run every yes was given by its own key at some moment |
| ApprovalSafety.ConsentBeforeWork | phonton-cli/src/main.rs:1072-1136 | over every run a non-empty goal list and every spawn imply the host-check answer, spawns carry it, and a held goal implies the question is open |
| ApprovalSafety.HostAnswerComesFromTheKey | phonton-cli/src/main.rs:581-598 | the answer is set if and only if Y, Enter or N is pressed on its own question |
| ApprovalSafety.ClarifiedGoalKeepsItsIdExactly | phonton-cli/src/main.rs:6826-6829 | in every state that satisfies the invariant, a clarified goal reruns under its own id if and only if it is the first in the list |
| ApprovalSafety.DirectFlagExactly | phonton-cli/src/main.rs:6827-6827 | after every run, a queued intent is spawned at once, and in another mode than it was made in if and only if it was held as a task and the screen is in Settings when the host question is answered |
| KeyLaws.KeyObeys | phonton-cli/src/main.rs:855-1055 | for every key and state, one flat law for each part of the app: goals, selection, held goal, mode, clarification, overlays, quitting, and what is asked of the loop |
| KeyLaws.CtrlYAppliesSelected | phonton-cli/src/main.rs:876-884 | a candidate is applied if and only if no prompt, held goal or artifacts panel is open, the key is Ctrl+Y, and the selected goal can be applied; it is that goal |
| KeyLaws.SpawnsWhatWasQueued | phonton-cli/src/main.rs:6826-6829 | a key spawns exactly what it queues, under the id of the first goal, in the mode on screen and with the host answer; a submitted or held goal is that first goal |
| ApprovalFailures.ClarifiedGoalCanLoseItsId | phonton-cli/src/main.rs:6826-6829 | a run of a fresh program in which the clarified goal is rerun under another goal's id |
| ApprovalFailures.HeldTaskCanLoseItsMode | phonton-cli/src/main.rs:6827-6827 | a run of a fresh program in which a held task is queued as a task and run as a goal |
| ApprovalFailures.McpAcceptsWhatPlansRefuse | phonton-cli/src/main.rs:1161-1185 | a held-down Enter or Ctrl+Y approves the prompt in front if and only if no plan waits |
| ApprovalFailures.HeldEnterApproves | phonton-cli/src/main.rs:6712-6714 | a fresh program whose first MCP request meets a repeated Enter answers yes |
| CommandLine.DecodeOfCommand | phonton-cli/src/local_plan_approval.rs:174-195 | the decoder gives back the program and all arguments of any printed line, whatever characters they hold; escapes are those of section 7 of RFC 8259 |
| CommandLine.CommandIsInjective | phonton-cli/src/local_plan_approval.rs:174-195 | two commands print alike if and only if they are the same |
| CommandLine.PrintsBareExactly | phonton-cli/src/local_plan_approval.rs:174-195 | a word is printed without quotes if and only if it has text and holds no whitespace, control character, quote, backslash, backtick or dollar sign |
| Text.WhitespaceExactly | phonton-cli/src/local_plan_approval.rs:174-195 | the 25 code points that count as whitespace |
| Text.ControlExactly | phonton-cli/src/local_plan_approval.rs:174-195 | the code points that count as control characters |
| CommandLine.CommandHasNoAsciiControls | phonton-cli/src/local_plan_approval.rs:174-195 | no printed line holds a character below U+0020 |
| WordSplitter.SplitCommandWords | phonton-cli/src/command_runner.rs:93-123 | the loop computes the declarative split, and fails exactly when a quote is left open |
| WordSplitter.SplitIsLossless | phonton-cli/src/command_runner.rs:93-123 | words are non-empty and concatenate to the input without unquoted whitespace and delimiting quotes |
| WordSplitter.QuotedIsOneWord | phonton-cli/src/command_runner.rs:93-123 | text between two single or two double quotes is one word, whatever else it holds |
| WordSplitter.UnquotedWordsHaveNoWhitespace | phonton-cli/src/command_runner.rs:93-123 | text without quotes always splits, and no word holds whitespace |
| WordSplitter.SplitOfCommandExactly | phonton-cli/src/command_runner.rs:93-123 | splitting a printed command line returns its words if and only if the stated condition on the words holds |
| DiffModel.CountHunks | phonton-cli/src/diff_cli.rs:264-277 | adds up the added and removed lines of all hunks |
| UnifiedDiff.RenderUnified | phonton-cli/src/diff_cli.rs:205-244 | prints the report line by line; `PrintedReportReadsBackExactly` says what the lines mean |
| DiffReader.PrintedReportReadsBackExactly | phonton-cli/src/diff_cli.rs:205-244 | a reader of the unified format, written apart from the printer, gets back the task, goal, totals, paths, decimal ranges and lines of a printed report if and only if neither the goal nor a path holds a line feed |
| UnifiedDiff.DiffStats | phonton-cli/src/local_tui.rs:40-68 | the separate counter: its list of files as a fold over the lines, and its statistics as the length and sums of that list |
| DiffRoundTrip.DiffReadsBack | phonton-cli/src/local_tui.rs:40-68 | for every report a goal that names no file, clean paths and clean lines are enough: the counter reads back the report's own files and counts |
| DiffRoundTrip.DiffReadsBackExactly | phonton-cli/src/local_tui.rs:40-68 | they are also needed, for every one-line goal whatever the paths, and for every goal over clean paths: then the report reads back if and only if the goal names no file and paths and lines are clean |
| DiffRoundTrip.OneLineGoalIsQuiet | phonton-cli/src/diff_cli.rs:205-208 | a goal of one line never names a file |
| DiffRoundTrip.QuietGoalReadsBackExactly | phonton-cli/src/local_tui.rs:40-68 | for a goal that names no file, the report reads back if and only if paths and lines are clean |
| DiffRoundTrip.FaultsCanCancel | phonton-cli/src/local_tui.rs:40-68 | outside those domains an unclean path and a goal that names it can make up for each other |
| DiffRoundTrip.GoalReadsBackExactly | phonton-cli/src/diff_cli.rs:205-210 | for clean paths and lines, the report reads back if and only if no line of the goal names a file |
| HunkGrouping.GroupSorted | phonton-cli/src/diff_cli.rs:130-140 | fills the sorted map: each key holds its hunks in order |
| Text.NormalizeExactly | phonton-cli/src/diff_cli.rs:279-281 | a path is normalized character by character: backslashes become slashes, and nothing else changes |
| HunkGrouping.BuildDiffReport | phonton-cli/src/diff_cli.rs:125-165 | files in ascending path order with their counts; totals are the counts over the ungrouped stream |
| HunkGrouping.GroupsPartition | phonton-cli/src/diff_cli.rs:125-165 | over covering keys no hunk is lost or duplicated and totals equal the stream's |
| HunkGrouping.HunksAtInOrder | phonton-cli/src/diff_cli.rs:130-140 | the hunks of a file stand in the order of the stream |
| HunkGrouping.StreamInOrder | phonton-cli/src/diff_cli.rs:125-135 | the stream holds the hunks of the ready reviews in turn, and nothing else |
| HunkGrouping.StatsAreTotals | phonton-cli/src/local_tui.rs:62-67 | for a report built from any stream and printed under the conditions of `DiffReadsBack`, the statistics of the separate counter are the number of files and the totals of the report |
| HunkGrouping.DiffHunksByFile | phonton-cli/src/focus.rs:78-94 | the first-seen list: one group per path, in order of first appearance, each the in-order hunks of that path |
| HunkGrouping.ComponentsOfNames | phonton-cli/src/focus.rs:78-94 | names joined by slashes are compared name by name; a leading slash and a leading dot count |
| HunkGrouping.RedundantSeparators | phonton-cli/src/focus.rs:78-94 | doubled and trailing slashes and later single dots do not count |
| HunkGrouping.FirstSeenKeepsEveryHunk | phonton-cli/src/focus.rs:78-94 | the first-seen list shows exactly the stream's hunks, none lost or duplicated, with the stream's totals |
| HunkGrouping.GroupingsAgreeExactly | phonton-cli/src/focus.rs:78-94 | both views hold the same (path, hunks) pairs if and only if no path has a backslash and no path is spelled in two ways |
| HunkGrouping.GroupingsCanDiffer | phonton-cli/src/focus.rs:78-94 | they differ for one path with a backslash, and for `a/b` beside `a//b` |
| HunkGrouping.ReportShowsSortedPairs | phonton-cli/src/diff_cli.rs:140-165 | the report lists exactly the sorted map's pairs, each path once, ascending |
| CellWrapping.WrapLine | phonton-cli/src/local_plan_approval.rs:95-107 | the inner loop computes the greedy wrap of a line |
| CellWrapping.WrappedLines | phonton-cli/src/local_plan_approval.rs:91-109 | line by line, with a zero width taken as one; the pieces concatenate to the lines and fit |
| CellWrapping.WrapAllInOrder | phonton-cli/src/local_plan_approval.rs:91-109 | the pieces of a line stand together, after those of the lines before it |
| CellWrapping.WrapIsLossless | phonton-cli/src/local_plan_approval.rs:91-109 | pieces concatenate to the line, exceed the width only as a single over-wide character, and are empty only for an empty line |
| CellWrapping.WrapIsOptimal | phonton-cli/src/local_plan_approval.rs:91-109 | no partition into fitting pieces has fewer |
| CellWrapping.CountMonotone | phonton-cli/src/local_plan_approval.rs:91-109 | dropping leading characters never needs more pieces |
| WordWrapping.WrapText | phonton-cli/src/main.rs:4031-4065 | pieces concatenate to the text, are non-empty and within the width; a piece ends early only where the next word would not fit, and a word is cut only when wider than the column |
| WordWrapping.HardBreak | phonton-cli/src/main.rs:4044-4055 | an over-wide word becomes full slices and a non-empty remainder |
| MentionSpans.SpansPartition | phonton-cli/src/context_mentions.rs:391-462 | mention spans are disjoint, in order and well formed, and every `@` with a successor lies in one |
| MentionShapes.BareMention | phonton-cli/src/context_mentions.rs:440-448 | a bare mention runs up to whitespace or one of `,` `;` `)` `(` `<` `>` and the backtick, and no further or shorter |
| MentionShapes.QuotedMention | phonton-cli/src/context_mentions.rs:404-437 | a mention in double or single quotes or in brackets runs to its own closing character, or to the end |
| Mentions.ContextQuoted | phonton-cli/src/context_mentions.rs:404-421 | the quoted loop ends at the first closing character or the end, at character boundaries |
| Mentions.FileQuoted | phonton-cli/src/main.rs:7493-7506 | the other scanner's quoted loop ends at the same place |
| Mentions.Bare | phonton-cli/src/context_mentions.rs:439-448 | a bare mention runs to the first stopping character, which is left unread |
| Mentions.ParseContextMentions | phonton-cli/src/context_mentions.rs:391-462 | returns the trimmed, non-empty mentions of the spans with their raw text; every slice is at character boundaries |
| Mentions.RawReadsBackExactly | phonton-cli/src/context_mentions.rs:415-457 | what is written down for a mention reads back as that mention alone, if and only if it was quoted or its target does not begin with a quote or bracket |
| Mentions.RawCanMislead | phonton-cli/src/context_mentions.rs:449-457 | the mention `@."x` is written down as `@"x`, which names another target |
| Mentions.LenUtf8IsShortest | phonton-cli/src/context_mentions.rs:404-421 | the length of a character in bytes is the shortest form of UTF-8 that carries its code point |
| Mentions.ExtractFileMentions | phonton-cli/src/main.rs:7480-7529 | the second scanner, before bare paths are appended, returns the targets of the same spans |
| Mentions.ScannersAgreeExactly | phonton-cli/src/main.rs:7480-7529 | both scanners name the same targets in the same order if and only if no bare mention, as the context scanner trims it, begins or ends with a colon |
| Mentions.ScannersCanDiffer | phonton-cli/src/main.rs:7480-7529 | they differ for the text `@a:` |
| AskPacking.PushBudgetedSection | phonton-cli/src/ask_context.rs:240-254 | one section is appended whole, truncated or not at all |
| AskPacking.BuildPrompt | phonton-cli/src/ask_context.rs:90-108 | the prompt is the header, the blocks of the sections in order, and the question without outer whitespace under its heading, whole when it fits into the limit and else cut with the marker; each block is its section whole where the budget has room, else its beginning with the marker; the reported figure is the estimate and never exceeds the limit |
| AskPacking.PackBound | phonton-cli/src/ask_context.rs:97-102 | for any sections packing only appends, overshoots its budget by at most 18 characters and adds nothing once the budget is reached |
| AskPacking.HeaderFits | phonton-cli/src/ask_context.rs:91-96 | the fixed header always fits the context budget |
| AskPacking.OvershootIsTight | phonton-cli/src/ask_context.rs:240-266 | the 18 characters are reached |
| AskPacking.TruncationNearlyEnds | phonton-cli/src/ask_context.rs:97-102 | after a truncated section at most one more section with text is let in |
| AskPacking.TrimBound | phonton-cli/src/ask_context.rs:256-264 | trimming keeps to its budget from six tokens up |
| AskPacking.QuestionSurvivesExactly | phonton-cli/src/ask_context.rs:103-104 | the question survives whole if and only if it fits together with the context; when it left room for a context, at most 42 characters at its end are lost |
| AskPacking.OvershootCutsQuestion | phonton-cli/src/ask_context.rs:103-104 | for every limit and every question that leaves room for a context, two sections of these lengths push its end out |
| AskPacking.NoQuestionIsSafe | phonton-cli/src/ask_context.rs:103-104 | so for each such question some sections cut it: no condition on the question alone keeps it whole |
| ArchiveEntries.TarEntries | scripts/runtime-tree-digest.py:25-49 | the map after streaming an archive: each name has the value of its last member, a link its target behind `link:`, a file its digest, a hard link the value its target had by then; no name is empty or only a directory's; otherwise the error of the first member at fault |
| ArchiveEntries.OrderDoesNotMatter | scripts/runtime-tree-digest.py:25-49 | archives that store each name once, hard links included, hold the same entries in every order that can be read |
| ArchiveEntries.ZipMatchesTar | scripts/runtime-tree-digest.py:52-58 | a zip whose names carry no leading `./` holds what the same files hold in a tarball |
| TreeDigest.TreeBytes | scripts/runtime-tree-digest.py:66-68 | the digest is fed the sorted lines |
| TreeDigest.DecodeOfEncodeExactly | scripts/runtime-tree-digest.py:66-68 | for every list of lines: they come back from the bytes if and only if no name holds a NUL and no value a line feed |
| TreeDigest.TreeReadsBackExactly | scripts/runtime-tree-digest.py:66-68 | the same of an entry map and its sorted lines |
| TreeDigest.EncodingIsInjective | scripts/runtime-tree-digest.py:66-68 | two entry maps of that kind give the same bytes if and only if they are equal |
| TreeDigest.LineFeedHidesEntry | scripts/runtime-tree-digest.py:66-68 | two different maps, of names and values without a NUL, give the same bytes: a line feed in a link target can as well begin the next name |
| TreeDigest.InstalledBytes | phonton-local/src/provision.rs:735-806 | the installer's digest over the extracted tree: visit, skip its own files, sort, feed |
| TreeDigest.InstalledAgrees | phonton-local/src/provision.rs:735-806 | listed in any order, the tree gives the script's sorted lines |
| TreeDigest.DigestsAgreeExactly | phonton-local/src/provision.rs:735-806 | for every extracted tree, installer and script hash the same bytes if and only if no path has a backslash and the archive brings no file under the installer's own names |
| TreeDigest.ArchiveDigestsAgreeExactly | phonton-local/src/provision.rs:735-806 | the same for every archive the script reads, hard links included, and the tree it extracts to |
| TreeDigest.DiskMatchesArchive | scripts/runtime-tree-digest.py:25-49 | what the installer computes of an extracted file or link is what the script stores for its member |
| TreeDigest.DigestsCanDiffer | phonton-local/src/provision.rs:735-806 | a tree of one entry makes them differ if and only if its path holds a backslash or it is a file named `.archive-sha256` or `.phonton-stage` |

## Left out

- Text is modelled as characters; UTF-8 encoding is taken to be injective, and only the mention scanners count bytes. Python's refusal to encode lone surrogates is not modelled.
- Integers are unbounded. The 32-bit and 64-bit limits are written out where they cap a budget; wrap-around of a `u32` sum of checks or of diff lines is not modelled.
- Real file-system behaviour: canonical paths, permissions, symbolic links in run roots, sync and partial writes. A persist or rename is one atomic map update. I/O errors other than a lost end write are not modelled.
- RunDirectory.RunFolder.BeginAttempt: whether the run root lies inside the repository, and whether the index save succeeds, are parameters; the canonical paths behind the first are not modelled.
- `interruption.json` is read as a legacy source and never written, as in the program; no run of `RunLifecycle` holds one.
- JSON parsing: a document is a value or unreadable. Receipt fields that no rule reads are one opaque field. Warnings of a plan are values with their numbers; their wording is not modelled.
- RunLifecycle.SelectionExactly: covers one run id; two processes that own different ids do not interact.
- RunListing.ListSavedRuns: file errors that end the listing early are not modelled, and the directory order is that of one snapshot.
- RecentRuns.IndexFile.Save: covers a save that succeeds; admission covers one that fails, which leaves the index as it was.
- ApprovalLoop.AppState.HandleKey: text buffers, the settings and Ask panels, clocks and clipboard contents are an arbitrary `View`, so every behaviour of them is covered and none is described. Clamping the plan scroll to the terminal height is not modelled; the scroll decides nothing.
- ApprovalLoop.EventLoop.Turn: what a spawned goal, an Apply or a panel action does is outside; a spawn is recorded with its id, prompt, mode and consent.
- WordSplitter.SplitCommandWords: `parse_prompt_command` around it is settled by reading single branches.
- DiffRoundTrip.DiffReadsBackExactly: for a goal of several lines that names a file, over a path that is not clean, no exact condition is given; `FaultsCanCancel` shows why neither fault decides alone. Hunk lines and the task id hold no line feed, by type.
- HunkGrouping.GroupingsAgreeExactly: Unix path flavour; prefixes of Windows paths are not modelled.
- CellWrapping.WrapLine: control characters count as whatever the width function says.
- Mentions.ExtractFileMentions: the bare paths appended afterwards, and reading the files, are outside.
- AskPacking.BuildPrompt: how sections are gathered from a workspace, the selected paths and the summary line are outside; sections are any strings.
- ArchiveEntries.TarEntries: members come as a list of names and kinds; decompression and the other digests the script prints are outside.
- TreeDigest.InstalledBytes: a tree is a list of files and links in any order; extraction, the walk over directories and the refusal of links that leave the root are outside.
- Rendering, colours, animation, providers, networking, MCP processes, installers and benchmark scripts: no hard property, or services this model cannot see.
