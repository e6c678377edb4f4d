# Kross: verified models

A Dafny model of the parts of Kross in which state, crashes or interleaving decide what is right,
with proofs of what those parts promise. Each source file that changes things step by step is
modelled by a class or by methods with loops, proved against functions on values; the properties
are proved about those functions, for all inputs and all runs.

| part | files |
|---|---|
| conversation thread | `ThreadModel`, `ThreadInvariant`, `ThreadRuns`, `ThreadState`, `ConversationThread` |
| token estimates | `Tokens`, `Calibration`, `RequestBudget` |
| context governor | `ToolAging`, `CompactionCuts`, `CompactionSelection`, `CompactionText`, `HardTruncation`, `ContextGovernor` |
| plan and schema checkers | `ConductorPlan`, `JsonSchema`, `JsonSchemaCompatibility`, `JsonSchemaCheck`, `JsonSchemaReports`, `JsonSchemaSoundness`, `JsonSchemaAdditive`, `JsonSchemaGaps`, `JsonSchemaReferences`, `JsonSchemaDocuments` |
| MCP framing and reload | `StdioFraming`, `StdioClient`, `OperationDrain`, `McpReload`, `McpManager` |
| event journal and cursor | `LineFile`, `SequenceJournal`, `RequestIndex`, `EventJournal`, `ClientCursor`, `EndToEndDelivery` |
| streams | `DeltaBatching`, `StreamedMessages`, `StreamPersistence` |
| durable state | `Migrations`, `MutationJournal` (and `LineFile`) |
| shared | `Prelude`, `Decimal` |

`dafny verify dfyconfig.toml` checks the whole project.

## What the thread invariant says

`ThreadModel.WellFormed`: every entry's turn is known; the entries of a turn are contiguous; at most
one turn is open, and it holds the last entry; a summary is the first entry and alone in its turn;
ids are distinct; roles fit the kinds. `Paired`: every tool result follows, in its turn, the latest
assistant entry before it, which holds its call. `CacheAgrees`: each cached estimate is the fresh
one. `ThreadRuns.SafeCut` is what compaction may cut at: outside the open turn, and between turns or
before an assistant entry. Callers owe `Awaited` for tool results and `SafeCut` for compaction; the
governor's cuts are proved safe.

## Where code and expectation part

These are results, each with lemmas that give its condition or its inputs.

- Tool aging stops as soon as the quota is met, after one result when it was met before; results of
  old iterations behind that point stay (`ToolAging.AllOldElidedIff`, `ToolAging.OldResultStaysExample`).
- The preamble that frames a summary is never taken off again: the pattern meant to remove its line does not
  match it. It reaches the next summarizer as if it were part of the summary, once more with every
  compaction (`CompactionText.ExtractedText`, `CompactionText.PreamblesPileUp`), and an end mark
  inside a summary cuts it off (`CompactionText.MarkCutsOff`).
- A page that is reloaded and has not yet selected its session takes old envelopes again, and the stored
  cursor falls back to them (`EndToEndDelivery.ReloadedPage`).
- Silence of the schema check is a guarantee on the pairs `JsonSchemaSoundness.Examined` admits, among
  them every unchanged schema; for each restriction of that predicate `JsonSchemaGaps` gives a pair
  on which the check is silent and wrong. Exclusive bounds, which the generator emits, are never read
  (`JsonSchemaGaps.ExclusiveBounds`); names such as `constructor` are found in every object
  (`JsonSchemaGaps.InheritedNameLeaves`); pattern properties let names into closed objects
  (`JsonSchemaGaps.CoveredNameGainsSchema`).
- Of the references that start with `#/`, those whose pointer passes an array lead the check nowhere, and
  encoded names are not decoded (`JsonSchemaReferences.FollowedAsWritten`, `JsonSchemaReferences.EncodedPointer`): most
  references in the shipped schemas lead into `anyOf`. Where one is replaced, nothing is reported
  (`JsonSchemaDocuments.UnseenReference`). `#` and other references are never followed, and keywords
  beside them are compared instead (`JsonSchemaGaps.ReferencesElsewhere`). What a reference inside
  unread keywords leads to may change unseen (`JsonSchemaDocuments.ReferenceInsideKeywords`).
- An unchanged schema is reported if a constant the check comes to is an array or an object, and only
  then (`JsonSchemaAdditive.SelfCompatibleIff`).
- A reservation beyond the largest safe integer reads as zero, and numbers are issued again
  (`SequenceJournal.RestartIsSafeIff`, `ReissueExample`).
- An event appended after a torn line is lost, in both journals, and an unfinished but complete line
  before it too (`SequenceJournal.LoggedIsKeptIff`, `MutationJournal.AgreesIff`,
  `MutationJournal.ForgottenUndoExample`, `MutationJournal.UnendedExample`).
- A failing migration write that took effect all the same is not undone (`Migrations.Apply`).
- Text typed while a delta waits for its frame overtakes it (`DeltaBatching.TypingOvertakesIff`).

## Model

| member | source | states |
|---|---|---|
| ThreadInvariant.AppendKeeps | packages/core/src/context/conversationThread.ts:104-212 | an entry that continues the open turn, or starts a turn of its own when none is open, keeps turns contiguous, the open turn last, ids distinct and roles compatible |
| ThreadInvariant.BeginKeeps | packages/core/src/context/conversationThread.ts:104-117 | beginning a turn keeps every thread invariant and the pairing of calls and results |
| ThreadInvariant.CloseKeeps | packages/core/src/context/conversationThread.ts:119-140 | closing the open turn, as committed or aborted, changes its status only and keeps every invariant; aborting appends its notice before |
| ThreadInvariant.AbortKeeps | packages/core/src/context/conversationThread.ts:128-140 | aborting appends exactly one notice to the open turn and keeps every invariant and the pairing |
| ThreadInvariant.AddNoticeKeeps | packages/core/src/context/conversationThread.ts:202-212 | a notice, in the open turn or in a turn of its own, keeps every invariant |
| ThreadInvariant.ToolResultKeeps | packages/core/src/context/conversationThread.ts:162-185 | a tool result keeps the pairing if and only if the latest assistant entry of the open turn holds its call |
| ThreadInvariant.RemovesExactlyUnanswered | packages/core/src/context/conversationThread.ts:659-693 | in the assistant entries of the turn exactly the calls without a result go; texts and all other entries stay |
| ThreadInvariant.InterruptKeeps | packages/core/src/context/conversationThread.ts:146-150 | an interrupted turn keeps every invariant and holds no unanswered call |
| ThreadInvariant.RewriteKeepsPairing | packages/core/src/context/conversationThread.ts:293-335 | rewriting entries in place keeps the pairing if result ids and answered calls survive |
| ThreadRuns.CompactionKeeps | packages/core/src/context/conversationThread.ts:264-291 | replacing a safe prefix keeps every invariant, the open turn, and the entries after the cut; the given summary is first and alone |
| ThreadModel.SummaryLeads | packages/core/src/context/conversationThread.ts:264-291 | after a compaction the first entry is a user message that holds the summary given, word for word |
| ThreadModel.NoticeSays | packages/core/src/context/conversationThread.ts:128-140 | a notice, also that of an abort, is one user message behind all others, with its mark and the text given |
| ThreadModel.CallsAreAwaited | packages/core/src/context/conversationThread.ts:152-160 | after an assistant message exactly the results of its calls are awaited |
| ThreadRuns.RecalibrationKeeps | packages/core/src/context/conversationThread.ts:343-350 | after a recalibration every cached estimate is the fresh one; pairing and shape are kept |
| ThreadRuns.ApplyKeeps | packages/core/src/context/conversationThread.ts:104-350 | each operation, called as its callers must, keeps contiguity, open turn last, summary first, pairing and fresh estimates |
| ThreadRuns.RunKeeps | packages/core/src/context/conversationThread.ts:104-350 | the same over every run of operations and compactions at safe cuts |
| ThreadRuns.RunTakesEachStep | packages/core/src/context/conversationThread.ts:104-350 | a run takes all its operations, one after the other |
| ThreadRuns.OpenBetweenBeginAndEnd | packages/core/src/context/conversationThread.ts:104-150 | a turn is open from its beginning until it is committed, aborted or interrupted, and at no other time |
| ThreadState.ExportIsAccepted | packages/core/src/context/conversationThread.ts:352-368 | every well-formed thread exports a state its own validator accepts |
| ThreadState.AcceptedIff | packages/core/src/context/conversationThread.ts:566-614 | exactly those states are accepted in which the open turn that is named is the one open turn there is, and every entry is of a turn listed and of a role that fits |
| ThreadState.RoundTrip | packages/core/src/context/conversationThread.ts:374-429 | restoring an export with its open turn gives the same messages, statuses, order and open turn up to an injective renaming of turns |
| ThreadState.RestoredIsWellFormed | packages/core/src/context/conversationThread.ts:374-429 | a thread restored with its open turn keeps every invariant, with fresh estimates |
| ThreadState.RestoreAborts | packages/core/src/context/conversationThread.ts:389-426 | restoring without the open turn is restoring with it, then removing its unanswered calls, aborting it and adding one notice; without an open turn both are the same |
| ThreadState.AbortedRestoreIsWellFormed | packages/core/src/context/conversationThread.ts:396-426 | after that no turn is open, the aborted turn has no unanswered call, and every invariant holds |
| ConversationThread.ConversationThread.constructor | packages/core/src/context/conversationThread.ts:84-86 | a new thread is empty and satisfies every invariant |
| ConversationThread.ConversationThread.BeginTurn | packages/core/src/context/conversationThread.ts:104-117 | opens a fresh turn that holds the input as its only entry; refused, without effect, while a turn is open |
| ConversationThread.ConversationThread.CommitTurn | packages/core/src/context/conversationThread.ts:119-126 | the open turn becomes committed and none is open; refused, without effect, without one |
| ConversationThread.ConversationThread.AbortTurn | packages/core/src/context/conversationThread.ts:128-140 | the open turn gets one notice as its last entry and becomes aborted; refused without one |
| ConversationThread.ConversationThread.InterruptTurn | packages/core/src/context/conversationThread.ts:146-150 | the open turn loses its unanswered calls before it is aborted, so that the next request obeys the protocol |
| ConversationThread.ConversationThread.RemoveUnmatchedToolCalls | packages/core/src/context/conversationThread.ts:659-693 | the in-place loop keeps, in every assistant entry of the turn, just the calls that have a result, and refreshes the estimates |
| ConversationThread.ConversationThread.AppendAssistant | packages/core/src/context/conversationThread.ts:152-160 | one assistant entry at the end of the open turn; an empty list of calls is dropped; refused without an open turn |
| ConversationThread.ConversationThread.AppendToolResult | packages/core/src/context/conversationThread.ts:162-185 | one result entry at the end of the open turn, its iteration the current one by default, its original size recorded; refused without an open turn |
| ConversationThread.ConversationThread.AddNotice | packages/core/src/context/conversationThread.ts:202-212 | one notice in the open turn, or in a fresh committed turn of its own |
| ConversationThread.ConversationThread.ReplacePrefixWithCompaction | packages/core/src/context/conversationThread.ts:264-291 | one user message with the given summary, in a fresh turn, takes the place of the prefix; exactly the turns that lost all entries are forgotten; a count of zero or less changes nothing |
| ConversationThread.ConversationThread.ElideToolResult | packages/core/src/context/conversationThread.ts:293-312 | only the entry with the id changes, and only if it is a tool result; an unknown id changes nothing |
| ConversationThread.ConversationThread.TruncateEntry | packages/core/src/context/conversationThread.ts:314-335 | only the text and estimate of the entry with the id change; role, call id and calls stay |
| ConversationThread.ConversationThread.ReestimateTokens | packages/core/src/context/conversationThread.ts:343-350 | the loop refreshes every estimate, and the original size of results that are not elided |
| ConversationThread.ConversationThread.ExportState | packages/core/src/context/conversationThread.ts:352-368 | the two mapping loops give the entries and the turns in order, with the open turn and iteration, and without cached estimates and ids; the validator accepts what a well-formed thread exports |
| ConversationThread.ConversationThread.RestoreState | packages/core/src/context/conversationThread.ts:374-429 | a state the validator refuses changes nothing; an accepted one replaces the thread, under fresh ids, with the open turn kept or aborted |
| ConversationThread.RefreshKeeps | packages/core/src/context/sessionContext.ts:439-459 | a new calibration factor leaves every cached estimate in agreement with it |
| ConversationThread.SessionContext.CalibrateFromUsage | packages/core/src/context/sessionContext.ts:439-451 | without a positive usage figure nothing changes; otherwise the factor is the clamped moving average, and the thread is re-estimated exactly if it changed |
| ConversationThread.SessionContext.ResetCalibration | packages/core/src/context/sessionContext.ts:453-459 | the factor is 1 and the thread is re-estimated if it was not |
| Tokens.TotalsAgree | packages/core/src/context/tokenEstimator.ts:72-82 | the sum of the rounded per-message estimates and the rounded estimate of the whole differ by at most (n + 1) / 2 tokens, over the reals |
| Tokens.EstimateIsRoundedProduct | packages/core/src/context/tokenEstimator.ts:77-82 | an estimate is the product of raw size and factor, rounded once; with the initial factor it is the raw size |
| Tokens.EstimatesArePositive | packages/core/src/context/tokenEstimator.ts:77-82 | with a factor of at least a quarter no message is estimated at zero |
| Tokens.ShortMessage | packages/core/src/context/tokenEstimator.ts:16-44 | with a factor of at most 2 a message without calls costs at most twice its length and the overhead |
| Tokens.EstimateTextTokens | packages/core/src/context/tokenEstimator.ts:16-25 | the accumulating loop gives the rounded-up sum of a quarter token a character and a whole one for CJK |
| Tokens.QuartersAddUp | packages/core/src/context/tokenEstimator.ts:16-25 | characters of the four CJK ranges cost a whole token and all others a quarter, and texts cost what their parts cost, before rounding |
| Tokens.RawEstimateCounts | packages/core/src/context/tokenEstimator.ts:30-44 | a raw size is the cost of all text of the message and its calls, and the overhead, each part rounded up |
| Tokens.CallsJsonGrows | packages/core/src/context/tokenEstimator.ts:40-42 | tool calls are counted as the JSON of their list: each after the other in brackets, with commas between |
| Tokens.TokenEstimator.Calibrate | packages/core/src/context/tokenEstimator.ts:94-102 | the factor becomes the clamped blend of the old one and the ratio; non-positive figures are ignored |
| Calibration.BlendApproaches | packages/core/src/context/tokenEstimator.ts:94-102 | one calibration makes up the share `emaAlpha` of the distance between the factor and the observed ratio, before the clamp |
| Calibration.CalibrationConverges | packages/core/src/context/tokenEstimator.ts:94-102 | while the same usage is reported and its ratio lies within the clamp, the error of the factor shrinks by that share each time, over any number of calibrations |
| Tokens.TokenEstimator.ResetCalibration | packages/core/src/context/tokenEstimator.ts:104-106 | the factor is 1 |
| RequestBudget.PreparedRequestFits | packages/core/src/context/sessionContext.ts:362-408 | when the governor ends within the budget it was given, the estimate of the whole request exceeds the threshold by at most half a token a message |
| RequestBudget.RequestTotal | packages/core/src/context/contextGovernor.ts:353-355 | the governor's total plus the system block is the sum of the messages' single estimates |
| ToolAging.HeadTail | packages/core/src/context/contextGovernor.ts:372-379 | the clipped text is never longer than allowed, and short texts are left alone |
| ToolAging.ClippedKeepsBothEnds | packages/core/src/context/contextGovernor.ts:372-379 | a text that is clipped keeps as much of its beginning as of its end, with the omission marked between, and uses up what is allowed but for a few characters |
| ToolAging.ToolTokensAddUp | packages/core/src/context/contextGovernor.ts:190-205 | the quota counts the estimates of the tool results, and of nothing else |
| ToolAging.AgingKeeps | packages/core/src/context/contextGovernor.ts:153-229 | aging changes only text, estimate and elision mark of tool results and keeps every invariant |
| ToolAging.AgesOldestUntilQuota | packages/core/src/context/contextGovernor.ts:190-205 | over the quota the oldest results are elided, one after the other, until the quota is met or none is left, and the last one was still needed |
| ToolAging.AgesOneOldResult | packages/core/src/context/contextGovernor.ts:190-205 | within the quota only the first old result is elided, and aging goes on past it only if that takes the total over the quota |
| ToolAging.AgesUpToStop | packages/core/src/context/contextGovernor.ts:190-205 | aging in closed form for every input: from the first old result, or at once when over the quota, every result is elided up to the first one that meets the quota |
| ToolAging.AllOldElidedIff | packages/core/src/context/contextGovernor.ts:190-205 | for every input, within the quota and over it: all old results end elided if and only if no old one stands behind the first result up to which eliding meets the quota |
| ToolAging.OldResultStaysExample | packages/core/src/context/contextGovernor.ts:153-205 | a counterexample: of three results within the quota the first two are old, and the second stays |
| ToolAging.OldIff | packages/core/src/context/contextGovernor.ts:168-205 | a result that is not elided counts as old if and only if some result is newer by at least `preserveToolIterations` iterations |
| ToolAging.RecentResultsStay | packages/core/src/context/contextGovernor.ts:168-205 | while the total stays within the quota, a result of the last `preserveToolIterations` iterations is not elided; it stays as clipping leaves it |
| HardTruncation.NoticeIsShort | packages/core/src/context/contextGovernor.ts:325 | the notice of a cut is estimated at no more than the 256-token floor of the cap |
| HardTruncation.TruncationCutsExactly | packages/core/src/context/contextGovernor.ts:297-328 | hard truncation in closed form: each entry over the cap is cut once, the notices of the cuts stand behind all entries in the order of the cuts, and no notice is cut; so the walk over the growing list ends |
| HardTruncation.CapSharesBudget | packages/core/src/context/contextGovernor.ts:311-314 | the caps of all messages fit the budget unless the floor raises them, and no larger cap would |
| HardTruncation.CutTextTells | packages/core/src/context/contextGovernor.ts:319-324 | a cut text is the clipped one with a mark behind it, in which the original size can be read back |
| HardTruncation.CutKeepsProtocol | packages/core/src/context/conversationThread.ts:314-335 | cutting a message leaves its role, call id and tool calls |
| HardTruncation.TruncationKeeps | packages/core/src/context/contextGovernor.ts:297-351 | hard truncation keeps every invariant and the open turn |
| CompactionCuts.BestCutIsSafe | packages/core/src/context/contextGovernor.ts:463-501 | the chosen cut falls between turns or before an assistant entry and spares the open turn |
| CompactionCuts.RetainedWithinBudget | packages/core/src/context/contextGovernor.ts:473-501 | the retained closed entries exceed the budget if and only if the newest turn alone does and no assistant entry in it starts a fitting rest |
| CompactionCuts.RetainedIsMaximal | packages/core/src/context/contextGovernor.ts:473-501 | no cut between turns, or inside the newest turn, retains more and still fits |
| CompactionCuts.CutSurvives | packages/core/src/context/contextGovernor.ts:266-280 | over every run in which turns go on, end, are interrupted or begin, and notices arrive, while the summary is awaited, the cut stays safe and the prefix it summarises stays as it was |
| CompactionSelection.GroupByTurn | packages/core/src/context/contextGovernor.ts:564-579 | the summarizer's groups are, joined, exactly the dropped messages in order, one non-empty group a turn |
| CompactionSelection.BuildCompactionSelection | packages/core/src/context/contextGovernor.ts:552-591 | the selection describes the whole prefix; there is none exactly when the prefix is empty or holds nothing to summarise |
| CompactionSelection.SelectionIsWhole | packages/core/src/context/contextGovernor.ts:552-591 | in a well-formed thread the summarizer is given every message of the prefix but a leading summary, in order, and that summary's text as the previous one |
| CompactionSelection.JoinSeparates | packages/core/src/context/contextGovernor.ts:586 | texts of several summaries are joined with an empty line between any two |
| CompactionSelection.PreviousSummaryIsFramed | packages/core/src/context/contextGovernor.ts:559-562 | the previous summary, as the summarizer is given it, begins with the preamble of the frame, even when the summary itself comes through unchanged |
| CompactionText.ExtractedText | packages/core/src/context/conversationThread.ts:521-549 | what is taken out of a framed summary, for every summary: the preamble, then the part before the first end mark, without empty lines and without the first line that is no more than the lead |
| CompactionText.PreambleComesBack | packages/core/src/context/conversationThread.ts:530-549 | so the summary never comes back as it was: the preamble is its first line |
| CompactionText.PreamblesPileUp | packages/core/src/context/conversationThread.ts:521-549 | a summary that is passed on as given grows by one preamble with every compaction, over any number of them |
| CompactionText.MarkCutsOff | packages/core/src/context/conversationThread.ts:532-546 | what stands behind an end mark inside a summary is lost |
| CompactionText.TitledText | packages/core/src/context/conversationThread.ts:530-549 | behind a title without an end mark all is taken, but for empty lines and the first line that is no more than the lead |
| CompactionText.NoTitleNoFrame | packages/core/src/context/conversationThread.ts:530-536 | a text without the title is only trimmed |
| CompactionText.TrimTakesSpace | packages/core/src/context/conversationThread.ts:525 | trimming takes the white space off both ends and nothing else |
| CompactionText.CollapseClosesUp | packages/core/src/context/conversationThread.ts:548 | no empty line is left, and text without empty lines is left alone |
| CompactionText.LeadLineGoes | packages/core/src/context/conversationThread.ts:547 | a line that is the lead and stops goes |
| ContextGovernor.ContextGovernor.ScanTurn | packages/core/src/context/contextGovernor.ts:510-519 | the inner scan yields the maximal block of one turn, its total, and whether it is summaries only |
| ContextGovernor.ContextGovernor.GetCompactableRanges | packages/core/src/context/contextGovernor.ts:503-530 | the ranges are the closed turns, one after the other, from the end of the summary to the start of the open turn |
| ContextGovernor.ContextGovernor.SelectManualPrefix | packages/core/src/context/contextGovernor.ts:445-457 | the cut keeps exactly the last `preserveFullTurns` closed turns; there is none if there are no more than those |
| ContextGovernor.ContextGovernor.FindSafeSuffixStart | packages/core/src/context/contextGovernor.ts:532-550 | the first assistant entry inside the turn from where the rest fits, or none |
| ContextGovernor.ContextGovernor.FindBoundary | packages/core/src/context/contextGovernor.ts:473-498 | the boundary is the best cut: the longest run of newest whole turns within the budget, else the longest fitting rest of the newest turn, else the newest turn |
| ContextGovernor.ContextGovernor.SelectAutomaticPrefix | packages/core/src/context/contextGovernor.ts:463-501 | the selection is that of the best cut for a budget of at least 1 |
| ContextGovernor.ContextGovernor.ApplyToolAging | packages/core/src/context/contextGovernor.ts:153-229 | the two loops clip, then age, touching tool results only, and keep every invariant; while the clipped results stay within the quota, those of the last `preserveToolIterations` iterations are not elided |
| ContextGovernor.ContextGovernor.ClipLongResults | packages/core/src/context/contextGovernor.ts:177-187 | each result over the limit is clipped, nothing else |
| ContextGovernor.ContextGovernor.AgeResults | packages/core/src/context/contextGovernor.ts:190-205 | the loop, with its early stop, ages from the oldest result on, re-counting after each |
| ContextGovernor.ContextGovernor.ApplyTurnCompaction | packages/core/src/context/contextGovernor.ts:231-264 | over budget, the prefix before the best cut gives way to a message with the summarizer's text, if there are a selection and a summary; else nothing changes |
| ContextGovernor.ContextGovernor.CompactPrefix | packages/core/src/context/contextGovernor.ts:266-295 | the selected prefix is replaced, by a message with the summarizer's text, exactly if the summarizer gives one |
| ContextGovernor.ContextGovernor.ApplyHardTruncation | packages/core/src/context/contextGovernor.ts:297-351 | nothing within the budget; otherwise every message over the cap is cut, keeping every invariant and the open turn |
| ContextGovernor.ContextGovernor.TruncateLongMessages | packages/core/src/context/contextGovernor.ts:315-327 | the walk ends although its list grows, and keeps whatever each of its steps keeps |
| ContextGovernor.ContextGovernor.CompactTurnsNow | packages/core/src/context/contextGovernor.ts:128-151 | manual compaction replaces all but the last `preserveFullTurns` closed turns by the summarizer's text, exactly if there are a selection and a summary |
| ContextGovernor.ContextGovernor.Govern | packages/core/src/context/contextGovernor.ts:79-123 | each stage runs only while over budget, on the result of the one before; the invariants and the open turn are kept, and the reported total is the real one |
| ConductorPlan.DependencySearch.Visit | packages/core/src/modes/conductorPlan.ts:68-78 | the depth-first visit ends on every graph; true only with a cycle, otherwise `visited` grows by a list in which dependencies come first |
| ConductorPlan.WalkDescends | packages/core/src/modes/conductorPlan.ts:63-81 | along a walk the positions in a topological order fall |
| ConductorPlan.OrderExcludesCycle | packages/core/src/modes/conductorPlan.ts:63-81 | a graph with a topological order has no cycle |
| ConductorPlan.HasDependencyCycle | packages/core/src/modes/conductorPlan.ts:63-81 | true if and only if the known dependencies contain a cycle; when false, the order of `visited` is topological |
| ConductorPlan.ValidatePlan | packages/core/src/modes/conductorPlan.ts:27-60 | no issue if and only if ids are unique, dependencies known and foreign, and an order exists; each issue is reported exactly where it occurs |
| JsonSchemaCheck.FindBreakingSchemaChanges | packages/protocol/src/jsonSchemaCompatibility.ts:15-22 | the recursive loops push, in order, exactly the issues of the comparison, and those are exactly the reports due, at each path and of each kind, no more and no fewer; with none of them on an examined pair, every value is kept under every reading of what the check does not read |
| JsonSchemaCheck.RunSchema | packages/protocol/src/jsonSchemaCompatibility.ts:24-128 | comparing two schemas appends exactly their issues to the shared list, the eight bounds included, and leaves earlier ones |
| JsonSchemaCheck.RunKeys | packages/protocol/src/jsonSchemaCompatibility.ts:154-168 | one comparison or one removal is reported for each key of the old union, the last variant of a key standing for it |
| JsonSchemaCheck.RunProperties | packages/protocol/src/jsonSchemaCompatibility.ts:184-200 | for each old property the one comparison with what a look-up by name finds in the new ones, inherited members of objects included, or a removal if it finds nothing |
| JsonSchemaCheck.RunRequired | packages/protocol/src/jsonSchemaCompatibility.ts:202-211 | each name required on one side only is reported, once |
| JsonSchemaReports.ReportedIff | packages/protocol/src/jsonSchemaCompatibility.ts:24-312 | a report stands in the result if and only if something is taken away at its path: a type or constant no longer listed, a bound that lets fewer numbers through, a property that went or became required, a variant without a counterpart, unknown fields no longer allowed; through properties, items, references and variants of any depth |
| JsonSchemaReports.BoundReported | packages/protocol/src/jsonSchemaCompatibility.ts:45-70 | a bound is reported if and only if it is new, or there before and after and some number within the old one is not within the new one |
| JsonSchemaReports.KeywordChangeIff | packages/protocol/src/jsonSchemaCompatibility.ts:220-312 | schemas that agree in all their parts but lists of types and constants and bounds have no issue if and only if no type, no constant and no number within a bound is taken away, the constants being primitive; so loosened bounds and longer lists are accepted |
| JsonSchemaReports.SilentIff | packages/protocol/src/jsonSchemaCompatibility.ts:15-22 | the result is empty if and only if nothing is taken away anywhere |
| JsonSchemaReports.ListsReportedOnce | packages/protocol/src/jsonSchemaCompatibility.ts:202-257 | no type and no required name is reported twice, however often a schema lists it |
| JsonSchemaReports.NodesInOrder | packages/protocol/src/jsonSchemaCompatibility.ts:314-324 | the members of a union are compared in their order, those that are no schemas left out |
| JsonSchemaSoundness.Sound | packages/protocol/src/jsonSchemaCompatibility.ts:24-312 | no issue on an examined pair of schemas means that every value valid under the old one is valid under the new one: with exclusive bounds, pattern properties, inherited names and references of any form, and with all other unread keywords meaning the same in both |
| JsonSchemaSoundness.ExaminedIsReflexive | packages/protocol/src/jsonSchemaCompatibility.ts:8-22 | every unchanged schema is an examined pair with itself |
| JsonSchemaSoundness.NoIssueMeansCompatible | packages/protocol/src/jsonSchemaCompatibility.ts:8-22 | the same for whole schemas: on examined pairs silence implies inclusion of accepted values |
| JsonSchemaSoundness.SoundUnion | packages/protocol/src/jsonSchemaCompatibility.ts:130-169 | variant by variant comparison under distinct tags implies inclusion for unions |
| JsonSchemaSoundness.SoundFields | packages/protocol/src/jsonSchemaCompatibility.ts:171-218 | silence on examined objects implies inclusion of accepted records, names covered by pattern properties and inherited names included |
| JsonSchemaAdditive.SelfCompatibleIff | packages/protocol/src/jsonSchemaCompatibility.ts:15-22 | an unchanged schema has no issue if and only if every constant the comparison comes to is primitive: through the variants the keys lead to when there is a union, through properties and items otherwise |
| JsonSchemaAdditive.OptionalPropertyIsAccepted | packages/protocol/src/jsonSchemaCompatibility.ts:8-14 | one more optional property is accepted |
| JsonSchemaAdditive.NewVariantIsAccepted | packages/protocol/src/jsonSchemaCompatibility.ts:8-14 | one more variant of the compared union, `anyOf` or `oneOf`, under a key of its own is accepted |
| JsonSchemaAdditive.CompositeConstantIsReported | packages/protocol/src/jsonSchemaCompatibility.ts:233-240 | any schema that allows an object or array as a constant has an issue against itself |
| JsonSchemaGaps.BooleanSchemas | packages/protocol/src/jsonSchemaCompatibility.ts:34-36 | counterexamples: boolean schemas on either side are not compared |
| JsonSchemaGaps.UnfollowedReferences | packages/protocol/src/jsonSchemaCompatibility.ts:34-36 | a counterexample for every reference that cannot be followed, whatever it stands for |
| JsonSchemaGaps.ReferencesElsewhere | packages/protocol/src/jsonSchemaCompatibility.ts:339-341 | counterexamples: a reference that does not start with `#/` appears, becomes another one, or leaves the keywords that stood beside it |
| JsonSchemaGaps.ExclusiveBounds | packages/protocol/src/jsonSchemaCompatibility.ts:40-89 | counterexamples: exclusive bounds that appear go unseen |
| JsonSchemaGaps.ExclusiveBoundTightened | packages/protocol/src/jsonSchemaCompatibility.ts:40-89 | a counterexample: an exclusive bound that is tightened goes unseen |
| JsonSchemaGaps.OtherKeywords | packages/protocol/src/jsonSchemaCompatibility.ts:38-128 | any other keyword that rejects some value goes unseen when it appears |
| JsonSchemaGaps.UnionReplacesPlain | packages/protocol/src/jsonSchemaCompatibility.ts:91-103 | counterexamples: `anyOf` and `oneOf` in place of a plain schema go unseen |
| JsonSchemaGaps.ItemsAppear | packages/protocol/src/jsonSchemaCompatibility.ts:114-127 | a counterexample: a new `items` goes unseen |
| JsonSchemaGaps.ListedItems | packages/protocol/src/jsonSchemaCompatibility.ts:114-127 | whatever arrays two values of `items` tell apart are lost unseen if one of the two is a list of schemas |
| JsonSchemaGaps.PropertiesAppear | packages/protocol/src/jsonSchemaCompatibility.ts:179-182 | a counterexample: `properties` that appear where there were none go unseen |
| JsonSchemaGaps.RequiredWithoutProperties | packages/protocol/src/jsonSchemaCompatibility.ts:179-182 | a counterexample: `required` without old `properties` goes unseen |
| JsonSchemaGaps.RecordValues | packages/protocol/src/jsonSchemaCompatibility.ts:179-217 | counterexamples: without old `properties`, a schema for unknown fields and their prohibition go unseen |
| JsonSchemaGaps.UnknownFieldsTyped | packages/protocol/src/jsonSchemaCompatibility.ts:212-217 | a counterexample: with old `properties`, a schema for unknown fields goes unseen |
| JsonSchemaGaps.ConstantBesideEnum | packages/protocol/src/jsonSchemaCompatibility.ts:226-241 | a counterexample: a constant beside an enumeration goes unseen |
| JsonSchemaGaps.EmptyTypeList | packages/protocol/src/jsonSchemaCompatibility.ts:249-257 | a counterexample: an empty list of types goes unseen |
| JsonSchemaGaps.OpenObjectGainsProperty | packages/protocol/src/jsonSchemaCompatibility.ts:184-200 | a new optional property of an open object rejects values the old schema accepted, unseen |
| JsonSchemaGaps.OpenObjectExample | packages/protocol/src/jsonSchemaCompatibility.ts:184-200 | a counterexample of that kind: an open object gains a text property |
| JsonSchemaGaps.CoveredNameGainsSchema | packages/protocol/src/jsonSchemaCompatibility.ts:184-217 | a counterexample: a closed object gains a schema for a name that its pattern properties let in |
| JsonSchemaGaps.PatternLeaves | packages/protocol/src/jsonSchemaCompatibility.ts:212-217 | a counterexample: a pattern property leaves a closed object |
| JsonSchemaGaps.InheritedNameLeaves | packages/protocol/src/jsonSchemaCompatibility.ts:183-200 | a counterexample for every inherited name, such as `constructor`: a property of that name leaves a closed object |
| JsonSchemaGaps.UnseenBesideUnion | packages/protocol/src/jsonSchemaCompatibility.ts:93-103 | whatever changes beside the variants of a union goes unseen |
| JsonSchemaGaps.RequiredBesideUnion | packages/protocol/src/jsonSchemaCompatibility.ts:93-103 | a counterexample: a name becomes required beside a union |
| JsonSchemaGaps.PropertiesBesideUnion | packages/protocol/src/jsonSchemaCompatibility.ts:93-103 | a counterexample: a property appears beside a union |
| JsonSchemaGaps.AdditionalBesideUnion | packages/protocol/src/jsonSchemaCompatibility.ts:93-103 | counterexamples: unknown fields are forbidden, or given a schema, beside a union |
| JsonSchemaGaps.PropertyLeavesBesideUnion | packages/protocol/src/jsonSchemaCompatibility.ts:93-103 | a counterexample: a property leaves a closed object beside a union |
| JsonSchemaGaps.ItemsBesideUnion | packages/protocol/src/jsonSchemaCompatibility.ts:93-103 | a counterexample: `items` appears beside a union |
| JsonSchemaGaps.OneOfReplacesAnyOf | packages/protocol/src/jsonSchemaCompatibility.ts:314-324 | a counterexample: `oneOf` with overlapping members in place of `anyOf` |
| JsonSchemaGaps.OneOfBesideAnyOf | packages/protocol/src/jsonSchemaCompatibility.ts:314-324 | a counterexample: a `oneOf` beside an `anyOf` goes unseen |
| JsonSchemaGaps.MemberLeavesUnion | packages/protocol/src/jsonSchemaCompatibility.ts:314-324 | a union loses, unseen, a member the check does not look into: `true`, or a reference it cannot follow |
| JsonSchemaGaps.RepeatedKeyHidesVariant | packages/protocol/src/jsonSchemaCompatibility.ts:138-153 | of two old variants with one tag the last hides the first, which may disappear unseen |
| JsonSchemaReferences.FollowedAsWritten | packages/protocol/src/jsonSchemaCompatibility.ts:339-350 | a reference that passes an array leads the check nowhere; any other leads it to where its names, read as they are written, lead |
| JsonSchemaReferences.FollowedIff | packages/protocol/src/jsonSchemaCompatibility.ts:339-350 | a reference that starts with `#/`, has no encoded names and leads somewhere is followed there if and only if no hop of its pointer passes an array |
| JsonSchemaReferences.EncodedPointer | packages/protocol/src/jsonSchemaCompatibility.ts:342-345 | a counterexample: a percent-encoded name leads somewhere, but not the check |
| JsonSchemaReferences.DepthDoesNotMatter | packages/protocol/src/jsonSchemaCompatibility.ts:339-350 | in a document without cycles, how deep references are followed makes no difference beyond their own depth, to what the check sees and to what the document says |
| JsonSchemaDocuments.ViewMeans | packages/protocol/src/jsonSchemaCompatibility.ts:339-350 | what the check sees of a document, with everything left unread in it read as the document means it, accepts exactly what the document accepts |
| JsonSchemaDocuments.DocumentsAreCompatible | packages/protocol/src/jsonSchemaCompatibility.ts:8-22 | soundness for documents with references, each with a reading of its own: silence on examined views implies inclusion of accepted values, if what is left unread or unfollowed in both views means the same in both documents |
| JsonSchemaDocuments.ReferenceInsideKeywords | packages/protocol/src/jsonSchemaCompatibility.ts:38-128 | a counterexample without that condition: a reference inside keywords that are not read, such as `allOf`, stays while its target narrows |
| JsonSchemaDocuments.UnfollowedIsSilent | packages/protocol/src/jsonSchemaCompatibility.ts:32-36 | against a reference that leads the check nowhere nothing is reported, on either side |
| JsonSchemaDocuments.UnseenReference | packages/protocol/src/jsonSchemaCompatibility.ts:339-350 | where such a reference gives way to another schema, any value the two tell apart is lost unseen |
| JsonSchemaDocuments.UnseenReferenceExample | packages/protocol/src/jsonSchemaCompatibility.ts:339-350 | a counterexample of that kind: a reference to a variant of a union gives way to `false` |
| StdioFraming.IndexOfHeaderEnd | packages/core/src/mcp/jsonRpcStdio.ts:348-361 | the search returns the first position of CR LF CR LF, or none |
| StdioFraming.FrameOfPrefix | packages/core/src/mcp/jsonRpcStdio.ts:314-346 | a frame read from a prefix of the stream is the frame read from every extension of it, garbage headers included |
| StdioFraming.ReaderIsStable | packages/core/src/mcp/jsonRpcStdio.ts:314-346 | every frame read shortens the buffer, and reading is stable under extension |
| StdioFraming.DrainExtends | packages/core/src/mcp/jsonRpcStdio.ts:239-249 | draining a longer buffer is draining its first part, then the leftover with the rest |
| StdioFraming.ChunksDoNotMatter | packages/core/src/mcp/jsonRpcStdio.ts:239-249 | however any byte stream is cut into chunks, messages and leftover are those of the whole |
| StdioFraming.LengthOfHeader | packages/core/src/mcp/jsonRpcStdio.ts:235 | the written header is read back as the length of the body |
| StdioFraming.LengthIsRead | packages/core/src/mcp/jsonRpcStdio.ts:321 | a length announced in any spelling of the label and with any white space is read as its digits |
| StdioFraming.OnlyLengthsAreRead | packages/core/src/mcp/jsonRpcStdio.ts:321 | nothing else is taken for a length |
| StdioFraming.FirstLengthCounts | packages/core/src/mcp/jsonRpcStdio.ts:321 | of several announcements in a header the first one counts, and without any there is no length |
| StdioFraming.ReadsWrittenFrame | packages/core/src/mcp/jsonRpcStdio.ts:233-237 | a written frame reads back as its body, whatever follows |
| StdioFraming.RoundTrip | packages/core/src/mcp/jsonRpcStdio.ts:233-249 | what is written is what is read, in order, and what follows is read as if it stood alone |
| StdioFraming.ChunkedRoundTrip | packages/core/src/mcp/jsonRpcStdio.ts:233-249 | any chunking of a written stream delivers exactly the messages sent and leaves nothing over |
| StdioFraming.NoiseIsSkipped | packages/core/src/mcp/jsonRpcStdio.ts:317-330 | lines of ASCII that end with CR LF CR LF and hold no length are skipped as a whole, whatever follows |
| StdioFraming.DeliversBehindNoise | packages/core/src/mcp/jsonRpcStdio.ts:314-346 | behind such lines the messages written are the messages delivered, in order, with nothing left over |
| StdioFraming.NoiseWaits | packages/core/src/mcp/jsonRpcStdio.ts:317-330 | such lines alone deliver nothing |
| StdioFraming.ChunkedDeliveryBehindNoise | packages/core/src/mcp/jsonRpcStdio.ts:239-249 | the same however lines and messages are cut into chunks |
| StdioClient.MessagesKeepAccounts | packages/core/src/mcp/jsonRpcStdio.ts:251-277 | whatever messages arrive, every issued id is waiting or settled, never both, and none is settled twice |
| StdioClient.ChunkBoundaryIsInvisible | packages/core/src/mcp/jsonRpcStdio.ts:239-277 | two chunks settle the same requests in the same order as the one chunk they make up |
| StdioClient.StdioJsonRpcClient.Request | packages/core/src/mcp/jsonRpcStdio.ts:136-184 | a new id is issued and waits; if the write fails it is settled at once; a closed client issues none |
| StdioClient.StdioJsonRpcClient.OnStdout | packages/core/src/mcp/jsonRpcStdio.ts:239-249 | the loop drains every complete frame, behind lines without a length too, and settles what each answers |
| StdioClient.StdioJsonRpcClient.HandleMessage | packages/core/src/mcp/jsonRpcStdio.ts:251-277 | only a response with the id of a waiting request settles it |
| StdioClient.StdioJsonRpcClient.Cancel | packages/core/src/mcp/jsonRpcStdio.ts:155-163 | a timeout or abort rejects the request if it still waits |
| StdioClient.StdioJsonRpcClient.Close | packages/core/src/mcp/jsonRpcStdio.ts:203-212 | every waiting request is rejected, exactly those, and none is left |
| OperationDrain.OperationDrain.Run | packages/core/src/mcp/register.ts:490-493 | an operation starts exactly if closing has not begun |
| OperationDrain.OperationDrain.FinishOperation | packages/core/src/mcp/register.ts:495-500 | the last operation to finish wakes a waiting close |
| OperationDrain.OperationDrain.RequestClose | packages/core/src/mcp/register.ts:503-507 | the first close waits exactly while operations run; later ones join it |
| OperationDrain.OperationDrain.CloseResources | packages/core/src/mcp/register.ts:505 | the resources are closed once, when no operation runs |
| McpReload.NextKeeps | packages/core/src/mcp/register.ts:246-336 | every atomic step keeps the manager's invariant |
| McpReload.RunKeeps | packages/core/src/mcp/register.ts:246-336 | in every interleaving: the gateway offers the current generation's tools, none once a close has cleared them; connections close at most once each and only when idle; when a close is complete every prepared generation is closed |
| McpReload.GatewayOffersLastSwap | packages/core/src/mcp/register.ts:277-303 | after every run the current generation is that of the last reload that succeeded, whatever failed before and after it, and its tools are what the gateway offers until a close clears it |
| McpReload.OperationsRunToTheirEnd | packages/core/src/mcp/register.ts:490-507 | over every run the operations of a closing generation finish one by one, none is added, and its connections are not closed before the last has finished |
| McpReload.ReloadIsJoined | packages/core/src/mcp/register.ts:275-303 | until it is settled, a reload under way is joined by every other one and only ever comes nearer its end; preparation ends at once, however it ends |
| McpReload.NoOperationAfterClosing | packages/core/src/mcp/register.ts:490-493 | an operation starts on a generation if and only if it is the current one and not being closed |
| McpReload.ClosingIsFinal | packages/core/src/mcp/register.ts:503-507 | no step makes a closing generation accept again or adds an operation to it |
| McpReload.CloseIsNeverStuck | packages/core/src/mcp/register.ts:319-335 | unless complete, a close under way has a step to take once no operation runs and no reload prepares |
| McpReload.OwnStepsRunOut | packages/core/src/mcp/register.ts:319-335 | each such step brings the close nearer its end |
| McpManager.ReloadableMcpManager.constructor | packages/core/src/mcp/register.ts:262-273 | the first generation is offered and the invariant holds |
| McpManager.ReloadableMcpManager.StartReload | packages/core/src/mcp/register.ts:275-277 | refused when closed; a reload under way is joined |
| McpManager.ReloadableMcpManager.FinishPreparing | packages/core/src/mcp/register.ts:278-303 | the new generation replaces the current one, which begins to close, or is itself closed if it failed, the swap threw or the manager was closed |
| McpManager.ReloadableMcpManager.StartClose | packages/core/src/mcp/register.ts:319-330 | no reload is accepted from here on; without one under way the tools are cleared and the current generation begins to close; a second call changes nothing |
| McpManager.ReloadableMcpManager.RunOnCurrent | packages/core/src/mcp/register.ts:310-318 | an operation runs on the current generation unless a close has begun with it |
| LineFile.ReadAppended | packages/worker/src/eventJournal.ts:175-201 | reading back after an append: all before, and the line unless it was glued to a torn one |
| SequenceJournal.NumberingKeeps | packages/worker/src/eventJournal.ts:42-67 | a number is taken only below the durable limit and exceeds all taken before |
| SequenceJournal.FileBoundsNumbers | packages/worker/src/eventJournal.ts:138-154 | whatever became of the reservation, a new process issues numbers above all those in the file |
| SequenceJournal.AppendKeeps | packages/worker/src/eventJournal.ts:42-79 | an append keeps the journal safe and issues the next number |
| SequenceJournal.CutAppendKeeps | packages/worker/src/eventJournal.ts:42-79 | so does an append cut short by a crash at any point, inside its line included |
| SequenceJournal.CutAppendLeaves | packages/worker/src/eventJournal.ts:42-79 | what a crash leaves of an append: the number is spent once taken, memory is gone, and a line cut short can be read only if it lacks no more than its newline and was not glued to an unfinished one |
| SequenceJournal.RunIssuesIncreasing | packages/worker/src/eventJournal.ts:42-67 | over every run of appends, crashes, loads and restarts, issued numbers strictly increase and what is read back is in order |
| SequenceJournal.RestartIsSafeIff | packages/worker/src/eventJournal.ts:320-342 | with a reservation beyond the safe integers, a restart goes on safely if and only if the last number was persisted |
| SequenceJournal.ReissueExample | packages/worker/src/eventJournal.ts:320-342 | a counterexample: past the largest safe integer a restart starts again from one |
| SequenceJournal.ReplayIsOrdered | packages/worker/src/eventJournal.ts:81-88 | a replay is in increasing order, issued envelopes only, and all that are kept after the number |
| SequenceJournal.AppendRetains | packages/worker/src/eventJournal.ts:66-78 | on a file that ends with a newline, the file holds exactly the last snapshot and the logged envelopes after it |
| SequenceJournal.LoggedIsKeptIff | packages/worker/src/eventJournal.ts:73-76 | a logged envelope can be replayed if and only if the file ended with a newline before it |
| SequenceJournal.SnapshotRepairs | packages/worker/src/eventJournal.ts:70-71 | after a snapshot the file holds exactly the snapshot, whatever was torn |
| EventJournal.EventJournal.LastSeq | packages/worker/src/eventJournal.ts:138-154 | loads the larger of the persisted and reserved numbers and reserves the next range |
| EventJournal.EventJournal.Append | packages/worker/src/eventJournal.ts:42-79 | takes the number after the last one, reserving a range first if needed, and writes a line, a whole file or nothing by the kind of event |
| EventJournal.EventJournal.ReplayAfter | packages/worker/src/eventJournal.ts:81-88 | the kept envelopes after the number, in increasing order |
| EventJournal.EventJournal.CompleteRequest | packages/worker/src/eventJournal.ts:100-125 | the request moves to the end of the index, which keeps its last 500, in memory and on disk alike; no events, no change |
| EventJournal.EventJournal.FindCompletedRequest | packages/worker/src/eventJournal.ts:90-98 | the recorded events of the request, if the index holds it |
| EventJournal.EventJournal.DeleteSession | packages/worker/src/eventJournal.ts:127-136 | nothing remains and numbers start again |
| EventJournal.EventJournal.Handle | packages/worker/src/workerService.ts:165-180 | a duplicate is answered from the index without executing; a success is recorded |
| RequestIndex.IndexIsLatest | packages/worker/src/eventJournal.ts:100-125 | after any completions the index holds the last 500 distinct requests with their last events |
| RequestIndex.FoundIff | packages/worker/src/eventJournal.ts:90-125 | a completed request is found, with its events, if and only if fewer than 500 others have completed since |
| RequestIndex.RepeatedCommandIsAnswered | packages/worker/src/workerService.ts:339-355 | a command that was answered without error is not executed again: it is answered with exactly the envelopes that answered it before, while fewer than 500 other requests completed |
| RequestIndex.DirectKeepsOwn | packages/worker/src/workerService.ts:340-342 | what is recorded of a command are all envelopes that answer it, and no others |
| RequestIndex.DirectInOrder | packages/worker/src/workerService.ts:340-342 | they are recorded in the order in which they were emitted |
| RequestIndex.FailureIsNotRecorded | packages/worker/src/workerService.ts:343-355 | a command that is answered with an error, or not at all, leaves no trace, so it is executed again |
| ClientCursor.DeliversInOrder | packages/web/src/cloudClient.ts:244-257 | one client object looks at all arrivals and delivers each session's numbered envelopes in strictly increasing order, whatever it found in storage |
| ClientCursor.SuppressedOnlyIfArrived | packages/web/src/cloudClient.ts:244-257 | even across reloads an envelope is suppressed only if it or a later-numbered one arrived before |
| ClientCursor.SuppressedIff | packages/web/src/cloudClient.ts:244-257 | on empty storage, exactly then |
| ClientCursor.CloudClient.SetActiveSession | packages/web/src/cloudClient.ts:82-88 | the cursor is read back from storage |
| ClientCursor.CloudClient.ReceiveEvent | packages/web/src/cloudClient.ts:244-257 | a numbered worker envelope at or below the cursor is dropped; any other is delivered, and the cursor and storage follow it |
| EndToEndDelivery.RunKeeps | packages/web/src/cloudClient.ts:244-257 | under any mix of live events, replays, reconnects, page reloads and worker crashes, each page delivers the worker's envelopes only, in strictly increasing order |
| EndToEndDelivery.RunProjects | packages/worker/src/workerService.ts:426-433 | in every interleaving the worker goes its own way, and exactly what is delivered of its envelopes reaches the client |
| EndToEndDelivery.ReloadedPage | packages/web/src/cloudClient.ts:82-88 | a reloaded page takes any envelope, even one below the stored cursor, which then falls back; once it has selected the session it takes exactly those above the cursor |
| EndToEndDelivery.FirstArrivalIsDelivered | packages/web/src/cloudClient.ts:250-256 | an envelope that arrives before itself or any later-issued one is delivered |
| EndToEndDelivery.ResumeSnapshotIsDelivered | packages/worker/src/workerService.ts:426-433 | the snapshot that answers a resume is delivered unless something issued later overtakes it |
| DeltaBatching.MergedDeltasAgree | packages/web/src/useCloud.ts:580-607 | two mergeable deltas in a row do what their merger does |
| DeltaBatching.BatchingRefines | packages/web/src/useCloud.ts:476-497 | for every stream and every timing of frames the state, with the pending delta dispatched, is that of dispatching each event alone; no delta waits without a frame |
| DeltaBatching.TypingOvertakesIff | packages/web/src/useCloud.ts:535-540 | text typed while a delta waits overtakes it, unless the active session drops the delta anyway |
| StreamedMessages.DeltasAreShown | packages/web/src/useCloud.ts:412-438 | over any deltas each speaker has said what it said before and then its own deltas in order; old messages stay, a new one begins exactly where the speaker changes or none was being streamed, and only the last is left streaming |
| StreamedMessages.BatchedDeltasAreShown | packages/web/src/useCloud.ts:412-497 | the same of the batched client, whenever its frames come |
| StreamedMessages.TypingLosesNothing | packages/web/src/useCloud.ts:182-196 | whichever overtakes the other, typed text and deltas are both shown in full |
| StreamedMessages.AlikeDeltasWait | packages/web/src/useCloud.ts:485-497 | between two frames deltas of one workspace, session and kind become one dispatch, with all their text |
| StreamedMessages.PendingGathers | packages/web/src/useCloud.ts:580-607 | a pending delta always gathers the latest arrivals, all of one workspace, session and kind |
| DeltaBatching.DeltaBatcher.OnEvent | packages/web/src/useCloud.ts:485-497 | a delta is merged into the pending one or replaces it after a flush; any other event is dispatched after a flush |
| DeltaBatching.DeltaBatcher.FlushDelta | packages/web/src/useCloud.ts:479-484 | the pending delta, if any, is dispatched, and no frame is awaited |
| StreamPersistence.StreamIsStored | packages/worker/src/workerService.ts:1321-1378 | the messages stored for a stream are, in id order, exactly its non-empty maximal runs of same-kind deltas; the summary follows once, exactly if no agent text was seen and it is not blank; earlier messages are as before |
| StreamPersistence.TakeKeeps | packages/worker/src/workerService.ts:1342-1370 | after each event every run so far is stored, but for the latest text of the open one |
| StreamPersistence.StreamConsumer.ConsumeDelta | packages/worker/src/workerService.ts:1344-1355 | a delta of another kind closes the segment; the first non-empty one is stored as a message; others grow its text |
| StreamPersistence.StreamConsumer.ConsumeStream | packages/worker/src/workerService.ts:1321-1378 | the loop, with its rewriting of the open message, leaves in the store what the runs of the stream say, and the summary when it is due |
| Migrations.CandidatesSettle | packages/server/src/serverMigrations.ts:58-90 | what a migration makes needs no migration, for the core and the server files |
| Migrations.CoreFiles | packages/core/src/persistence/coreMigrations.ts:126-130 | the files of the core and what of them is migrated: any record without a version |
| Migrations.ServerFiles | packages/server/src/serverMigrations.ts:58-90 | the files of the server, the field that each must have, and the one that a list is wrapped under |
| Migrations.AddVersionSettles | packages/server/src/serverMigrations.ts:205-222 | adding the version twice is adding it once |
| Migrations.WrapListSettles | packages/server/src/serverMigrations.ts:62-67 | wrapping a list gives a file that is up to date |
| Migrations.AddVersionKeeps | packages/server/src/serverMigrations.ts:205-222 | what a migration makes of a record agrees with it on every field but the version |
| Migrations.WrapListKeeps | packages/server/src/serverMigrations.ts:62-67 | what a migration makes of a list holds that list under its field, and nothing else but the version |
| Migrations.CandidatesPreserve | packages/server/src/serverMigrations.ts:58-90 | so with every candidate file of the core and the server |
| Migrations.PlanKeepsData | packages/core/src/persistence/coreMigrations.ts:126-175 | the planned content of each file parses to a value that keeps all data of the present content |
| Migrations.PlanIsSound | packages/core/src/persistence/coreMigrations.ts:126-175 | planned files are distinct candidates that hold the content planned from |
| Migrations.PlanIsExact | packages/core/src/persistence/coreMigrations.ts:126-175 | a plan is refused if and only if some file is no regular file, no JSON, or of an unknown shape or version; otherwise it holds exactly the files that are there and not up to date, with what their migration makes of them |
| Migrations.PlanMigrations | packages/core/src/persistence/coreMigrations.ts:131-174 | the planning loop gives the plan over all candidates, or refuses as soon as one file is no regular file, no JSON, or of an unknown shape or version |
| Migrations.FileSystem.AtomicWrite | packages/core/src/persistence/coreMigrations.ts:220-236 | a write replaces the file at once or has no effect |
| Migrations.Forward | packages/core/src/persistence/coreMigrations.ts:98-102 | the write loop leaves exactly the files before the first failure written |
| Migrations.Backward | packages/core/src/persistence/coreMigrations.ts:106-108 | the undo loop restores the original files if every undo works |
| Migrations.Apply | packages/core/src/persistence/coreMigrations.ts:82-123 | applied: all new; rolled back: the files are as before if and only if the failing write took no effect or had none to take, and else only its file is new; mixed only when an undo fails, and then each file is old or new; the lock is released if it was taken |
| Migrations.Run | packages/core/src/persistence/coreMigrations.ts:54-80 | a rejected plan, a noop, a dry run, a taken lock and a plan that cannot start leave the files alone; otherwise the run ends as carrying out its plan does: applied, and then each planned file keeps all data it held; rolled back with the same exact condition; or blocked with each file old or new |
| Migrations.SecondRunIsNoop | packages/core/src/persistence/coreMigrations.ts:74-77 | after an applied run, planning again finds nothing to do |
| MutationJournal.AppendReplays | packages/core/src/mutations/mutationJournal.ts:141-151 | an append adds its event to the replay if the file ended with a newline; otherwise it is lost, and an unfinished line before it too |
| MutationJournal.AgreesIff | packages/core/src/mutations/mutationJournal.ts:141-187 | for every end of the file, memory and file agree after an append if and only if: the file ended with a newline; or with part of a line and the event is redundant; or with a line that lacks only its newline and the event cancels that line's event |
| MutationJournal.CancelsIff | packages/core/src/mutations/mutationJournal.ts:172-185 | two events in a row leave the state as it was if and only if the second is redundant like the first, ends with a known outcome what the first began, or puts back in its place what the first took away or overwrote |
| MutationJournal.UnendedExample | packages/core/src/mutations/mutationJournal.ts:141-163 | a counterexample: an event that memory already holds destroys the line before it |
| MutationJournal.RunReplays | packages/core/src/mutations/mutationJournal.ts:141-187 | over every run of appends the file replays to all of its events, but for the first one and the unfinished line before it, if the file did not end with a newline |
| MutationJournal.RunAgrees | packages/core/src/mutations/mutationJournal.ts:90-187 | from a file that ends with a newline, memory stays the replay of the file after every run of appends |
| MutationJournal.TornLineLoads | packages/core/src/mutations/mutationJournal.ts:157-163 | a torn last line loads as the state before its event |
| MutationJournal.ApplyMoves | packages/core/src/mutations/mutationJournal.ts:172-185 | how one event moves a transaction between incomplete and committed |
| MutationJournal.Exclusive | packages/core/src/mutations/mutationJournal.ts:90-128 | with fresh ids no transaction is both incomplete and committed, whatever events the file holds |
| MutationJournal.InactiveIsFinal | packages/core/src/mutations/mutationJournal.ts:105-124 | once undone or rolled back, a mutation is never active again |
| MutationJournal.RolledBackIsGone | packages/core/src/mutations/mutationJournal.ts:95-109 | a transaction that is neither prepared nor committed stays so over every run that does not prepare its id again |
| MutationJournal.CommitActivates | packages/core/src/mutations/mutationJournal.ts:95-124 | a prepared mutation is active from its commit on, and no longer once undone |
| MutationJournal.ForgottenUndoExample | packages/core/src/mutations/mutationJournal.ts:111-118 | a counterexample across a restart: an undo glued to a torn line is forgotten |
| MutationJournal.MutationJournal.constructor | packages/core/src/mutations/mutationJournal.ts:153-187 | the load loop gives the replay of the file |
| MutationJournal.MutationJournal.AppendPrepared | packages/core/src/mutations/mutationJournal.ts:90-93 | memory stays the replay of the file, if that ended with a newline |
| MutationJournal.MutationJournal.AppendCommitted | packages/core/src/mutations/mutationJournal.ts:95-103 | refused without effect unless prepared; memory stays the replay of the file |
| MutationJournal.MutationJournal.AppendRolledBack | packages/core/src/mutations/mutationJournal.ts:105-109 | memory stays the replay of the file |
| MutationJournal.MutationJournal.AppendUndone | packages/core/src/mutations/mutationJournal.ts:111-118 | memory stays the replay of the file |
| MutationJournal.CreationOrder | packages/core/src/mutations/mutationJournal.ts:120-124 | the sort by creation time keeps every record, orders them, and leaves those of one time in their order |
| MutationJournal.MutationJournal.ListActive | packages/core/src/mutations/mutationJournal.ts:120-124 | exactly the committed mutations that are not inactive, by creation time, those of one time in the order of their commits |

## Left out

- ConversationThread.SetCurrentIteration and plain getters: one assignment each, nothing to prove.
- restoreFromConversation, legacy compaction markers, addCompaction and removeTurnEntries: the old format, and operations nothing else calls.
- ThreadState.IsState: the checks of JSON types are taken as given, since saved states are typed values here; turn ids are values of a datatype instead of strings.
- ThreadState.RoundTrip: is about exported states; an accepted state written by hand may repeat a turn id or split a turn.
- Turn and entry counters are module globals in the source and fields that only grow here.
- ToolAging.HeadTail: counts Unicode characters where the source counts UTF-16 units; the texts of elisions and previews are function parameters.
- ThreadModel.SummaryLeads: the summary is the text already in its frame (`CompactionText.Format`), so that the thread operations need not know the frame.
- Tokens.TotalsAgree: over the reals; floating-point rounding of the factor is not modelled.
- ContextGovernor.ContextGovernor.Govern: the summarizer is one function of the selection; what turns may do to the thread while it is awaited is covered by `CompactionCuts.CutSurvives`, outside this method. Maintenance reports are left out.
- HardTruncation.TruncationCutsExactly: needs the factor to be at most 2, the default clamp, which nothing in the repository overrides.
- JsonSchemaSoundness.Sound: a guarantee on examined pairs; which other pairs happen to be compatible is not characterised. Numbers are reals, so `-0` and `0` are one number; regular expressions, formats and what unread keywords mean are parameters.
- JsonSchemaDocuments.DocumentsAreCompatible: the program looks up references as it goes, which is modelled as comparing the views. Left out are references that start with `#/` and lead into a cycle, on which the program does not end; references to references; pointers to anything but a schema under the keywords modelled, or with encoded keywords; and `$id`, which changes what `#` is.
- StdioFraming.RoundTrip: JSON and UTF-8 are function parameters with the facts needed; a `Content-Length` above 2^53 is not rounded.
- StdioClient.StdioJsonRpcClient.Cancel: the cancellation notice to the server, process spawning and diagnostics are not modelled.
- McpReload.RunKeeps: `replaceCategory` either throws before it changes anything or swaps at once, and cannot fail for an empty list; connecting, tool names and catalog calls are left out. Closing the connections always ends.
- McpManager.ReloadableMcpManager.StartClose: the continuations that only wait for other promises are steps of `McpReload` without a method of their own.
- SequenceJournal.RunIssuesIncreasing: one session at a time; keys of sessions are taken to be distinct. Writes of the event file and the index that fail without a crash are not modelled, failing reservations are.
- RequestIndex.RepeatedCommandIsAnswered: commands handled one after the other; two at once with one id are both executed by the source. The time of completion is left out, and a crash before the index is written loses that completion.
- EndToEndDelivery.RunKeeps: one session between deletions; the outgoing queue of the client and the cursor of the gateway are not modelled.
- DeltaBatching.BatchingRefines: ids generated on the spot are not told apart; all events but deltas are reduced by an arbitrary function of the state.
- DeltaBatching.TypingOvertakesIff: that typing also marks the session as running is left out.
- StreamPersistence.StreamIsStored: for streams that end; one that throws is not flushed by the source. Events sent to clients meanwhile are left out.
- Migrations.Apply: file modes, backups, reports and the check for the file system root are left out, closing and deleting the lock cannot fail, and a process that dies while it holds the lock leaves it behind.
- Blobs of the mutation journal: files named by their hash, written once.
- Data from other versions of a format, which the journals refuse to load, is not part of this model.
- LLM clients, the runtime, the tool gateway, Docker, Git, HTTP, React components and the command line: plumbing around the parts above.
