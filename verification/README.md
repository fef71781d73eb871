# A verified model of exoclaw-go's conversation log, agent loop, cron service, stream assembly and parameter handling

Exoclaw-go is an agent framework. This project models its stateful core in Dafny and proves what
the parts promise to each other. Each module follows one part of the code:

- `Messages`, `Repair`, `Blocks`: messages as they come off JSON decoding, the orphan repair, and what it
  means that every assistant with calls is directly followed by its answers.
- `SessionLog`, `Consolidation`, `ConsolidationRuns`: the append-only session file, the sidecar pointer that a
  summarising policy moves over it, and every run of appends, passes, recoveries and clears.
- `Maintenance`: background passes and recoveries by any number of goroutines, interleaved step by step.
- `Compaction`, `Conversation`: budgeted clearing of tool results, recovery rewriting, and the conversation
  that prepares, stores and shows messages.
- `AgentLoop`: the turn loop over arbitrary providers, tools, hooks and stores.
- `Streaming`: assembling a response from server-sent events and from one body.
- `CronJobs`, `Cron`: one job under every run of operations, and the service that holds jobs, timer and queue.
- `Schema`, `Executor`, `TurnIds`: parameter casting and validation, the per-turn buffer with a lazily re-read
  history, and time-ordered turn ids.

The parts compose. `AgentLoop.AgentLoop.ProcessTurn` is stated over the conversation, the policy and the file:
a turn that starts from a log of whole blocks shows the provider only prompts in which every call is answered
and every answer is called for, the repair never has to drop anything, and the turn ends with such a log again,
whatever provider, tools and hooks do, provided that every persisted message with calls also has text. Without that
the log does not end as whole blocks; the differences below say why.

Code that changes state is modelled by classes and methods with the source's fields; each method is proved
against a function, a predicate or a history, and the lemmas are about those. Calls into the outside world
(provider, tools, hooks, summariser, file writes, clocks, JSON and number conversion) are parameters: functions
indexed by iteration, call or message, or flags that say whether a write succeeds. Nothing is assumed of them
unless a contract says so.

The functions that contracts are stated with are in turn characterised over the fields of messages, jobs, values and
calls, by position in the lists they come from: these are the lemmas whose names end in `Exactly`.

Conventions: a `string` is a Go string, one character per byte. White space is ASCII. Integers are unbounded;
where a width matters (int64 conversion, bytes, the scheduler's "no wake" bound) it is written out. Files are
sequences of lines. A run of operations is a sequence, read from its first element on.

## Where code and documentation differ

- The session reader documents its count as current, but appending never updates the total of a cached session,
  so the count is frozen once the session is cached (`conversation-file/session/manager.go:515-548`). The model
  follows the code: `SessionFile.cachedTotal`. `Serves` only asks that it is not ahead of the log.
- Recovery is documented next to maintenance but neither takes nor looks at the maintenance guard, and neither does
  clearing. A save overwrites whatever was saved since its load, in both directions: `UnguardedRecoveryIsUndone` and
  `GuardedPassesAreUndone` are runs in which the pointer moves back. `Maintenance.SaveLosesExactly` and
  `EverythingIsKeptExactly` say exactly when updates are lost, `SaveAcrossClear` and `UnguardedClearIsUndone` what a
  clear meets, and `GuardedInterleavingsAreSerial` what the guard does give.
- The loop stores `tool_calls` as `[]map[string]any` (`exoclaw/agent/loop.go:435-453`) while preparation tests for
  `[]any` (`conversation-file/conversation.go:528-533`), so an assistant message with calls and no text is dropped
  although its answers are stored, and the next view drops those. `Conversation.ListForm` models both forms,
  `LivePreparationKeepsBlocksExactly` and `MirrorIsCompleteExactly` say exactly when blocks stay whole, and
  `ProcessTurn` is stated under that condition (`Lasting`).
- `At` with an index below -1 passes a negative end on, which means the tail, so it answers with the first message
  of the file (`conversation-file/session/manager.go:725-733`).
- A cut at the counted total is not checked (`conversation-file/summarizing_policy.go:220-224`);
  `BoundaryIsBlockBoundExactly` says exactly when that is harmless.
- A disabled job can hold a next run (`tools/cron/service.go:595-600`), and a flush does not arm the timer again.

## Model

| member | source | states |
|---|---|---|
| Repair.RepairAndProject | conversation-file/session/manager.go:36-132 | the set-based repair followed by the projection, for every message list; a matched list is only projected |
| Repair.CollectIds | conversation-file/session/manager.go:37-57 | the declared and answered id sets, over non-empty ids |
| Messages.PairingIsExact | conversation-file/session/manager.go:37-57 | an id counts as declared when it is the non-empty id of a call of an assistant message, as answered when a tool message names it |
| Repair.SizesDecide | conversation-file/session/manager.go:58-65 | comparing set sizes with the intersection detects exactly the lists with an orphan |
| Repair.DropOrphans | conversation-file/session/manager.go:66-116 | assistants keep only matched calls, tool messages go when unmatched, everything else stays in place |
| Repair.ViewIsPaired | conversation-file/session/manager.go:36-132 | non-empty declared ids and answered ids of the output are both exactly the intersection of the input's two sets |
| Repair.ViewIsIdempotent | conversation-file/session/manager.go:36-132 | repairing and projecting twice is doing it once |
| Repair.ViewIsSelection | conversation-file/session/manager.go:36-132 | the k-th output message is the k-th survivor, projected; only unanswered calls are missing from it |
| Repair.SelectionKeepsOrder | conversation-file/session/manager.go:36-132 | survivors keep their order, and every message that is neither tool nor assistant survives |
| Repair.SurvivorsAreExact | conversation-file/session/manager.go:36-132 | a position survives if and only if nothing is orphaned at all or its message has something matched left to say |
| Repair.WhatSurvives | conversation-file/session/manager.go:66-116 | by role, calls, ids and text alone: with something orphaned, a tool message stays when its id is matched, an assistant message when it has no calls, a matched call or a text, any other message always; otherwise everything stays |
| Repair.WhatSurvivorsSay | conversation-file/session/manager.go:66-132 | a message of the view has the role, answered id, name and content, "" for a missing one, of its survivor and no other keys, and its calls unless some may be unanswered |
| Repair.WhatSurvivorsCall | conversation-file/session/manager.go:75-105 | a surviving assistant message keeps exactly its calls that are declared and answered, in order, and no empty list |
| Repair.ViewPairsTheMost | conversation-file/session/manager.go:36-132 | no other paired list over the same ids keeps more of them |
| Repair.NormalizeHistory | conversation-file/session/manager.go:139-153 | the last maxMessages messages from the first user message on, repaired |
| Repair.CutsToFirstUser | conversation-file/session/manager.go:139-153 | what is cut off is exactly what stands before the first user message, nothing when there is none |
| Repair.NormalizedStartsWithUser | conversation-file/session/manager.go:139-153 | when the window holds a user message the result starts with one and is paired |
| Blocks.CompletePairs | conversation-file/summarizing_policy.go:220-255 | a list of whole blocks has equal declared and answered ids, so the repair has nothing to drop |
| Blocks.SafeCutsAreBlockBounds | conversation-file/summarizing_policy.go:220-255 | in a complete list, a cut that is neither before a tool message nor behind an assistant with calls falls between two blocks |
| Blocks.NextSafeCut | conversation-file/summarizing_policy.go:234-253 | the least safe cut at or after a position, or the end |
| Blocks.UnsafeCutsAreAnswers | conversation-file/summarizing_policy.go:220-255 | what a repaired boundary skips in a complete list are answers |
| Blocks.CompleteRemainder | conversation-file/summarizing_policy.go:220-255 | cutting a complete prefix off a complete list leaves a complete rest |
| Blocks.RewriteKeepsBlocks | conversation-file/conversation.go:516-592 | dropping plain messages and rewriting contents, which is what preparation does, keeps blocks whole |
| Blocks.RoundsAreComplete | exoclaw/agent/loop.go:408-685 | the loop's rounds, each a call block or a reply with at most one nudge, form whole blocks |
| SessionLog.SessionFile.LoadRange | conversation-file/session/manager.go:424-466 | the messages with an index in [start, end), where blank and metadata lines have none and malformed ones have one |
| SessionLog.SessionFile.Stream | conversation-file/session/manager.go:673-722 | its own scan delivers the same messages as LoadRange; a negative end reads to the tail |
| SessionLog.SessionFile.At | conversation-file/session/manager.go:725-733 | the one message of the range [index, index + 1), nothing for a malformed line; nothing at -1, and the first message of the file below it |
| SessionLog.SessionFile.Count | conversation-file/session/manager.go:628-664 | the cached total if the session is cached, else the file scan |
| SessionLog.SessionFile.SaveAppend | conversation-file/session/manager.go:515-548 | adds the encoded lines behind what is there, with a header on a missing file, and leaves a cached total as it was |
| SessionLog.AdjacentRangesCompose | conversation-file/session/manager.go:424-466 | for any file, reading [a, b) then [b, c) is reading [a, c) |
| SessionLog.RangeOfOne | conversation-file/session/manager.go:725-733 | a range of one index holds the message at that index and nothing else |
| SessionLog.ScanCountsRecords | conversation-file/session/manager.go:628-664 | for any file the scan is the number of indexed lines plus the metadata lines behind the first of them |
| SessionLog.RecordsExactly | conversation-file/session/manager.go:424-466 | for any file the lines with an index are all but blank ones and metadata records, in order |
| SessionLog.RangeExactly | conversation-file/session/manager.go:424-466 | for any file a range yields, in order, the messages among the indexed lines from start up to end |
| SessionLog.ScannedExactly | conversation-file/session/manager.go:628-664 | the scan counts every line but blank ones and the metadata records ahead of all others |
| SessionLog.WrittenFileReadsBack | conversation-file/session/manager.go:515-548 | a written file reads back as its messages if and only if none of them looks like the metadata record |
| SessionLog.WrittenFileIsTheSequence | conversation-file/session/manager.go:424-466 | on such a file every range, the tail query and the scan answer as the sequence itself |
| SessionLog.AppendExtends | conversation-file/session/manager.go:515-548 | appending extends the held sequence and moves no index |
| Consolidation.SummarizingPolicy.RepairBoundary | conversation-file/summarizing_policy.go:220-255 | the least cut at or after the target that is the total or a safe cut; a target at the total is returned unchecked |
| Consolidation.SummarizingPolicy.SummarizeOneChunk | conversation-file/summarizing_policy.go:168-218 | one pass: new pointer, merged summary and success are those of Pass; it succeeds exactly when something is left and the summariser answers, and the chunk handed over is min(window, remaining) messages from the pointer on |
| Consolidation.SummarizingPolicy.OnTurnComplete | conversation-file/summarizing_policy.go:117-135 | the stored state changes exactly when a whole window is left, the summariser answers and the state can be saved; then to what one pass gives |
| Consolidation.SummarizingPolicy.RecoverFromOverflow | conversation-file/summarizing_policy.go:148-164 | stores what Recovered gives; reports progress exactly when the pass advanced and was saved |
| Consolidation.SummarizingPolicy.Transform | conversation-file/summarizing_policy.go:84-112 | the system message with the summary, if there is one, then the log from the pointer on |
| Consolidation.SummaryIsShown | conversation-file/summarizing_policy.go:84-112 | a system message with the heading and the stored summary, unless that is empty, and then exactly the log from the pointer |
| Consolidation.PassesExactly | conversation-file/summarizing_policy.go:117-255 | when exactly a maintenance or recovery pass changes what is stored, and where the pointer then lies: a window or the rest further, and on past tool results and messages behind an assistant with calls, no further than the count |
| Consolidation.SummarizingPolicy.DeleteState | conversation-file/consolidation_state.go:224-232 | afterwards a load starts from the empty state |
| ConsolidationRuns.StepStoresWhatThePolicyStores | conversation-file/summarizing_policy.go:117-164 | the steps of a run are the state changes of the two policy entry points |
| ConsolidationRuns.RunsStayConsistent | conversation-file/summarizing_policy.go:84-218 | after any run the passes lie end to end from 0 to the pointer, which is within the log |
| ConsolidationRuns.LogIsPartitioned | conversation-file/summarizing_policy.go:168-218 | every position is in exactly one of one summarised chunk, one repair gap, the shown tail; gap positions are tool results or directly follow an assistant with calls |
| ConsolidationRuns.PointerAdvances | conversation-file/summarizing_policy.go:168-218 | between clears the pointer never falls; a successful pass summarises exactly min(window, remaining) messages from the pointer on and raises it by at least that |
| ConsolidationRuns.RecoveriesAreBounded | conversation-file/summarizing_policy.go:148-164 | recovery passes without appends succeed at most remaining / window times, rounded up |
| ConsolidationRuns.SummaryHoldsEveryEntry | conversation-file/summarizing_policy.go:261-268 | after any run the summary is all entries since the last clear, trimmed, in order, once each |
| ConsolidationRuns.DigestOfConcat | conversation-file/summarizing_policy.go:261-268 | what such a digest is: that of two lists is the two digests in order, parted by a blank line when neither is empty |
| ConsolidationRuns.DigestOfOne | conversation-file/summarizing_policy.go:261-268 | that of one entry is the entry without outer white space |
| ConsolidationRuns.SummaryReachesThePrompt | conversation-file/summarizing_policy.go:84-112 | over runs: the repaired view starts with a system message whose text after the heading is that digest of everything summarised since the last clear |
| ConsolidationRuns.PointerStaysBetweenBlocks | conversation-file/summarizing_policy.go:220-255 | if every pass counts the log at a complete block, the pointer always lies between blocks |
| ConsolidationRuns.BoundaryIsBlockBoundExactly | conversation-file/summarizing_policy.go:220-255 | a repaired boundary of a complete log lies between blocks if and only if some position from the target up to the count is a safe cut |
| ConsolidationRuns.RunsNeedNoRepair | conversation-file/summarizing_policy.go:84-255 | end to end: after any such run the tail from the pointer pairs up and the repair only projects it |
| ConsolidationRuns.CountInsideABlockOrphansAnAnswer | conversation-file/summarizing_policy.go:220-224 | the condition matters: a possible run that counts inside a block leaves an orphaned answer in the view of a complete log |
| Conversation.PrepareTurn | conversation-file/conversation.go:516-592 | the batch with each message dropped, trimmed or stamped as PrepareOne says for its form of call list |
| Conversation.FilterParts | conversation-file/conversation.go:555-582 | text parts with the runtime tag go, inline images become a placeholder, other parts stay |
| Conversation.PartKeptExactly | conversation-file/conversation.go:555-582 | of a part: nothing for a text with the runtime tag, a placeholder for an inline image, else the part |
| Conversation.PartsKeptInOrder | conversation-file/conversation.go:555-582 | of a list: what is kept of each part, in order |
| Conversation.PersistedExactly | conversation-file/conversation.go:516-592 | by role: a persisted message keeps all but its content and gets a time stamp unless it has one; a tool text over 500 bytes is cut and marked; an assistant message goes exactly when it has no text and no calls are seen |
| Conversation.UserTextPersistedExactly | conversation-file/conversation.go:544-556 | a user text with the runtime tag is persisted as what follows its first blank line, and not at all when that is blank or missing |
| Conversation.UserPartsPersistedExactly | conversation-file/conversation.go:555-582 | a user message of parts is persisted with its kept parts, and not at all without any |
| Conversation.BatchPersistedExactly | conversation-file/conversation.go:516-592 | a batch is persisted message by message, in order, the i-th with the i-th reading of the clock |
| Conversation.PreparationKeepsBlocks | conversation-file/conversation.go:516-592 | preparing a complete list whose call lists are decoded ones leaves a complete list |
| Conversation.LivePreparationKeepsBlocksExactly | conversation-file/conversation.go:516-592 | with call lists as the loop builds them, preparing a complete list leaves a complete list if and only if every message with calls has text |
| Conversation.SpokenLikeDecoded | conversation-file/conversation.go:526-533 | when every message with calls has text, both forms of call list are prepared alike |
| Conversation.TimesDoNotMatter | conversation-file/conversation.go:255-262 | message by message and as one batch, the same messages give the same log up to timestamps |
| Conversation.DefaultConversation.Append | conversation-file/conversation.go:255-262 | the log grows by the prepared message, which may be nothing, when the write succeeds; a live call list is not seen |
| Conversation.DefaultConversation.Record | conversation-file/conversation.go:314-338 | the log grows by the prepared batch when the write succeeds |
| Conversation.DefaultConversation.History | conversation-file/conversation.go:163-221 | the policy's view of the log, repaired and projected |
| Conversation.DefaultConversation.BuildPrompt | conversation-file/conversation.go:163-221 | system message, history and user message, compacted; the user message stays last |
| Conversation.DefaultConversation.RecoverFromOverflow | conversation-file/conversation.go:388-420 | a new prompt exactly when the recovery pass moved and saved the pointer; an error exactly when a pass that moved could not be saved |
| Conversation.DefaultConversation.PostTurn | conversation-file/conversation.go:282-303 | one maintenance pass, once it has run; none on hook turns |
| Conversation.DefaultConversation.Clear | conversation-file/conversation.go:350-362 | an empty log and no sidecar, or, on a failed write, neither changed |
| Conversation.LastUserIsSpared | conversation-file/context.go:548-590 | compaction changes no position count and never touches the last user message |
| Conversation.PromptIsComplete | conversation-file/conversation.go:163-221 | from a settled, complete log every prompt is complete and nothing was repaired away |
| Conversation.PromptShowsSummary | conversation-file/conversation.go:163-221 | with a summary stored, the prompt starts with the system message and the summary message, and ends with the user message |
| Conversation.PassStaysSettled | conversation-file/summarizing_policy.go:117-164 | a pass between turns keeps pointer and count between blocks |
| Conversation.AppendingStaysSettled | conversation-file/conversation.go:255-262 | appending keeps them there when the count was cached before or is taken at a complete block |
| AgentLoop.AgentLoop.constructor | exoclaw/agent/loop.go:112-205 | 40 iterations and 3 recoveries unless positive values are given |
| AgentLoop.AgentLoop.RunTool | exoclaw/agent/loop.go:484-579 | over the hooks and the tool run: a call is answered under its own id and name by exactly the result text, with the file key exactly for a non-empty file, by the reason it was refused for whatever the tool would say, or by the error text |
| AgentLoop.AnswerSaysExactly | exoclaw/agent/loop.go:484-579 | the same of the answers that transcripts are stated with |
| AgentLoop.PersistedWithoutTransportKeys | exoclaw/agent/loop.go:580-590 | what is persisted of a message is all of it but the keys that start with an underscore |
| AgentLoop.AgentLoop.AnswerCalls | exoclaw/agent/loop.go:466-593 | k calls get exactly k answers with their ids in order, whatever hooks and tools do |
| AgentLoop.AgentLoop.TakeCalls | exoclaw/agent/loop.go:418-593 | an assistant message with the calls and then the answers, as one round; the names used are the names of its calls |
| AgentLoop.AgentLoop.TakeReply | exoclaw/agent/loop.go:594-685 | a reply ends the run, or is followed by one user nudge |
| AgentLoop.AgentLoop.Emit | exoclaw/agent/loop.go:337-342 | appends to buffer and transcript and, when persisting, to the log |
| AgentLoop.AgentLoop.Recover | exoclaw/agent/loop.go:371-404 | the messages of the overflow hook, or else the view behind the system prompt, or nothing without a session; from a log at rest the retried prompt is complete |
| AgentLoop.AgentLoop.Exchange | exoclaw/agent/loop.go:359-686 | one provider answer: every outcome keeps the run invariant, and at the recovery cap the run ends with the fixed text |
| AgentLoop.AgentLoop.ContentAtLimit | exoclaw/agent/loop.go:688-710 | the limit message when no policy is set and all iterations are used, the text or error of the policy when it says to stop |
| AgentLoop.AgentLoop.TakeResponse | exoclaw/agent/loop.go:408-685 | a response adds exactly its round: its named calls, each answered as its own hooks and tool decide, or its reply and the nudge |
| AgentLoop.NamedExactly | exoclaw/providers/types.go:52-67 | the calls taken up are exactly those whose name is not blank, in order |
| AgentLoop.CallMessageSaysExactly | exoclaw/agent/loop.go:430-460 | the assistant message of a round has the response text and reasoning and declares the id, name and arguments of each call |
| AgentLoop.CallRoundSaysExactly | exoclaw/agent/loop.go:418-593 | a round with calls is that message and the answer to each call, in order, and does not end the run |
| AgentLoop.ReplyRoundSaysExactly | exoclaw/agent/loop.go:594-685 | a round without calls: nothing for an error, else the cleaned reply, and the nudge of the first finish hook that asks for one; what content ends the run |
| AgentLoop.ClosesExactly | exoclaw/agent/loop.go:594-713 | the ways a run can close, and with what content |
| AgentLoop.DecimalReadsBack | exoclaw/agent/loop.go:303-310 | the number in the limit message reads back |
| AgentLoop.CallsMakeTheRound | exoclaw/agent/loop.go:418-593 | the assistant message and its answers are the round the response calls for |
| AgentLoop.AgentLoop.RunIterations | exoclaw/agent/loop.go:344-685 | the loop stops within the bounds, with the transcript that the provider's answers so far call for |
| AgentLoop.AgentLoop.RunAgentLoop | exoclaw/agent/loop.go:321-713 | at most MaxIterations provider calls and MaxRecoveryAttempts compactions; the k-th round of the transcript is what the k-th answer calls for, and without compaction the k-th request is the prompt and the rounds before it; toolsUsed are its call names, the log is its mirror; the content is a reply's, the overflow text, or that of the limit or the policy, each exactly when it applies |
| AgentLoop.AgentLoop.ProcessTurn | exoclaw/agent/loop.go:802-866 | a whole turn: the prompt, the rounds and requests, the content, the new messages, what the log gains and what the end-of-turn pass stores; from a log at rest the log is at rest again if and only if every persisted message with calls has text, and then every provider call saw a complete prompt |
| AgentLoop.AgentLoop.RunTurn | exoclaw/agent/loop.go:802-866 | the run inside a turn: its rounds, requests and content, and the log it leaves, whole if and only if every persisted message with calls has text |
| AgentLoop.AgentLoop.NewMessages | exoclaw/agent/loop.go:841-853 | the user message and everything after it, nothing when a compaction left less |
| AgentLoop.DropMalformed | exoclaw/providers/types.go:52-67 | exactly the calls with a non-blank name, in order |
| AgentLoop.MirrorIsCompleteExactly | exoclaw/agent/loop.go:337-342 | mirroring whole rounds onto a complete log leaves a complete log if and only if every message with calls has text |
| AgentLoop.RoundTaken | exoclaw/agent/loop.go:408-685 | a complete buffer that takes a round stays complete |
| AgentLoop.RecoveredViewIsComplete | conversation-file/conversation.go:388-420 | the prompt a recovery returns is complete |
| AgentLoop.CallNamesOfRound | exoclaw/agent/loop.go:466-467 | a round adds exactly the names of its own calls |
| Maintenance.Guard.TryEnter | conversation-file/conversation.go:425-431 | enters exactly when the session is not being consolidated |
| Maintenance.Guard.RunMaintenance | conversation-file/conversation.go:424-443 | one pass unless the session is busy; the set ends as it began |
| Maintenance.AtMostOnePass | conversation-file/conversation.go:424-460 | for any number of goroutines and any interleaving of passes, recoveries, appends and clears, the set is exactly the sessions with a pass in flight, one each |
| Maintenance.GroundedUnlessCutOff | conversation-file/summarizing_policy.go:117-218 | in every interleaving, what a goroutine counted, read and computed is what its session's log gives now, unless a clear cut it off |
| Maintenance.InterleavingsKeepSerialRuns | conversation-file/conversation.go:388-460 | passes and recoveries each load, wait for the summariser and save in steps of their own; unless a cut-off one saves, each session is as the serial run of the kept events leaves it, where a save puts what its goroutine had in view, and its own event, in the place of what was kept |
| Maintenance.LoadIsCurrentExactly | conversation-file/summarizing_policy.go:117-218 | what a goroutine has in view is all that is kept if and only if no other goroutine of the session, pass or recovery, saved since it loaded; then it still holds the stored state |
| Maintenance.SaveLosesExactly | conversation-file/summarizing_policy.go:117-218 | after a save the summary is the digest of the entries its goroutine had in view and its own; the save only adds to what was kept if and only if nothing is unread, else the last save kept is lost |
| Maintenance.EverythingIsKeptExactly | conversation-file/conversation.go:388-460 | over whole runs: everything since the last clear is kept if and only if every save was made with nothing unread; otherwise saves stay missing |
| Maintenance.InterleavingsAreSerial | conversation-file/conversation.go:388-460 | then every interleaving leaves each session as the serial run of all its passes, recoveries and appends, so no update is lost |
| Maintenance.GuardedSavesAreCurrent | conversation-file/conversation.go:424-460 | among passes only, no save has anything unread, in any interleaving, cleared or not |
| Maintenance.GuardedInterleavingsAreSerial | conversation-file/conversation.go:424-460 | what the guard gives: in a session that is neither recovered nor cleared, any number of passes interleave as a serial run |
| Maintenance.PointerOnlyMovesOn | conversation-file/conversation.go:388-460 | no step but a clear, or a save with something unread, moves the pointer of a session back, and the pointer stays within the log |
| Maintenance.UnguardedRecoveryIsUndone | conversation-file/conversation.go:388-460 | a recovery does not take the guard: recoveries that overtake a pass are undone by its save, and the pointer moves back from 4 to 2 |
| Maintenance.GuardedPassesAreUndone | conversation-file/summarizing_policy.go:148-164 | nor does it look for a pass: passes that run through between load and save of a recovery are undone by its save, and the pointer moves back from 4 to 2 |
| Maintenance.UnguardedClearIsUndone | conversation-file/conversation.go:350-362 | a clear does not take the guard either: a run in which a save undoes it and the pointer ends beyond the empty log |
| Maintenance.SaveAcrossClear | conversation-file/conversation.go:350-362 | for all runs: a save by a cut-off goroutine stores a pointer beyond that of the state it loaded and continues that state's summary, where a state, count or chunk is of the old log, as it was at the step that cut it off |
| Compaction.EstimateTokens | conversation-file/context.go:34-62 | a third of the bytes, rounded down |
| Compaction.SizeSaysExactly | conversation-file/context.go:34-62 | a message counts its text, or the texts of its parts, and the argument texts of its calls |
| Compaction.SizesAddUp | conversation-file/context.go:34-62 | messages add up |
| Compaction.CompactToolResults | conversation-file/context.go:70-128 | the prompt itself within the budget, else cleared to the budget sparing the protected messages |
| Compaction.TruncateOldestToolResults | conversation-file/context.go:189-230 | the prompt itself within the target, else cleared to it sparing none, with the number of cleared results |
| Compaction.EligibleIsExact | conversation-file/context.go:97-113 | the eligible positions are the unprotected, long, not yet cleared text tool results, each once, oldest first |
| Compaction.ClearableExactly | conversation-file/context.go:97-113 | a result may be cleared when it is a text of more than 100 bytes that is not cleared yet |
| Compaction.ProtectedExactly | conversation-file/context.go:79-95 | protected are the messages that are no system messages and have fewer than four such messages behind them |
| Compaction.ClearsExactly | conversation-file/context.go:97-127 | clearing replaces the texts of exactly the eligible results below some position, and nothing else |
| Compaction.ClearsNoMoreThanNeeded | conversation-file/context.go:115-127 | it ends within budget or with all of them cleared, and putting the last one back would exceed the budget |
| Compaction.ClearsShortestPrefix | conversation-file/context.go:115-127 | the cleared positions are the shortest oldest-first prefix of the eligible ones that brings the estimate within budget, or all; the estimate never rises |
| Compaction.ClearingChangesNothingElse | conversation-file/context.go:70-128 | nothing but the content of the cleared positions changes |
| Compaction.ZeroClearedExactly | conversation-file/context.go:189-230 | cleared is 0 exactly when the prompt is within target or nothing is eligible |
| Compaction.EachClearShrinks | conversation-file/context.go:115-127 | with a placeholder of at most 100 bytes each clearing makes the prompt smaller |
| Compaction.CompactionIsStable | conversation-file/context.go:70-128 | both passes are idempotent, and the last four non-system messages are left alone |
| Compaction.CompactionKeepsBlocks | conversation-file/context.go:70-128 | a complete prompt stays complete |
| Compaction.HasParentToolCall | conversation-file/context.go:159-176 | whether an earlier assistant declares the id |
| Compaction.DropOldestHalf | conversation-file/context.go:133-157 | the system messages, then the newer half of the others without parentless answers |
| Compaction.SummarizeOldChunks | conversation-file/context.go:252-334 | system messages, the summary as a user message, the rest and the recent messages, without parentless answers; the prompt itself where there is nothing to summarise or the summariser fails |
| Compaction.SplitsExactly | conversation-file/context.go:252-301 | nothing is summarised exactly when the prompt fits, has no more than the recent messages, or its first message exceeds the cap |
| Compaction.SplitIsLossless | conversation-file/context.go:260-301 | chunk, remaining and tail are the non-system messages in order |
| Compaction.ChunkIsMaximal | conversation-file/context.go:276-294 | the chunk is the longest prefix under the cap |
| Compaction.SeparationIsLossless | conversation-file/context.go:260-267 | system and other messages together are all messages |
| Compaction.SeparatesInOrder | conversation-file/context.go:260-267 | system messages on one side, the others on the other, each in order |
| Compaction.ParentlessGoExactly | conversation-file/context.go:133-176 | all stays, in order, but the tool messages whose id no call of an assistant message before them has |
| Compaction.OnlyParentlessGo | conversation-file/context.go:133-176 | a tool message goes exactly when no assistant before it declares its id; nothing else goes |
| Compaction.EveryAnswerHasAParent | conversation-file/context.go:133-176 | in the output every tool message has an earlier assistant that declares its id |
| Compaction.HalvingHalves | conversation-file/context.go:133-157 | system messages stay, and at most the rounded-up half of the others |
| Compaction.HalvingKeepsBlocks | conversation-file/context.go:133-157 | from a complete dialogue halving leaves a complete prompt: no call goes unanswered either |
| Compaction.SummarizingKeepsBlocks | conversation-file/context.go:252-334 | so does summarising, although a chunk may end inside a block |
| Streaming.Assembler.ProcessLine | providers/openai/provider.go:534-598 | a data line adds its chunk, the end mark is reported, every other line changes nothing |
| Streaming.Assembler.BuildResponse | providers/openai/provider.go:636-680 | joined texts and the named slots in ascending index order |
| Streaming.BuildCalls | providers/openai/provider.go:646-667 | calls are the named slots, sorted by index; unnamed ones are skipped |
| Streaming.RequestsSayExactly | providers/openai/provider.go:656-666 | each call has the id of its slot, if not empty, its name and its argument text |
| Streaming.ConsumeSSEStream | providers/openai/provider.go:497-628 | the response of the payloads before the end mark; which failures are retryable |
| Streaming.ConsumeOneShot | providers/openai/provider.go:398-474 | the response of the one body; which failures are retryable |
| Streaming.OneShotSaysExactly | providers/openai/provider.go:398-474 | the k-th call of the response has the id, None when empty, the name and the argument text of the k-th named entry of the message's list, and exactly the named entries are there; content, reasoning, finish reason and usage are those of the message |
| Streaming.IgnoredLinesChangeNothing | providers/openai/provider.go:535-547 | blank, non-data and undecodable lines can be inserted anywhere in a stream without changing its payloads or its end; a stream of nothing else is assembled, an empty one is retryable (HTML Living Standard section 9.2) |
| Streaming.NothingAfterTheEnd | providers/openai/provider.go:542-544 | nothing behind the end mark matters |
| Streaming.SlotHoldsItsParts | providers/openai/provider.go:570-592 | each slot holds the last non-empty id and name and the concatenated arguments of the parts with its own index, however indices interleave |
| Streaming.StreamHoldsItsChoices | providers/openai/provider.go:534-598 | the assembled texts, slots, finish reason and usage are those of the concatenated choices |
| Streaming.AlikeBuildTheSame | providers/openai/provider.go:636-680 | the response depends only on the joined texts and the named slots |
| Streaming.StreamEqualsOneShot | providers/openai/provider.go:387-397 | however a completion is cut into events and interleaved, streaming gives the response that the one-shot path gives |
| Streaming.StreamSaysExactly | providers/openai/provider.go:497-680 | so any stream of that completion has exactly these calls and texts as well |
| Streaming.StreamCallsSayExactly | providers/openai/provider.go:497-680 | any stream at all: each call is put together from the parts of its own index, in index order; texts are those of its choices |
| Streaming.ContentsAddUp | providers/openai/provider.go:560-568 | the text of a stream is that of its choices one after the other |
| Streaming.PartsAtExactly | providers/openai/provider.go:570-592 | the parts of an index are those with that index, in order |
| Streaming.LastNameSaysExactly | providers/openai/provider.go:570-592 | their name is the last one that is not empty |
| Streaming.ArgumentsAddUp | providers/openai/provider.go:570-592 | their argument text is theirs one after the other |
| Streaming.UsageSaysExactly | providers/openai/provider.go:549-556 | a usage report sets its three totals and the cached tokens it has |
| Streaming.LinesAddUp | providers/openai/provider.go:535-547 | until the end mark the payloads are those of the lines one after the other |
| Streaming.LineMeansExactly | providers/openai/provider.go:535-547 | a data line means its payload without outer white space: the end mark, a chunk if it decodes, else nothing; other lines mean nothing |
| CronJobs.NextRunIsLater | tools/cron/service.go:242-261 | with an evaluator that answers 0 or a later time, the next run is 0 or later |
| CronJobs.WaitsExactly | tools/cron/service.go:242-261 | a job scheduled at a reading t waits for exactly t + EveryMS, its time if that lies ahead, or what the evaluator answers, and is due from then on and not before |
| CronJobs.StepSchedules | tools/cron/service.go:335-443 | which operations schedule a job, at which of their clock readings, and which leave it waiting for nothing |
| CronJobs.StepRecords | tools/cron/service.go:335-443 | what the operations record of times, status, wake mode and listing, and what they leave alone |
| CronJobs.NextRunIsAnIntervalAway | tools/cron/service.go:242-288 | after a due event the next run of an "every" job stays a whole interval away until a new schedule |
| CronJobs.DueEventsAreSpaced | tools/cron/service.go:335-443 | two due events of an "every" job with no new schedule between them are at least EveryMS apart, in both wake modes, across restarts, re-enables and runs by hand |
| CronJobs.OnlyEnablingRevives | tools/cron/service.go:363-443 | a one-shot job that was due stays spent until it is enabled |
| CronJobs.TimeIsPast | tools/cron/service.go:242-261 | an "at" job that was due at its time and has no new schedule since never has a next run again while enabled |
| CronJobs.AtJobsAreDueOnce | tools/cron/service.go:335-443 | between two due events of an "at" job lies an enable, and a new schedule too if the first was at its time |
| CronJobs.DueAtItsTime | tools/cron/service.go:242-261 | a job whose next run starts as its time or nothing is never due before its time |
| CronJobs.EarlyJobsAreDueTwice | tools/cron/service.go:417-443 | the condition matters: a stored job with an earlier next run is due then, and once enabled due again at its time |
| Cron.FilterInPlace | tools/cron/service.go:445-453 | yields exactly the kept jobs in order although it writes into the slice it reads |
| Cron.WithoutKeeps | tools/cron/service.go:445-453 | a job is kept exactly when its id differs |
| Cron.WithoutKeepsOrder | tools/cron/service.go:445-453 | the kept jobs stay in order |
| Cron.ModesSortTheDue | tools/cron/service.go:342-358 | sorting the due jobs by the wake modes they had gives the due jobs of each mode, in store order |
| Cron.DueExactly | tools/cron/service.go:342-358 | the due jobs are the enabled ones whose next run has come, in store order |
| Cron.DueInModeExactly | tools/cron/service.go:342-358 | and of one wake mode those with that mode |
| Cron.ValidateScheduleForAdd | tools/cron/service.go:263-276 | accepts exactly the schedules that exist and whose timezone, if any, is known and on a cron expression |
| Cron.CronJob.Settle | tools/cron/service.go:417-443 | adds exactly the run event with its clock readings and outcome; the job is what its history of operations leads to, and no longer due |
| Cron.CronJob.Postpone | tools/cron/service.go:363-374 | the same for a deferral |
| Cron.CronJob.Deliver | tools/cron/service.go:387-409 | the same for the delivery of a deferred wake |
| Cron.CronJob.Update | tools/cron/service.go:561-614 | the same for an update |
| Cron.CronJob.Switch | tools/cron/service.go:618-640 | the same for an enable or disable |
| Cron.Service.constructor | tools/cron/service.go:72-78 | an empty, stopped service |
| Cron.Service.LoadStore | tools/cron/service.go:158-206 | the jobs are the stored ones, in order, with unknown wake modes and missing parts replaced by the defaults; an unreadable file is an empty store |
| Cron.CoercedExactly | tools/cron/service.go:158-206 | what is taken over of a stored job, and what a missing schedule, state or wake mode becomes |
| Cron.Service.GetNextWake | tools/cron/service.go:292-311 | the earliest next run of the enabled jobs, 0 when there is none |
| Cron.Service.Arm | tools/cron/service.go:314-333 | while running, the timer set at the clock reading just taken goes off exactly at the earliest next run, or at once when that is past |
| Cron.Service.TimerGoesOffInTime | tools/cron/service.go:292-333 | by the fields of the jobs: a timer armed since some reading goes off at the least next run of the enabled jobs, or when it was set, if later; there is none exactly when no job waits |
| Cron.Service.NoJobIsSleptThrough | tools/cron/service.go:292-333 | a timer in time goes off no later than any enabled job waits for, or at once |
| Cron.Service.ExecuteJob | tools/cron/service.go:417-443 | one more run event with readings in between and the outcome of the callback; an "at" job is dropped when marked for deletion and else disabled |
| Cron.Service.StatusSays | tools/cron/service.go:417-443 | the status is that of the callback, or the old one without a callback |
| Cron.Service.DeferJob | tools/cron/service.go:363-374 | the job is queued behind the others and its schedule advances |
| Cron.Service.TakeDueAt | tools/cron/service.go:342-358 | the due jobs, in store order, become due exactly once; the callback is called with exactly those to fire now, both the queue and its history grow by exactly those that wait for the heartbeat; the others are unchanged |
| Cron.Service.TakeDueNow | tools/cron/service.go:335-358 | the same at a clock reading taken on entry |
| Cron.Service.OnTimer | tools/cron/service.go:335-361 | the enabled jobs whose next run has come at a clock reading, and only they, become due once and the rest is unchanged; the callback is called with exactly the due jobs to fire now and the queue gains exactly those that wait for the heartbeat, in store order; given an evaluator that answers 0 or later, no enabled listed job is due any more; the timer is armed again exactly, at a reading no earlier |
| Cron.Service.Flush | tools/cron/service.go:387-409 | one delivery: readings and outcome are recorded, and a one-shot job marked for deletion leaves |
| Cron.Service.FlushDeferred | tools/cron/service.go:378-415 | the callback is called with the queue in order, with multiplicity, and the queue is emptied; each delivery adds its event, jobs outside the queue are unchanged; exactly the delivered one-shot jobs marked for deletion leave; the timer stays in time |
| Cron.Service.Start | tools/cron/service.go:86-109 | each job gains a restart event, next runs are recomputed and the timer is armed exactly |
| Cron.Service.Stop | tools/cron/service.go:112-125 | no timer is left |
| Cron.Service.AddJob | tools/cron/service.go:499-539 | an accepted job is the last one, with the given fields, and scheduled at the reading it was added: an "every" job for one interval later; a failed save reports no job but keeps it listed, unarmed |
| Cron.Service.RemoveJob | tools/cron/service.go:542-557 | exactly the jobs with that id go; re-armed exactly when one went, and the timer stays in time in any case |
| Cron.Service.UpdateJob | tools/cron/service.go:561-614 | a rejected schedule changes none; else the schedule and next run are replaced, also on a disabled job; re-armed exactly; a saved call keeps the timer in time in every case |
| Cron.Service.EnableJob | tools/cron/service.go:618-640 | the next run is recomputed or cleared; re-armed exactly; a saved call keeps the timer in time in every case |
| Cron.Service.RunJob | tools/cron/service.go:644-663 | runs exactly a found job that is enabled or forced, with one call of the callback; re-armed exactly; a saved call keeps the timer in time in every case |
| Cron.Service.ServiceSpacesJobs | tools/cron/service.go:335-443 | in every reachable service, due events of an "every" job with no new schedule between them are an interval apart |
| Cron.Service.ServiceFiresOnce | tools/cron/service.go:335-443 | in every reachable service, an "at" job that was due is due again only after an enable, and a new schedule too unless it was due before its time, which takes a stored next run that is neither 0 nor its time |
| Schema.CastObject | exoclaw/agent/tools/protocol.go:139-160 | each listed property is cast by its schema, the rest is copied |
| Schema.CastValue | exoclaw/agent/tools/protocol.go:162-241 | the recursive cast |
| Schema.TextIsCastExactly | exoclaw/agent/tools/protocol.go:162-241 | a text becomes the boolean, integer or number it reads as, and stays a text otherwise |
| Schema.ScalarIsCastExactly | exoclaw/agent/tools/protocol.go:162-241 | of the other scalars only floats change for an integer; for a string all but null is printed |
| Schema.WholeFloatIsCastExactly | exoclaw/agent/tools/protocol.go:181-188 | a whole float becomes its integer exactly within int64 |
| Schema.PartsAreCastExactly | exoclaw/agent/tools/protocol.go:139-241 | arrays and objects are cast part by part, each by its own schema |
| Schema.CastParams | exoclaw/agent/tools/protocol.go:127-137 | keeps exactly the keys; a schema of another type changes nothing |
| Schema.Validate | exoclaw/agent/tools/protocol.go:268-379 | no errors if and only if the value conforms at every depth; a type mismatch is the only error reported |
| Schema.NumberConformsExactly | exoclaw/agent/tools/protocol.go:268-330 | a number conforms when it is one, whole and within int64 for an integer, listed if there is an enum, and within the bounds |
| Schema.ScalarConformsExactly | exoclaw/agent/tools/protocol.go:268-335 | a text within the lengths, a boolean, and anything for no known type, each listed if there is an enum |
| Schema.PartsConformExactly | exoclaw/agent/tools/protocol.go:336-379 | an array whose entries conform, an object with all required keys whose listed members conform |
| Schema.ValidateParams | exoclaw/agent/tools/protocol.go:245-266 | the top level is validated as an object; missing parameters are an error, a non-object schema panics |
| Schema.MissingErrors | exoclaw/agent/tools/protocol.go:337-352 | no errors exactly when every required key is there |
| Schema.EnumErrors | exoclaw/agent/tools/protocol.go:302-314 | no errors exactly when the value is listed |
| Schema.CastIsIdempotent | exoclaw/agent/tools/protocol.go:139-241 | casting twice is casting once |
| Schema.CastKeepsShape | exoclaw/agent/tools/protocol.go:139-241 | casting loses no key and no array entry unless the schema asks for a string |
| Schema.CastKeepsTheRest | exoclaw/agent/tools/protocol.go:139-379 | casting a conforming value can only break the enum of the node itself |
| Schema.CastKeepsConformingExactly | exoclaw/agent/tools/protocol.go:139-379 | a node over parts that keep conforming values keeps them if and only if its enum is closed under the cast |
| Schema.ClosedEnumsKeepConforming | exoclaw/agent/tools/protocol.go:139-379 | with closed enums throughout, conforming values stay conforming at every depth |
| Schema.ScalarEnumsAreClosed | exoclaw/agent/tools/protocol.go:139-379 | enums on string, boolean, number and untyped nodes are closed |
| Schema.IntegerEnumIsBroken | exoclaw/agent/tools/protocol.go:181-188 | on an integer node a listed 5.0 is cast to 5 and then rejected |
| Executor.BuildLazyPriorSource | exoclaw/executor/direct.go:314-356 | succeeds exactly when a non-empty history occurs contiguously in the prompt, and splits at the leftmost occurrence |
| Executor.DirectExecutor.StateOf | exoclaw/executor/direct.go:86-96 | the state of the context, else the shared fallback, created on first use |
| Executor.DirectExecutor.AppendMessagesCtx | exoclaw/executor/direct.go:114-119 | the messages come behind the delta of that state, and its prior stays |
| Executor.DirectExecutor.LoadMessagesCtx | exoclaw/executor/direct.go:127-140 | prior as re-read now, then the delta |
| Executor.DirectExecutor.SetMessagesCtx | exoclaw/executor/direct.go:148-152 | the list replaces prior and delta |
| Executor.DirectExecutor.SetPriorSourceCtx | exoclaw/executor/direct.go:162-168 | the source replaces the prior and clears the delta |
| Executor.DirectExecutor.BuildPrompt | exoclaw/executor/direct.go:291-307 | seeds lazily when the history is found in the prompt, eagerly otherwise |
| Executor.LazyRefinesEager | exoclaw/executor/direct.go:314-356 | while re-reading returns the history, every run of appends, loads and sets sees what a plain list shows |
| Executor.PlainListExactly | exoclaw/executor/direct.go:114-152 | what the plain list is: appending adds at the end, setting replaces, loading returns it |
| Executor.SeededBufferIsThePrompt | exoclaw/executor/direct.go:291-356 | so a seeded buffer behaves as the prompt itself |
| Executor.ReloadMattersExactly | exoclaw/executor/direct.go:347-355 | a load shows the plain list if and only if re-reading returns the history it was seeded with |
| Executor.TurnsAreIsolated | exoclaw/executor/direct.go:41-51 | in any interleaving of turns, each sees only its own operations |
| Executor.OwnExactly | exoclaw/executor/direct.go:41-51 | a turn's own operations are those tagged with it, in order |
| Executor.ParallelTurnsSeeTheirPrompt | exoclaw/executor/direct.go:53-170 | both together, for any number of turns |
| TurnIds.Minter.MintTurnID | exoclaw/executor/direct.go:405-433 | the high-water mark never falls and the id is built from it |
| TurnIds.EncodeHex | exoclaw/executor/direct.go:431-432 | two digits per byte |
| TurnIds.IdIsVersionSeven | exoclaw/executor/direct.go:415-432 | version 7, variant 10, and the first six bytes decode to the clamped time if and only if it fits 48 bits (RFC 9562 section 5.7) |
| TurnIds.IdReadsBack | exoclaw/executor/direct.go:415-432 | an id reads back: its bytes are the clamped time and all random bits but the six that version and variant take |
| TurnIds.MarksNeverFall | exoclaw/executor/direct.go:406-412 | clamped times never fall, whatever the clock shows |
| TurnIds.HexAscends | exoclaw/executor/direct.go:415-432 | fixed-width hexadecimal text orders as its number |
| TurnIds.LaterIdsSortLater | exoclaw/executor/direct.go:405-433 | 12-digit prefixes of successive ids never decrease lexicographically (RFC 9562 section 6.2) |

## Left out

- Streaming.Builds: tool-call arguments are kept as raw text; decoding them is the same given function on both paths. An id that the code mints is None.
- Streaming.Slot: slots are values in the map, not shared pointers; no other code holds one.
- Schema.Validate: says when there are errors, how many on a type mismatch, not their wording or order, since the code walks maps in random order.
- Schema.Value: integers are one type (int64); an enum that lists Go `int` values next to decoded floats, NaN and infinities are not modelled, and float comparison does not round.
- Cron.Service.LoadStore: a job loaded by a new process starts a new history; runs across processes are covered by the restart event of `CronJobs`. Distinct ids are assumed, as the random id generator intends.
- Cron.Service.OnTimer: saves of the timer path are ignored by the code and so not modelled; a callback is assumed not to change the job it is given.
- Cron.Service.ListJobs: the stable sort for display would only add a library fact.
- Cron job payloads, names, the heartbeat goroutine and reloading after external edits of the store file.
- Maintenance.InterleavingsKeepSerialRuns: runs in which a goroutine that a clear cut off saves for good are excluded since the last clear (`SavesAreUncut`), here and in the lemmas that build on it; `SaveAcrossClear` says what such a save stores.
- Maintenance.Host: goroutine steps are the critical sections and single reads and writes, so a summariser call lies between steps; each file read is atomic, and clears of one session do not overlap.
- Conversation.DefaultConversation.PostTurn: the pass has run, and found the session free, when the method returns; in the code it is scheduled in the background, whose interleavings are those of `Maintenance`. The same holds for the end of `AgentLoop.AgentLoop.ProcessTurn`.
- AgentLoop.AgentLoop.ProcessTurn: the buffer follows the executor's contract; in the code the context-less append and load use another buffer than the one `BuildPrompt` seeds. `Executor` models the context methods on their own. The end-of-turn pass has run when the method returns, not in the background.
- AgentLoop.AgentLoop.NewMessages: for a conversation that cannot be appended to, the returned list is what is handed to `Record`.
- AgentLoop.AppendUser: messages whose own keys pose as the metadata record are excluded, see `SessionLog.WrittenFileReadsBack`.
- AgentLoop.IterationPolicy: a custom policy is assumed to stop for good at some iteration; without one termination is proved outright.
- AgentLoop: `Run`, dispatch, `/stop` bookkeeping, progress callbacks, logging and recovered panics in hooks.
- Consolidation.SummarizingPolicy.LoadState: migration of legacy boundaries and unreadable sidecars; the sidecar is a value or absent.
- Consolidation.Serves: policy runs are over files written by the append path; malformed lines are covered by the reader lemmas.
- Conversation: the no-op policy, prompt text, skills, memory documents and end-of-turn hooks; the compaction budget is an integer, without the floating-point headroom.
- Executor.TurnState: scratch-file paths and their removal.
- JSON marshalling, HTTP, timers, process and file I/O, request-body streaming, path sandbox and shell guard.
