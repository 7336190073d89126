# Local Pilot: a verified model of its core

Local Pilot is a Windows service that carries out an agent's operations only after local
approval. This project models the parts of it where correctness depends on more than one
function: protocols over database tables, crash and restart behaviour, paged and streamed text,
and arithmetic budgets. Each module states what the component is for as theorems over every
input, every interleaving or every run.

| module | component | main results |
|---|---|---|
| `Approvals`, `ApprovalAnswers`, `Scopes` | approval engine | every interleaving dispatches an approval at most once, only with a justifying history, and never again after a crash; each refusal has exactly one cause, and a denial or a recorded outcome is heard by the owner for ever |
| `Idempotency` | idempotency keys | two `Proceed` answers for a key are more than a day apart; in between the row answers |
| `TaskOutput`, `TaskPaging`, `LivePaging`, `Utf8` | task output log | every interleaving of the two readers is accounted for; a client that follows the next offset gets exactly the byte log from the offset it asked for or the cut, on a live log exactly while a page reaches no row behind a gap; progress holds exactly for limits of at least four bytes |
| `CommandLine` | Windows argument quoting | splitting the quoted and joined arguments gives the arguments back, for every list |
| `Redaction`, `KeyHold` | stream redactor | streaming equals batch for line-local redaction; cuts are at line ends exactly when lines are bounded; an unterminated private-key block is held from its line on, and reaches the redactor whole exactly when a newline arrives with its end marker |
| `Retention`, `Budget` | Data Shared retention | the newest rows of every active session are reserved; the size loop evicts oldest first, never a reserved row, and blocks exactly when the reserved rows do not fit; the settings budget rules that out exactly while its product does not wrap around or the limit is beyond the byte counter |
| `RemoteAccess`, `RemoteAnswers`, `GateFile` | Emergency Stop, latch and gate | `Ready` implies latch clear and sound settings; a stop holds until local consent exactly when it was persisted, and through a damaged latch row exactly when the gate was closed; a damaged gate file opens nothing |
| `Sessions`, `Grants` | sessions and grants | every held grant is backed by a recorded decision on an approval of that session under the current revision |
| `EditDistance` | fuzzy name matching | the two-row loop computes the least cost of an edit script, and that is a metric |
| `ProjectIndex`, `ProjectTable`, `Paths` | project discovery | parents precede children, each nested project has its deepest collected ancestor as parent; a rescan keeps identifiers and links every row to its parent's; over any sequence of scans the upward walk ends, at a direct child of the root unless a stale row contains the path |
| `RateLimit` | token bucket | a window of `t` seconds admits at most `c + c*t/60`; the advertised wait is exact |
| `Leases` | writer leases | one holder per project in every run under any clock; a granted lease excludes others until it lapses |
| `PolicyEvaluator`, `PolicyDecisions` | policy | the exact conditions under which an access or a command is denied, needs approval or is allowed, with its reasons, risk and warnings; severity is a maximum over the findings; denial ignores grants; a combined approval carries the highest risk and all paths; a session approval is confined to its key |

Modelling conventions. Tables are maps or sequences, clocks and generated identifiers are
inputs, and the outcome of an access that can fail is an input where failure matters. A protocol
whose calls consist of several atomic pieces is a step system over those pieces (`Approvals`,
`TaskOutput`); operations that the server runs one after the other are steps of a run
(`RemoteAccess`, `Grants`, `Leases`). Code that updates fields in place is a class whose methods
are proved against the functions that the theorems are about.

These promises turned out not to hold as stated; each has a lemma at a concrete input and one with the
exact condition:

- the reservation budget in the settings validation multiplies modulo 2^64: accepted settings block on
  five rows of 64 MiB (`Budget.FiveRowsBlock`), and no table blocks exactly when the product does not
  wrap around or the limit is 2^63 bytes or more (`Budget.NeverBlocksExactlyWhen`);
- an Emergency Stop of which neither the latch nor the closed gate was persisted does not survive a
  restart (`RemoteAccess.UnpersistedStopIsUndone`, `RemoteAccess.StopHoldsExactlyWhenPersisted`), and a
  Resume that reports a failure may already have lifted the stop
  (`RemoteAccess.RefusedResumeComesUp`, `RemoteAccess.RefusedResumeLiftsStop`);
- paging with a limit below four bytes can stay at one offset for ever
  (`TaskPaging.StuckOnOneCharacter`, `TaskPaging.ProgressExactlyFromFour`);
- on a live log a page may skip bytes for good: those reserved before, and committed after, what it has
  read (`LivePaging.InFlightByteIsSkipped`), and those dropped between its query for the row and its
  query for the chunks (`LivePaging.DroppedBetweenReads`); it does not exactly when it reaches no row
  behind a gap (`LivePaging.PageExactlyWhenNoGapReached`);
- a private-key block is not held until its line ends: if the chunk with its end marker stops before the newline,
  the redactor gets the block in two pieces (`KeyHold.KeyIsSplit`); while the buffer is small a block of several
  lines stays whole exactly when that chunk brings a newline (`KeyHold.KeyStaysWholeExactly`);
- new session limits can bring an idle-expired session back, although the comment says they never
  revive one (`Sessions.LimitsReviveAnIdleSession`, `Sessions.LimitsReviveExactly`);
- resetting the settings bumps the policy revision but keeps grants and open approvals
  (`Grants.ResetKeepsAnOldGrant`, `Grants.ResetBacksExactly`, `Grants.ResetIsHarmlessExactly`);
- a scan drops projects that no longer exist, except a row whose path differs from a listed one in the
  case of a letter outside ASCII (`ProjectTable.RenamedLeavesATwin`,
  `ProjectTable.ProjectStore.FullScan`).

Where comments and code disagree the model follows the code: an unreadable latch counts as latched
whatever the gate says (crates/workstation-server/src/state.rs:143-164), and a begin on an
idempotency key limits its bytes, not its characters.

## Model

| member | source | states |
|---|---|---|
| `Approvals.EveryRunIsJustified` | crates/workstation-server/src/approvals.rs:156-579 | in every interleaving of atomic pieces, each allow and each dispatch is justified by the events before it (same client, session, revision and snapshot as created; allowed while pending and in time; never closed; scopes held), and executions and approvals are in bijection |
| `Approvals.AtMostOneDispatch` | crates/workstation-server/src/approvals.rs:337-449 | no approval is dispatched twice and no execution id is handed out twice |
| `Approvals.LaterResumesObserve` | crates/workstation-server/src/approvals.rs:337-449 | after a dispatch every resume by the owner returns that same execution and changes nothing |
| `Approvals.DispatcherHoldsScopes` | crates/workstation-server/src/approvals.rs:406-408 | whoever gets a dispatch holds every scope of the operation, scopes being words |
| `Scopes.HoldsExactly` | crates/workstation-server/src/approvals.rs:406-408 | the check on the joined and split column passes exactly when every scope is held, scopes being words |
| `Scopes.BlankScopePasses` | crates/workstation-server/src/approvals.rs:406-408 | a scope with a blank in it would pass without being held |
| `Approvals.ClosedIsFinal` | crates/workstation-server/src/approvals.rs:295-579 | from any state, a closed approval stays closed and is neither allowed nor dispatched again |
| `Approvals.NeverRedispatched` | crates/workstation-server/src/approvals.rs:451-510 | an execution that is no longer marked dispatched never becomes so again and keeps its approval |
| `Approvals.RestartCutsOff` | crates/workstation-server/src/approvals.rs:156-169 | a restart turns dispatched rows into unknown outcomes and nothing requested before it is dispatched after it |
| `Approvals.RunKeeps` | crates/workstation-server/src/approvals.rs:156-579 | any run extends an explained history to an explained history |
| `Approvals.TablesKept` | crates/workstation-server/src/approvals.rs:172-579 | every atomic piece keeps the bijection and the faithfulness of every copy of a snapshot |
| `Approvals.HistoryKept` | crates/workstation-server/src/approvals.rs:172-579 | every atomic piece keeps each open row explained by the history |
| `Approvals.ResumeCallIsARun` | crates/workstation-server/src/approvals.rs:337-449 | a whole resume call is one read, one transaction and possibly one drop of the step system |
| `Approvals.CloseAllIsARun` | crates/workstation-server/src/approvals.rs:512-556 | a whole invalidation is a run of single closing steps |
| `Approvals.ExpireAllIsARun` | crates/workstation-server/src/approvals.rs:559-579 | a whole expiry sweep is a run of single expiring steps |
| `Approvals.ApprovalService.constructor` | crates/workstation-server/src/approvals.rs:147-169 | a new process over the stored tables has no snapshots and recovered rows |
| `Approvals.ApprovalService.StartupRecovery` | crates/workstation-server/src/approvals.rs:156-169 | open approvals become invalidated, dispatched executions unknown |
| `Approvals.ApprovalService.Create` | crates/workstation-server/src/approvals.rs:172-222 | inserts the pending row whose columns give back the snapshot, or changes nothing on a clash |
| `Approvals.ApprovalService.Decide` | crates/workstation-server/src/approvals.rs:295-334 | performs the decision transaction, with its error cases, and drops a denied snapshot |
| `Approvals.ApprovalService.BeginResume` | crates/workstation-server/src/approvals.rs:337-449 | the resume call in one piece, in the order of its checks; what each answer means is `ApprovalAnswers.RefusalSaysWhy` |
| `Approvals.ApprovalService.CompleteExecution` | crates/workstation-server/src/approvals.rs:451-471 | records the outcome of an execution row, if there is one, keeping a task id unless a new one is given |
| `Approvals.ApprovalService.Invalidate` | crates/workstation-server/src/approvals.rs:512-556 | closes exactly the matching open rows, with the status given, and drops their snapshots; every other row stays as it is |
| `Approvals.ApprovalService.ExpireSweep` | crates/workstation-server/src/approvals.rs:559-579 | expires exactly the late pending and once-allowed rows; every other row stays as it is |
| `ApprovalAnswers.StrangersHearNotFound` | crates/workstation-server/src/approvals.rs:353-368 | a resume hears that there is no such approval exactly if there is none or it belongs to another client |
| `ApprovalAnswers.RefusalSaysWhy` | crates/workstation-server/src/approvals.rs:380-413 | an owner's resume of a row without an execution hears pending exactly if it is pending, denied exactly if denied, expired exactly if expired or allowed and late, insufficient scope exactly if allowed, in time, of the same session and revision and some word of the scope column is not held; the other codes cover exactly the named rest |
| `ApprovalAnswers.ResumeSettles` | crates/workstation-server/src/approvals.rs:380-449 | a late, other-session, other-revision or snapshot-less resume leaves the row closed, any other refusal changes nothing, and a dispatch consumes a single allowance and keeps one for the session |
| `ApprovalAnswers.DecisionDoes` | crates/workstation-server/src/approvals.rs:295-334 | each error of a decision has exactly one cause; otherwise the status is the one decided, an allowance opens a new window and a denial keeps the old one |
| `ApprovalAnswers.RequestWindow` | crates/workstation-server/src/approvals.rs:172-222 | a request can be decided up to its lifetime after it was made and no longer |
| `ApprovalAnswers.AllowanceWindow` | crates/workstation-server/src/approvals.rs:295-449 | from request over allowance to dispatch: the requesting client, session and revision get through up to the lifetime of the allowance, once if it was given once |
| `ApprovalAnswers.ClosedRowStays` | crates/workstation-server/src/approvals.rs:156-579 | no interleaving rewrites a closed row |
| `ApprovalAnswers.ClosedAnswers` | crates/workstation-server/src/approvals.rs:380-386 | so its owner hears the same answer after any later run |
| `ApprovalAnswers.DenialIsHeard` | crates/workstation-server/src/approvals.rs:295-386 | after a denial in time and any run of steps the requesting client hears that it was denied |
| `ApprovalAnswers.InvalidationIsHeard` | crates/workstation-server/src/approvals.rs:512-556 | after an invalidation or a restart, and any run, it hears that the approval is no longer valid |
| `ApprovalAnswers.SweepIsHeard` | crates/workstation-server/src/approvals.rs:559-579 | the sweep makes a late pending or once-allowed row answer expired, and leaves every other row alone |
| `ApprovalAnswers.OutcomeStays` | crates/workstation-server/src/approvals.rs:451-510 | a recorded outcome is changed by no run that does not complete or reconcile that execution again |
| `ApprovalAnswers.OutcomeIsShown` | crates/workstation-server/src/approvals.rs:369-379 | after an outcome is recorded every later resume by the owner shows that very result, restarts included |
| `ApprovalAnswers.UnknownThenReconciled` | crates/workstation-server/src/approvals.rs:500-510 | a restart leaves a dispatched execution with an unknown outcome, and reconciling it records the note unless a result is there |
| `Idempotency.KeyHeldForADay` | crates/workstation-server/src/approvals.rs:583-641 | for a day after a proceed, the same call hears in-progress or the last stored result and any other call hears conflict, across restarts |
| `Idempotency.ProceedsAreADayApart` | crates/workstation-server/src/approvals.rs:583-630 | two proceeds of one key are more than a day apart |
| `Idempotency.ExpiredKeyProceeds` | crates/workstation-server/src/approvals.rs:598-625 | a begin proceeds exactly when the key has no row younger than the cut-off |
| `Idempotency.RowAnswers` | crates/workstation-server/src/approvals.rs:600-641 | every begin on a young row is answered from it |
| `Idempotency.BadKeyExactly` | crates/workstation-server/src/approvals.rs:583-600 | exactly the empty key and one of more than 200 bytes are rejected, without effect; otherwise exactly the rows of the last day and the key's own remain |
| `Idempotency.RestartSettles` | crates/workstation-server/src/approvals.rs:166-166 | after a restart no call is in progress, and finished ones keep their result |
| `Idempotency.IdempotencyKeys.IdemBegin` | crates/workstation-server/src/approvals.rs:583-630 | one begin transaction, with the rejected key lengths |
| `Idempotency.IdempotencyKeys.IdemFinish` | crates/workstation-server/src/approvals.rs:632-641 | stores the result in the row, if it still exists |
| `TaskOutput.EveryInterleavingAccounts` | crates/workstation-executor/src/manager.rs:469-525 | after any interleaving, reservations tile the offsets, the counters and the row are the sums of what was reserved and committed, and what is missing from the table lies below the cut, which is a chunk boundary |
| `TaskOutput.StepKeeps` | crates/workstation-executor/src/manager.rs:469-525 | every reserve and commit keeps that invariant |
| `TaskOutput.CommitFitsTightly` | crates/workstation-executor/src/manager.rs:498-517 | after a commit the retained bytes fit the cap and one chunk more would not |
| `TaskOutput.QuiescentLogTiles` | crates/workstation-executor/src/manager.rs:469-525 | with nothing in flight the table is stale chunks below the cut followed by exactly the reservations from the cut to the end |
| `TaskOutput.EveryCutIsEarned` | crates/workstation-executor/src/manager.rs:498-517 | in every interleaving the cut is the end of a chunk that was really dropped, and every dropped chunk ends at or below it |
| `TaskPaging.PageRefinesLog` | crates/workstation-executor/src/manager.rs:635-704 | one page holds exactly the bytes from its start to its next offset, within the limit, ending at no continuation byte, and reports more exactly when bytes remain |
| `TaskPaging.PagingRefinesLog` | crates/workstation-executor/src/manager.rs:635-704 | following the next offset ends and concatenates to the log from the start to its end |
| `TaskPaging.ScanReads` | crates/workstation-executor/src/manager.rs:655-694 | the page loop over contiguous rows reads a correct page whatever the limit |
| `TaskPaging.ScanProgresses` | crates/workstation-executor/src/manager.rs:671-690 | with room for four bytes and valid chunks the next offset moves forward |
| `TaskPaging.ProgressExactlyFromFour` | crates/workstation-executor/src/manager.rs:648-690 | progress on every quiescent log of valid text holds exactly for limits of at least four |
| `TaskPaging.StuckOnOneCharacter` | crates/workstation-executor/src/manager.rs:671-679 | one four-byte character read with less room gives an empty page and the same offset |
| `TaskPaging.TaskLog.ReserveRange` | crates/workstation-executor/src/manager.rs:470-482 | hands out the next sequence number and range and advances the counters |
| `TaskPaging.TaskLog.CommitChunk` | crates/workstation-executor/src/manager.rs:486-520 | performs the commit transaction |
| `TaskPaging.TaskLog.DropOldest` | crates/workstation-executor/src/manager.rs:503-517 | drops as few of the oldest chunks as fit the cap and moves the cut to the last of them |
| `TaskPaging.TaskLog.Output` | crates/workstation-executor/src/manager.rs:635-704 | the loop reads the page that the theorems are about, from the requested offset or the cut of an earlier read of the row, whichever is later, with at most the requested bytes if those are between 1 and 4 MiB |
| `TaskPaging.PageIsBounded` | crates/workstation-executor/src/manager.rs:655-694 | a page holds no more than its room and nothing from before its start |
| `TaskPaging.ReadToEnd` | crates/workstation-executor/src/manager.rs:635-704 | a client that calls with the next offset until no more is available gets exactly the log from the offset it asked for, or from the cut |
| `LivePaging.PageReadsExactlyWhenStored` | crates/workstation-executor/src/manager.rs:635-704 | a page whose chunks are read any number of steps after its row reads exactly the bytes it moves over if and only if no reservation that meets them is in flight or dropped by then |
| `LivePaging.PageExactlyWhenNoGapReached` | crates/workstation-executor/src/manager.rs:635-704 | the same without the answer: a page of a given size is exact if and only if it reaches no row behind a reservation that is in flight or dropped and ends above the start |
| `LivePaging.EveryPageExactlyWhenGapless` | crates/workstation-executor/src/manager.rs:635-704 | pages of every size are exact if and only if no such reservation precedes a row of the table |
| `LivePaging.DroppedBetweenReads` | crates/workstation-executor/src/manager.rs:641-656 | under a cap of one byte, a second byte committed between the two queries makes the page lose the first with nothing in flight |
| `LivePaging.InFlightByteIsSkipped` | crates/workstation-executor/src/manager.rs:469-525 | two reservations of which the second is committed first: a page from 0 moves past both and holds only the second |
| `LivePaging.ScanIsHonest` | crates/workstation-executor/src/manager.rs:655-694 | over a table with gaps a page never reads more than it moves, and reads the text it moves over exactly when the rows cover it |
| `Utf8.FloorLoop` | crates/workstation-core/src/redaction.rs:412-417 | rounds an index down to the nearest boundary |
| `Utf8.FloorIsNear` | crates/workstation-core/src/redaction.rs:412-417 | in text without four continuation bytes in a row, rounding moves at most three bytes |
| `CommandLine.SplitJoined` | crates/workstation-policy/src/command/tokenize.rs:134-219 | splitting the joined quoted arguments returns exactly the list |
| `CommandLine.JoinedIsInjective` | crates/workstation-policy/src/command/tokenize.rs:134-162 | different argument lists have different command lines |
| `CommandLine.VerbatimExactlyWhen` | crates/workstation-policy/src/command/tokenize.rs:135-141 | copying an argument unquoted is right exactly when it is non-empty without blank, tab or quote |
| `CommandLine.QuotesOnlyWhenNeeded` | crates/workstation-policy/src/command/tokenize.rs:134-141 | an argument is left unquoted exactly when it is non-empty without blank, tab, newline, vertical tab or quote |
| `CommandLine.DoubledQuote` | crates/workstation-policy/src/command/tokenize.rs:165-219 | inside quotes two quotes are one and the argument goes on |
| `CommandLine.BlanksCollapse` | crates/workstation-policy/src/command/tokenize.rs:165-219 | any number of blanks and tabs separates two arguments, and leading ones mean nothing |
| `CommandLine.SplitShrinks` | crates/workstation-policy/src/command/tokenize.rs:165-219 | splitting never adds characters and loses some at each quote and unquoted separator |
| `CommandLine.QuoteArg` | crates/workstation-policy/src/command/tokenize.rs:134-162 | the loop computes the quoted form |
| `CommandLine.SplitWindowsArgs` | crates/workstation-policy/src/command/tokenize.rs:165-219 | the index loop computes the split |
| `CommandLine.JoinArgs` | crates/workstation-server/src/tools/process.rs:290-294 | quoting each argument and joining with blanks builds the command line |
| `CommandLine.QuoteThenSplit` | crates/workstation-policy/src/command/tokenize.rs:134-219 | the quoting, joining and splitting loops compose to the identity on every list |
| `Redaction.StreamRefinesBatch` | crates/workstation-core/src/redaction.rs:352-402 | for valid text with bounded lines, any chunking and any line-local redaction, the stream emits the redaction of the whole |
| `Redaction.ReportRefinesBatch` | crates/workstation-core/src/redaction.rs:373-382 | and the report at the end is that of the whole text |
| `Redaction.FeedConserves` | crates/workstation-core/src/redaction.rs:354-371 | released and pending bytes together are exactly the bytes pushed, in order |
| `Redaction.FeedCutsAtLines` | crates/workstation-core/src/redaction.rs:384-402 | with bounded lines every released block ends at a line end |
| `Redaction.CutsAtLinesExactlyWhenBounded` | crates/workstation-core/src/redaction.rs:384-402 | every chunking of a text is cut only at line ends exactly when its lines are bounded |
| `Redaction.LongLineIsSplit` | crates/workstation-core/src/redaction.rs:396-401 | for any text with an overlong line there is a chunking that cuts inside it |
| `Redaction.PendingIsBoundedForText` | crates/workstation-core/src/redaction.rs:349-402 | with chunks of at most k bytes of valid text, at most the hold limit plus k stay pending |
| `Redaction.StreamRedactor.Push` | crates/workstation-core/src/redaction.rs:354-362 | releases the redaction of everything before the safe cut, adds its replacements to the report and keeps the rest |
| `Redaction.StreamRedactor.Finish` | crates/workstation-core/src/redaction.rs:365-371 | releases the redaction of what is pending, adds its replacements to the report and keeps nothing |
| `Redaction.StreamRedactor.CutPoint` | crates/workstation-core/src/redaction.rs:384-402 | finds the safe cut, which `KeyHold.KeyIsHeldBack` and `KeyHold.CutIsExact` determine |
| `KeyHold.KeyIsHeldBack` | crates/workstation-core/src/redaction.rs:386-395 | with a begin marker, no end marker from there on and a small buffer, the cut is where the line of the first begin marker starts |
| `KeyHold.CutIsExact` | crates/workstation-core/src/redaction.rs:397-401 | otherwise it is behind the last newline, or without one within three bytes of 512 before the end of an overlong buffer, or nowhere |
| `KeyHold.KeyStaysWholeExactly` | crates/workstation-core/src/redaction.rs:340-402 | for every chunking of valid text with one begin marker and a key of several lines, whose end marker is reached before the buffer holds 64 KiB, no released block ends between the markers exactly when the push that completes the end marker also brings a newline from there on |
| `KeyHold.SmallKeyIsRoomy` | crates/workstation-core/src/redaction.rs:386-395 | the buffer stays that small if key, longest line and largest chunk together are |
| `KeyHold.OneLineKeyStaysWhole` | crates/workstation-core/src/redaction.rs:396-401 | a key on one line is split by no chunking of valid text with bounded lines |
| `KeyHold.KeyIsSplit` | crates/workstation-core/src/redaction.rs:386-395 | two chunks of which the first ends right behind the end marker: the key is released in two blocks |
| `Retention.EvictionOutcome` | crates/workstation-audit/src/lib.rs:752-804 | the size loop keeps every reserved row and deletes a prefix of the unreserved rows by age; while the total can be counted it ends within the limit or with only reserved rows and blocks exactly when those do not fit, and a total beyond the counter is left alone |
| `Retention.OneBatchTooFarAtMost` | crates/workstation-audit/src/lib.rs:761-781 | with two hundred rows fewer gone the table would not fit yet |
| `Retention.ReservedAreNewest` | crates/workstation-audit/src/lib.rs:753-760 | every kept identifier belongs to a row of an active session; of each exactly the limit or all its rows are kept, and no unkept row of it is newer than a kept one |
| `Retention.OwnRowsKept` | crates/workstation-audit/src/lib.rs:753-760 | a row of an active session is kept exactly if it is among the last of its session |
| `Retention.AgedOrdered` | crates/workstation-audit/src/lib.rs:743-751 | exactly the rows from the cut-off on stay, in order |
| `Retention.CutoffIsDaysBack` | crates/workstation-audit/src/lib.rs:743-751 | the cut-off is the configured number of days back, as long as that is a 64-bit time |
| `Retention.AuditStore.RunRetention` | crates/workstation-audit/src/lib.rs:743-813 | a run drops exactly the aged rows, reserves the newest rows of the active sessions, evicts to fit in whole batches, records exactly as many removals for age and for size as it made, dated by the cut-off or by a row that went, and exactly the active sessions it truncated, and sets the admission flag and the fault |
| `Retention.AuditStore.EvictToFit` | crates/workstation-audit/src/lib.rs:761-803 | the batch loop ends and evicts no more batches than needed, by the byte count that reads zero on overflow |
| `Retention.AuditStore.DeleteBatch` | crates/workstation-audit/src/lib.rs:780-795 | deletes exactly the oldest unreserved rows of the batch and names the active sessions that lost rows |
| `Retention.AuditStore.Reserve` | crates/workstation-audit/src/lib.rs:753-760 | on an ordered table reserves exactly the newest rows of each active session, up to the limit, and nothing else |
| `Retention.AuditStore.RecordTruncated` | crates/workstation-audit/src/lib.rs:797-803 | records one boundary per truncated session and counts no removal |
| `Retention.AuditStore.RecordShare` | crates/workstation-audit/src/lib.rs:506-550 | admits a row exactly when there is no fault and no block and the insert succeeds, makes a failed insert a fault, and keeps the table ordered |
| `Budget.NeverBlocksExactlyWhen` | crates/workstation-core/src/config.rs:566-573 | under accepted settings no table within the declared sizes blocks admission exactly when the true product is below 2^64 or the limit is at least 2^63 |
| `Budget.AcceptedNeverBlocks` | crates/workstation-server/src/lib.rs:997-1016 | a retention run under such settings never blocks, and ends within the limit exactly when the counter could hold the total or that was within the limit |
| `Budget.KeptFits` | crates/workstation-core/src/config.rs:566-573 | the reserved rows fit in half of the limit |
| `Budget.OverfullTable` | crates/workstation-core/src/config.rs:566-573 | once the product has wrapped around there is a fully reserved table within the declared sizes of one byte more than a countable limit |
| `Budget.FiveRowsBlock` | crates/workstation-audit/src/lib.rs:761-813 | accepted settings under which five rows of 64 MiB of one active session end in a block |
| `Budget.WrappedProductIsAccepted` | crates/workstation-core/src/config.rs:546-588 | validation accepts settings whose product wraps around to zero |
| `Budget.AcceptedExactly` | crates/workstation-core/src/config.rs:546-588 | settings pass exactly when every limit is in range and the wrapped product is at most half of the byte limit |
| `Budget.PolicyIsOfDataShared` | crates/workstation-server/src/lib.rs:997-1016 | retention works with the Data Shared days and megabytes, and with no row limit exactly when the number is negative to the database |
| `RemoteAccess.ReadyIsSafe` | crates/workstation-server/src/lib.rs:216-524 | in every run Ready implies a clear latch and sound settings, and the listener is open exactly in Ready |
| `RemoteAccess.StopHoldsExactlyWhenPersisted` | crates/workstation-server/src/lib.rs:411-442 | after a stop nothing but a local resume or enable reaches Ready while the latch row is intact, exactly when the latch or the closed gate was persisted or access was barred before |
| `RemoteAccess.StopSurvivesDamageExactlyWhenClosed` | crates/workstation-server/src/state.rs:143-164 | if the latch row may become malformed, which reads as clear, the stop holds exactly when the gate was closed |
| `RemoteAccess.UnpersistedStopIsUndone` | crates/workstation-server/src/lib.rs:411-442 | a stop without a successful write, a crash and a start end in Ready |
| `RemoteAccess.ClosedRunsStayClosed` | crates/workstation-server/src/lib.rs:216-236 | a closed gate alone bars every run without consent, whatever else is damaged |
| `RemoteAccess.BarredRunsStayBarred` | crates/workstation-server/src/lib.rs:216-236 | while latch or gate bars access, no run without consent or loss of the latch reaches Ready |
| `RemoteAccess.LatchNeedsResume` | crates/workstation-server/src/lib.rs:482-490 | an intact latch outlasts every run without a resume, attempts to enable included |
| `RemoteAccess.RefusedResumeLiftsStop` | crates/workstation-server/src/lib.rs:445-463 | a resume that reports a failure has lifted the stop exactly when it cleared the latch and the gate is open |
| `RemoteAccess.RefusedResumeComesUp` | crates/workstation-server/src/lib.rs:445-463 | a resume refused at its audit record, a crash and a start end in Ready |
| `RemoteAccess.Core.StartCore` | crates/workstation-server/src/lib.rs:216-236 | startup decides between stopped, faulted, listening and paused |
| `RemoteAccess.Core.LoadSettings` | crates/workstation-core/src/config.rs:619-660 | damaged settings become the defaults plus a fault |
| `RemoteAccess.Core.StartHttp` | crates/workstation-server/src/lib.rs:351-372 | opens the listener and becomes Ready, or changes nothing |
| `RemoteAccess.Core.StopNow` | crates/workstation-server/src/lib.rs:411-442 | stops, persists what it can, and keeps a visible fault otherwise |
| `RemoteAccess.Core.ResumeAccess` | crates/workstation-server/src/lib.rs:445-463 | clears the latch, opens the gate and listens, stopping at the first failure |
| `RemoteAccess.Core.EnableAccess` | crates/workstation-server/src/lib.rs:482-490 | refuses while latched, otherwise resumes |
| `RemoteAccess.Core.PauseAccess` | crates/workstation-server/src/lib.rs:466-478 | closes the gate and the listener, or changes nothing if the gate cannot be written |
| `RemoteAccess.Core.RestartListener` | crates/workstation-server/src/lib.rs:493-524 | comes back only if it was ready or the gate allows it, and never out of a stop |
| `RemoteAccess.Core.ChangeSettings` | crates/workstation-server/src/lib.rs:844-885 | replaces the settings and restarts the listener when the network changed while ready |
| `RemoteAccess.Core.ResetToDefaults` | crates/workstation-server/src/lib.rs:888-902 | restores the defaults and leaves a fault for paused |
| `RemoteAnswers.StartComesUpExactly` | crates/workstation-server/src/lib.rs:216-236 | startup ends in Ready, Faulted, EmergencyStopped or Paused exactly under the conditions on latch, gate, settings and listener; a latch outranks damaged settings |
| `RemoteAnswers.FailedRecoveryStartsNothing` | crates/workstation-server/src/lib.rs:239-243 | a failed recovery starts nothing |
| `RemoteAnswers.RestartComesBackExactly` | crates/workstation-server/src/lib.rs:493-524 | a restart of the listener comes back exactly if it was up or the gate invites it, and stays stopped if it was |
| `RemoteAnswers.StopDoes` | crates/workstation-server/src/lib.rs:411-442 | a stop closes the listener whatever fails, writes what it can and leaves a visible fault otherwise |
| `RemoteAnswers.ResumeAnswersExactly` | crates/workstation-server/src/lib.rs:445-463 | each refusal of a resume has exactly one cause; without any it ends in Ready with latch clear and gate open |
| `RemoteAnswers.EnableIsResumeUnlessLatched` | crates/workstation-server/src/lib.rs:482-490 | enabling is a resume that a set or unreadable latch vetoes |
| `RemoteAnswers.StopThenResume` | crates/workstation-server/src/lib.rs:411-463 | a stop and a resume with everything working end in Ready |
| `RemoteAnswers.PauseHolds` | crates/workstation-server/src/lib.rs:466-478 | after a pause that closed the gate no run without local consent reaches Ready |
| `RemoteAnswers.FailedPauseDoesNothing` | crates/workstation-server/src/lib.rs:466-478 | a pause that cannot close the gate does nothing |
| `RemoteAnswers.UpdateDoes` | crates/workstation-server/src/lib.rs:844-885 | saved settings take effect, clear a settings fault, survive a restart, and move the listener exactly if the network changed while it was up; unsaved ones change nothing |
| `RemoteAnswers.ResetDoes` | crates/workstation-server/src/lib.rs:888-902 | a saved reset restores the defaults and turns a fault, and only that, into a pause |
| `GateFile.ReadsWhatWasWritten` | crates/workstation-server/src/state.rs:96-128 | a written record reads back as its value |
| `GateFile.TruncatedReadsAsNothing` | crates/workstation-server/src/state.rs:96-119 | a record cut before the end of its digest reads as nothing |
| `GateFile.OnlyGenuineRecordsAreRead` | crates/workstation-server/src/state.rs:104-119 | a value is read only from a file that starts with a genuine record of it, with either kind of line end |
| `GateFile.ForgedReadsAsNothing` | crates/workstation-server/src/state.rs:104-119 | exchanging the value under an old digest reads as nothing unless the digests collide |
| `Sessions.ResolveIsLive` | crates/workstation-server/src/sessions.rs:91-135 | a resolved session is live and the caller's, and no grant survives an expiry |
| `Sessions.LimitsReviveExactly` | crates/workstation-server/src/sessions.rs:312-319 | new limits never extend an absolute expiry, and revive a session exactly when only its old idle time had run out |
| `Sessions.LimitsReviveAnIdleSession` | crates/workstation-server/src/sessions.rs:312-319 | a session idle-expired at 20 is live again under a longer idle time |
| `Sessions.EndsTheExpired` | crates/workstation-server/src/sessions.rs:297-309 | ending by identifier ends exactly the expired sessions |
| `Sessions.FreshLifetime` | crates/workstation-server/src/sessions.rs:43-50 | a session left alone lives for exactly the shorter of its two limits, and the absolute one is named first |
| `Sessions.ClashMakesNoSession` | crates/workstation-server/src/sessions.rs:91-135 | a clash of identifiers makes no session and still drops the expired one |
| `Sessions.ActivityDoes` | crates/workstation-server/src/sessions.rs:166-189 | activity restarts the idle time of the live sessions it names and touches no other |
| `Sessions.ActivityNeverRevives` | crates/workstation-server/src/sessions.rs:166-189 | an expired session stays expired under any activity |
| `Sessions.LimitsDo` | crates/workstation-server/src/sessions.rs:312-319 | under new limits a session lives exactly within its old absolute expiry and both new limits, grants kept |
| `Sessions.SessionService.ResolveSession` | crates/workstation-server/src/sessions.rs:91-135 | returns the current session or replaces an expired one, reporting it |
| `Sessions.SessionService.GrantTo` | crates/workstation-server/src/sessions.rs:191-214 | the grant goes to the one session with that identifier, if it is active |
| `Sessions.SessionService.Sweep` | crates/workstation-server/src/sessions.rs:297-309 | exactly the expired sessions are gone |
| `Grants.EveryGrantIsBacked` | crates/workstation-server/src/lib.rs:736-865 | in every run without a reset each grant comes from a recorded session-wide decision on an approval of that session under the current revision, with the scope it asked for |
| `Grants.StepKeepsExactly` | crates/workstation-server/src/lib.rs:545-902 | an operation keeps the invariant behind backed grants exactly unless it is a saved reset while a grant is held or an approval is pending for an active session |
| `Grants.RevisionBumpCleans` | crates/workstation-server/src/lib.rs:844-865 | a relevant change of settings leaves no grant and no open approval, and ends no session |
| `Grants.ResetKeepsExactly` | crates/workstation-server/src/lib.rs:888-902 | a saved reset keeps that invariant exactly when no grant is held and no approval is pending for an active session |
| `Grants.ResetBacksExactly` | crates/workstation-server/src/lib.rs:888-902 | right after a saved reset all grants are backed exactly when none is held |
| `Grants.ResetIsHarmlessExactly` | crates/workstation-server/src/lib.rs:888-902 | after a saved reset all grants stay backed in every later run without another, exactly when no grant was held and no approval pending for an active session |
| `Grants.OpenApprovalsAreCurrent` | crates/workstation-server/src/lib.rs:684-865 | in every run without a reset all open approvals are of the current revision |
| `Grants.ResetKeepsAnOldGrant` | crates/workstation-server/src/lib.rs:888-902 | connect, request, allow for the session, reset: the grant of an older revision is still held |
| `Grants.RestartCleans` | crates/workstation-server/src/lib.rs:239-243 | a restart leaves no grant and no open approval, whatever revision is loaded |
| `Grants.DecideDoes` | crates/workstation-server/src/lib.rs:736-781 | a decision in time is recorded once; only an allowance for the session grants, and then the scope asked for, to that session alone; a denial drops the snapshot |
| `Grants.VainDecisionGrantsNothing` | crates/workstation-server/src/lib.rs:736-781 | a late decision or one on nothing pending is not recorded and grants nothing |
| `Grants.HeartbeatDoes` | crates/workstation-server/src/lib.rs:984-988 | a heartbeat keeps exactly the live sessions of its client alive for another idle time |
| `Grants.ChangeDoes` | crates/workstation-server/src/lib.rs:844-865 | new limits hold for later sessions too, and an irrelevant change touches neither revision, grants nor approvals |
| `Grants.EndSessionDoes` | crates/workstation-server/src/lib.rs:633-653 | ending a session ends it alone and cancels exactly its open approvals |
| `Grants.RemoveClientDoes` | crates/workstation-server/src/lib.rs:655-663 | removing a client ends exactly its sessions and cancels exactly its open approvals |
| `Grants.EndCredentialDoes` | crates/workstation-server/src/sessions.rs:288-290 | ending a credential ends exactly its sessions and closes no approval |
| `Grants.EndEverythingDoes` | crates/workstation-server/src/lib.rs:391-408 | ending everything leaves no session and no open approval |
| `Grants.SweepDoes` | crates/workstation-server/src/sessions.rs:297-309 | a sweep ends exactly the expired sessions and leaves none of their approvals open |
| `Grants.ReconnectCloses` | crates/workstation-server/src/lib.rs:545-616 | a reconnect on an expired session ends it and leaves none of its approvals open |
| `Grants.Core.DecideApproval` | crates/workstation-server/src/lib.rs:736-781 | records the decision and grants the approval's scope to its session, keeping every grant backed |
| `Grants.Core.ChangeSettings` | crates/workstation-server/src/lib.rs:844-865 | applies limits, and on a relevant change bumps the revision, revokes all grants and closes all open approvals |
| `EditDistance.Levenshtein` | crates/workstation-index/src/lib.rs:984-997 | the two-row loop returns the least cost of any edit script |
| `EditDistance.LevIsDistance` | crates/workstation-index/src/lib.rs:984-997 | the recurrence is achieved by a script and no script is cheaper |
| `EditDistance.DistanceIsAMetric` | crates/workstation-index/src/lib.rs:984-997 | zero exactly for equal texts, symmetric, triangle inequality |
| `EditDistance.Compose` | crates/workstation-index/src/lib.rs:984-997 | two scripts combine into one that costs no more than both |
| `ProjectIndex.FullScanIsGood` | crates/workstation-index/src/lib.rs:402-445 | parents are listed before children and each nested project has its deepest collected strict ancestor as parent |
| `ProjectIndex.ScanListsExactly` | crates/workstation-index/src/lib.rs:402-420 | the scan lists exactly the direct children and the marked directories within reach |
| `ProjectIndex.ScanListsByDepth` | crates/workstation-index/src/lib.rs:946-975 | below a direct child it lists exactly the marked directories at most three levels down that are reached without a skipped one |
| `ProjectIndex.LeadsIsVisible` | crates/workstation-index/src/lib.rs:946-975 | the depth limit of the recursion is a bound on the length of the path |
| `ProjectIndex.NestedIsGood` | crates/workstation-index/src/lib.rs:946-975 | the recursion keeps the list good and adds only below the directories it visits |
| `ProjectIndex.CollectNested` | crates/workstation-index/src/lib.rs:946-975 | the recursive loop computes the listing that the theorems are about |
| `ProjectIndex.CollectAll` | crates/workstation-index/src/lib.rs:402-417 | so does the loop over the root |
| `ProjectTable.ProjectStore.FullScan` | crates/workstation-index/src/lib.rs:402-445 | every listed project has one row linked to its parent's row, a path that had a row keeps its identifier, and only case twins of listed paths remain besides, exactly if there were any |
| `ProjectTable.RescanDoes` | crates/workstation-index/src/lib.rs:402-445 | the same for the scan as a function of the table and the tree |
| `ProjectTable.RescansKeep` | crates/workstation-index/src/lib.rs:402-445 | over any sequence of scans of any trees, identifiers and paths stay unique and every link between rows leads to a path strictly above |
| `ProjectTable.UpsertDoes` | crates/workstation-index/src/lib.rs:456-505 | an upsert gives one path its row and parent and leaves every other row alone |
| `ProjectTable.RenamedLeavesATwin` | crates/workstation-index/src/lib.rs:418-435 | a scan after renaming a directory from an upper-case to a lower-case accented letter adds a row and keeps the old one |
| `ProjectTable.ParentRow` | crates/workstation-index/src/lib.rs:388-399 | the parent of a listed row is a listed row strictly above, and only direct children of the root have none |
| `ProjectTable.ProjectStore.ProjectForPath` | crates/workstation-index/src/lib.rs:378-385 | returns a longest project containing the path, if any does |
| `ProjectTable.LongestIsDeepest` | crates/workstation-index/src/lib.rs:378-385 | which is inside all others containing it, if no stale row contains it |
| `ProjectTable.ProjectStore.TopProjectForPath` | crates/workstation-index/src/lib.rs:388-399 | on every table that scans can leave, the upward walk ends at a project containing the path, and at a direct child of the root if no stale row contains it |
| `RateLimit.WindowIsBounded` | crates/workstation-server/src/ratelimit.rs:30-49 | after any history the requests of one key admitted within t seconds are at most the capacity plus its refill |
| `RateLimit.WaitIsExact` | crates/workstation-server/src/ratelimit.rs:42-46 | a refused key is admitted after a whole number of seconds exactly when it is no less than the advertised wait |
| `RateLimit.WaitSuffices` | crates/workstation-server/src/ratelimit.rs:42-46 | any time from the advertised wait on will do |
| `RateLimit.BurstIsServed` | crates/workstation-server/src/ratelimit.rs:30-49 | of simultaneous requests exactly as many as whole tokens get through, so the bound is met |
| `RateLimit.FreshKeyBurst` | crates/workstation-server/src/ratelimit.rs:30-49 | a new key gets its whole limit at once and no more |
| `RateLimit.LimitOfNought` | crates/workstation-server/src/ratelimit.rs:30-49 | a limit of nought counts as one, and other keys are not touched |
| `RateLimit.RateLimiter.Check` | crates/workstation-server/src/ratelimit.rs:30-69 | one request: the bucket afterwards, the refusal with its wait, and the spent token when only concurrency refuses |
| `RateLimit.RateLimiter.CheckAnonymous` | crates/workstation-server/src/ratelimit.rs:73-89 | the same bucket rule under the prefixed key |
| `Leases.EveryRunHasOneHolder` | crates/workstation-server/src/leases.rs:43-140 | without multiple writers every reachable table has one holder per project, expired leases included, under any clock |
| `Leases.StepKeepsOneHolder` | crates/workstation-server/src/leases.rs:43-140 | an operation keeps one holder exactly unless it is a multiple-writer acquire against another's live lease |
| `Leases.RenewRevivesNoConflict` | crates/workstation-server/src/leases.rs:120-130 | a heartbeat never revives a conflicting lease |
| `Leases.RenewRevivesConflict` | crates/workstation-server/src/leases.rs:120-130 | with multiple writers allowed once, it can |
| `Leases.GrantExcludesOthers` | crates/workstation-server/src/leases.rs:43-78 | a granted lease refuses every exclusive acquire by another client until its time is up |
| `Leases.ReleasesExactly` | crates/workstation-server/src/leases.rs:95-140 | a release removes exactly the leases of a task or client, a listing exactly the expired ones, a clear all |
| `Leases.GrantLapses` | crates/workstation-server/src/leases.rs:43-78 | on a project without other leases another client gets in exactly from the expiry on |
| `Leases.RenewMovesExactly` | crates/workstation-server/src/leases.rs:120-130 | a heartbeat moves the expiry of exactly the leases of its task |
| `Leases.ReacquireExtends` | crates/workstation-server/src/leases.rs:43-78 | acquiring again for the same task moves the expiry of the lease later or leaves it, never earlier |
| `Leases.LeaseManager.AcquireLease` | crates/workstation-server/src/leases.rs:43-78 | prunes, refuses naming a live holder in the way, or adds or extends the lease |
| `Leases.LeaseManager.RenewTask` | crates/workstation-server/src/leases.rs:120-130 | moves the expiry of a task's leases |
| `Leases.LeaseManager.ReleaseTaskLeases` | crates/workstation-server/src/leases.rs:95-102 | exactly the leases of one task are gone, no project is left with an empty list, and one holder per project is kept |
| `Leases.LeaseManager.ReleaseClientLeases` | crates/workstation-server/src/leases.rs:104-111 | exactly the leases of one client are gone, no project is left with an empty list, and one holder per project is kept |
| `Leases.LeaseManager.ListLeases` | crates/workstation-server/src/leases.rs:132-140 | lists exactly the live leases, after dropping the others |
| `PolicyEvaluator.SeverityIsAMaximum` | crates/workstation-policy/src/evaluator.rs:339-663 | without grants a joined command is exactly as severe as the severer part |
| `PolicyEvaluator.SeverityIgnoresOrder` | crates/workstation-policy/src/evaluator.rs:386-664 | severity depends on the set of findings only |
| `PolicyEvaluator.DenyIgnoresGrants` | crates/workstation-policy/src/evaluator.rs:339-664 | whether a command is denied, and why, does not depend on session grants |
| `PolicyEvaluator.FsDenyIgnoresGrants` | crates/workstation-policy/src/evaluator.rs:202-295 | the same for a structured access; when it is denied at all is `PolicyDecisions.FsDecidesExactly` |
| `PolicyDecisions.FsDecidesExactly` | crates/workstation-policy/src/evaluator.rs:202-295 | an access is denied exactly for a mutation under a settings fault, control data, a guarded path that is neither inspected nor an excepted mutation, or a cache area of another; it needs approval exactly if it mutates something external under no local grant of its kind and no session grant; it is allowed otherwise, and code and warning name the cause |
| `PolicyDecisions.FsAsksFor` | crates/workstation-policy/src/evaluator.rs:248-290 | the requirement names that path, a higher risk for a removal, and a scope of that kind on its directory |
| `PolicyDecisions.NoRemovalWithoutGrant` | crates/workstation-policy/src/evaluator.rs:248-290 | local grants without deletion never let a delete or a move source through |
| `PolicyDecisions.PathWeighs` | crates/workstation-policy/src/evaluator.rs:536-598 | when a reference in a command forbids it or needs approval |
| `PolicyDecisions.FindingWeighsExactly` | crates/workstation-policy/src/evaluator.rs:388-598 | when a finding alone forbids a command or needs approval: credentials, administration, disclosure, install policy, Git, GitHub and paths |
| `PolicyDecisions.GateDecides` | crates/workstation-policy/src/evaluator.rs:348-374 | the checks of the working directory and of the settings come first, and switching shell checks off only skips the rest |
| `PolicyDecisions.CommandDeniedExactly` | crates/workstation-policy/src/evaluator.rs:339-664 | a checked command is denied exactly when one of its findings alone forbids it |
| `PolicyDecisions.CommandAsksExactly` | crates/workstation-policy/src/evaluator.rs:339-664 | without grants it needs approval exactly when it is not denied and a finding needs it, or it cannot be parsed or is dynamic outside the workspace |
| `PolicyDecisions.RiskIsHighExactly` | crates/workstation-policy/src/evaluator.rs:628-649 | the risk shown is high exactly when the command holds a system change, a destructive GitHub action, a risky Git operation or a deletion that needs consent |
| `PolicyDecisions.AskedPathsAreShown` | crates/workstation-policy/src/evaluator.rs:628-649 | every path that needs approval is among the paths shown |
| `PolicyDecisions.RoamingShowsDirectory` | crates/workstation-policy/src/evaluator.rs:388-631 | when running outside the workspace is part of what needs approval, the working directory is among the paths shown |
| `PolicyDecisions.ReasonsAreShown` | crates/workstation-policy/src/evaluator.rs:628-649 | a combined requirement gives exactly the reasons of its parts |
| `PolicyDecisions.NoRepeatedNeighbour` | crates/workstation-policy/src/evaluator.rs:628-649 | its paths never repeat from one to the next |
| `PolicyDecisions.FirstDenialSaysWhy` | crates/workstation-policy/src/evaluator.rs:388-598 | the first forbidding finding gives the code, in the order category, attribution, Git |
| `PolicyDecisions.GrantedPartsAreAllowed` | crates/workstation-policy/src/evaluator.rs:646-664 | grants that cover every part let a command through although none covers it as a whole |
| `PolicyDecisions.AllowedWarnsExactly` | crates/workstation-policy/src/evaluator.rs:386-664 | an allowed command carries exactly the warnings of its findings, whether it could not be parsed, and whether it would have needed approval |
| `PolicyEvaluator.CombinedCarriesAll` | crates/workstation-policy/src/evaluator.rs:628-649 | a combined requirement carries the highest risk, exactly the paths of its parts, and an exact scope |
| `PolicyEvaluator.CommandApprovalSticks` | crates/workstation-policy/src/evaluator.rs:646-664 | approving a command for the session binds an exact key and lets that command through |
| `PolicyEvaluator.FsApprovalSticks` | crates/workstation-policy/src/evaluator.rs:248-290 | approving an access for the session lets it through |
| `PolicyEvaluator.ApprovalIsConfined` | crates/workstation-policy/src/evaluator.rs:646-664 | an exact grant changes nothing for a command with another key, unless a Git requirement of it has that key |
| `PolicyEvaluator.CoversIsAPreorder` | crates/workstation-policy/src/evaluator.rs:78-93 | coverage of scopes is reflexive and transitive |
| `PolicyEvaluator.EvaluateCommand` | crates/workstation-policy/src/evaluator.rs:339-664 | the loop computes the decision that the theorems are about |
| `PolicyEvaluator.JudgeFinding` | crates/workstation-policy/src/evaluator.rs:386-593 | one finding: category, attribution, Git, GitHub and paths, up to the first denial |

## Left out

- HTTP, OAuth and MCP transport, the UI, notifications, Windows handles and process launching: plumbing around foreign calls.
- Regular expressions and classification tables (redaction rules, attribution patterns, protected paths, per-program findings, Git classification): uninterpreted parameters of the models.
- The audit half of retention, which depends on SQLite page accounting.
- The mirror of leases in `project_locks`, which no decision reads.
- Views, labels, notes, free-text reasons and impacts; the model keeps one short reason per requirement.
- Failed database writes outside `RemoteAccess`: in the output log a failed commit is a reservation that stays in flight; in `Grants` no write fails but saving settings; a failed save stands for a rejected validation too.
- Operations of the server interleaved at await points: they run to completion.
- The concurrency semaphore of the rate limiter: whether a permit is free is an input of `RateLimit.RateLimiter.Check`.
- Hashes are collision free where they identify a snapshot (`Approvals.Digest`) and a parameter with a fixed width in `GateFile`.
- Text is bytes: pages do not model the replacement of malformed input by U+FFFD; the redaction of a block, its lossy decoding included, is a parameter.
- Which rows or fields count as a security-relevant change of settings: an input of `Grants.Core.ChangeSettings`; the settings carry only the fields the theorems need.
- Rows with equal timestamps are in one fixed order; the order that SQLite picks among them is not modelled.
- Paths are folded component by component; aliases, files, search, locks and watching of the project index are not modelled, and the cache is the table.
- Sessions.SessionService.Sweep: is one piece, while the source lists the expired sessions under one lock and ends each under another; in `Grants` the ending of a listed session is also an operation of its own (`EndListed`).
- LivePaging.EveryPageExactlyWhenGapless: ranges over pages of every size, also above the limit of 4 MiB; `LivePaging.PageExactlyWhenNoGapReached` is about a single size.
- RateLimit.WindowIsBounded: is about exact arithmetic, not about rounding in floating point.
- Retention.AuditStore.RunRetention: covers the Data Shared tables only; the vacuum and the summary are not modelled.
- Redaction.StreamRefinesBatch: needs valid UTF-8; a private-key block that spans lines is not line-local, and `KeyHold` states when it reaches the redactor whole.
- KeyHold.KeyStaysWholeExactly: is about text with one begin marker, and about where blocks end, not about the pattern that replaces a key.
- SessionScope labels do not take part in coverage and are dropped.
