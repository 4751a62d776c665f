# Verified models of the qq command line and its repository tooling

This project models the parts of the repository whose correctness rests on an invariant rather than
on a single function, and proves those invariants in Dafny:

- **The headless run client** (`EventLog`, `HeadlessClient`, `HeadlessProofs`, `HeadlessTheorems`,
  `HeadlessReplies`, `HeadlessReports`, `HeadlessGuard`). A client follows a durable, append-only event log whose oldest entries expire. It is a state
  machine with one step between any two awaits of `src/headless.rs`; between any two of those steps
  the runtime may append events, finish the run, raise or resolve approval holds, spawn sessions
  and advance the expiry floor. Theorems hold in every state of every behaviour.
- **The diagnostic span registry and log writer** (`SpanForest`, `Subscriber`, `LogWriter`). One counter
  per span counts handles and live children together. A ghost ledger of the handles callers really
  hold gives the counters their meaning, and liveness is shown to be reachability.
- **The evaluation statistics** (`SplitMix`, `SplitMixReference`, `SplitMixVectors`, `Sampling`, `Bootstrap`,
  `McNemar`, `PairedComparison`). Rejection sampling terminates and is unbiased because the generator is one
  full cycle; its outputs are fixed bit by bit and by known answers; the bootstrap interval is the only one that
  leaves n / 40 of the resampled ratios out on either side; the McNemar p-value is compared with the coin-flip experiment it stands for;
  pairing conserves attempts and passes.
- **The repository gate** (`VisitOrder`, `Affected`, `GateKey`, `ReportReuse`, `TreeDigest`, `EarnedPass`). A worklist
  computes the packages a change reaches, each with a chain of reasons, and its result is unique; a report is reused only for the tree it
  was made on; the digest's framing is injective.
- **The text analysers** (`Text`, `Template`, `CfgPredicate`, `FunctionScan`, `LineTokens`,
  `CallAttribution`). Each works on text and is proved against a meaning given on trees, renderings or items.

`Options`, `Counting`, `Sequences`, `Sorting` and `Keys` hold what several of these share.

Where the source updates state in place the model is a class or a method with loops, proved against a
specification function; the theorems are about that function. Where code and comments differ, the code
is followed. `dafny verify dfyconfig.toml` checks the whole project.

Properties that hold less widely than one might hope, each with its exact limit:

- A failed check can leave a passing report behind, but only when the old file could not be removed
  (`FailureLeavesNoPass`, `FailedRemovalKeepsPass`). The report is still true of the tree it names.
- An accepted run is abandoned exactly when its guard is dropped while still armed and before any cancel
  was attempted, where no async runtime is left (`NeverAbandoned`, `DropOutsideRuntimeAbandons`).
- An approval already pending at the run's start cursor is not covered at first; it is exactly from the
  first complete recovery or the first accepted cancel on (`NoStrandedApproval`, `OlderHoldIsNotCovered`).
- The cfg recogniser takes every token that starts with the letters `feature` for a feature; its yes is
  right exactly as long as no such flag is set (`YesIsSoundIff`).
- A semicolon or a brace in a signature, as in an array type or a constant argument, gives the function's
  own calls to the enclosing function (`FunctionAttributedIff`).

## Model

| member | source | states |
|---|---|---|
| EventLog.EvolveKeepsRuntimeOk | crates/qq-core/src/sessions/events.rs:137-190 | whatever the runtime does by itself, log positions keep their events, a run finishes at most once, and every pending hold keeps its request event in the log |
| EventLog.ExpiresIffNextIsGone | crates/qq-core/src/sessions/events.rs:27-46 | the journal refuses a cursor exactly when the event after it has expired, also when nothing is left |
| HeadlessTheorems.NoLostTerminal | src/headless.rs:706-719 | no lost terminal event: in every reachable state in which the client waits, in the main loop or while settling, its cursor is strictly before the run's terminal event |
| HeadlessTheorems.NoStrandedApproval | src/headless.rs:720-747 | at every loop head a pending hold of the run's session tree is still ahead of the cursor, or was sent a response, or the run was asked to cancel, if and only if it was raised after the start cursor, or a recovery is complete, or the run was asked to cancel; also across expired cursors |
| HeadlessTheorems.SweptStaysCovered | src/headless.rs:720-746 | a complete recovery has dealt with every pending hold of the tree, old ones too, and they stay covered ever after |
| HeadlessTheorems.OlderHoldIsNotCovered | src/headless.rs:640-858 | at every loop head before a complete recovery, a hold at or before the start cursor is covered iff the run was asked to cancel |
| HeadlessTheorems.UnsweptBefore | src/headless.rs:640-858 | until a recovery is complete, nothing at or before the start cursor is delivered, and nothing of it is answered at a loop head |
| HeadlessTheorems.ResponsesFollowPolicy | src/headless.rs:1111-1130 | every response ever sent answers a logged approval request with the unattended policy's decision; ApproveOnce goes only to calls of the root session under Full, Deny to every call without a preview |
| HeadlessReplies.LiveAnswersEveryRequest | src/headless.rs:808-848 | the exact response and cancel for a delivered request: answered whatever session it comes from, with an empty answer to a question, ApproveOnce to a root call under Full, Deny otherwise; a question of this run cancels it once, and a question without a run gets nothing |
| HeadlessReplies.RecoveryAnswersTheTree | src/headless.rs:720-745 | over every behaviour, recovery answers calls of the session tree alone, and in the root session those of this run alone |
| HeadlessReplies.RecoveryDecides | src/headless.rs:723-744 | the exact response and cancel for a hold met by recovery: it carries the hold's own preview; without a preview it is Deny whatever the approval mode, for a descendant's question an empty answer, otherwise the policy; a question of this run cancels it once; a hold without its call fails the loop |
| HeadlessReplies.BehaviorRepairsTree | src/headless.rs:720-723 | over every behaviour, the sessions and holds a recovery works on lie within the run's tree |
| HeadlessReports.LoopFlagsTell | src/headless.rs:650-710 | at every point of the loop of every behaviour, the recovered, interrupted, armed and steering flags say exactly what has happened so far |
| HeadlessReports.LoopGivesUpIff | src/headless.rs:659-763 | a loop step ends the loop and goes on to cancel and report iff the grace is over, the stream is lost or an awaited call fails |
| HeadlessReports.RecoveryGivesUpIff | src/headless.rs:711-744 | the same for a step of recovery, where a hold without its call also ends it |
| HeadlessReports.ReturnedStatusWasWritten | src/headless.rs:338-402 | however an invocation returns, its records are a trial, events and at most one outcome at the end, and a status other than harness failure is the outcome written |
| HeadlessReports.FailuresReturnHarnessFailure | src/headless.rs:338-402 | a loop that fails and a record that cannot be written make the status a harness failure |
| HeadlessGuard.SettlementEndsIff | src/headless.rs:182-191 | settlement ends iff a call fails or the terminal event is seen, and the guard stays armed iff it was a failure |
| HeadlessGuard.DisarmedRunIsFinished | src/headless.rs:178-191 | over every behaviour, a client that is done and whose guard is disarmed has a run with a terminal event in the log |
| HeadlessGuard.UnfinishedRunIsRetried | src/headless.rs:194-215 | an invocation that returns with a runtime at hand and an unfinished run hands it to a detached task that starts again with the cancel |
| HeadlessGuard.SettlementReads | src/headless.rs:1041-1068 | cancel, subscription, snapshot, attachment at its position and probe end settlement if the run is finished, and otherwise leave it waiting at the end of the log |
| HeadlessTheorems.NeverAbandoned | src/headless.rs:167-215 | a client that has exited read the durable result or attempted CancelRun, if and only if its guard was not dropped armed, without an earlier cancel, where no runtime is left |
| HeadlessTheorems.LastStepDecides | src/headless.rs:194-215 | the step with which a client exits leaves the run unaccounted for iff it is such a drop |
| HeadlessTheorems.DropOutsideRuntimeAbandons | src/headless.rs:194-205 | such a drop is possible from acceptance on: it sends nothing and reads nothing |
| HeadlessTheorems.DeadlineIffCancelled | src/headless.rs:650-705 | at every loop head the shutdown deadline is armed iff a cancel was requested, and the loop requests at most two |
| HeadlessTheorems.TraceWellFormed | src/headless.rs:338-402 | once the result was read and the outcome written, the records are one trial, events as the log has them at strictly increasing positions, this run's RunFinished exactly once and last of them, then the outcome |
| HeadlessTheorems.StatusIsDurable | src/headless.rs:909-1028 | no exit status is made up: any but a harness failure was read from the run's RunFinished in the log and is what that event means, given whether this client interrupted it or met a question |
| HeadlessTheorems.FinishStatusMeans | src/headless.rs:909-1028 | for every terminal event exactly one status fits, and it is the one reported |
| HeadlessTheorems.OneDelivery | src/headless.rs:760-763 | with the terminal event in the log, one delivery moves a waiting client one position on, or to the result |
| HeadlessTheorems.DeliveriesReachResult | src/headless.rs:849-854 | from a waiting state with nothing expired, exactly p - cursor deliveries lead to the durable result at position p |
| HeadlessTheorems.RecoveryReachesResult | src/headless.rs:709-719 | once the cursor has expired, snapshot, resubscription and result check lead to the durable result, whose receipt is recorded; the cursor is at the end of the log and the recovery is remembered |
| HeadlessTheorems.DeliveriesSettle | src/headless.rs:1056-1074 | a settling client with nothing expired settles after exactly p - cursor deliveries when the terminal event is at p, and disarms its guard |
| HeadlessTheorems.RecoverySettles | src/headless.rs:1075-1080 | and after an expired cursor by snapshot, resubscription and probe, disarming its guard |
| HeadlessTheorems.StepKeepsHolds | src/headless.rs:720-848 | every step of client and runtime keeps the holds raised after any given position covered |
| HeadlessTheorems.StepKeepsInv | src/headless.rs:659-858 | the invariant behind all of these is kept by every step of client and runtime |
| HeadlessTheorems.BehaviorKeepsInv | src/headless.rs:251-446 | and so holds in every state of every behaviour |
| HeadlessProofs.ReactKeepsHolds | src/headless.rs:808-848 | handling a delivered request answers it, cancels the run, or belongs to no hold of the tree |
| HeadlessProofs.RepairKeepsHolds | src/headless.rs:723-744 | handling one hold of a recovery snapshot leaves every other hold covered as before |
| HeadlessProofs.RecoveryKeepsCursor | src/headless.rs:711-719 | resubscribing before checking for a result never lets the cursor pass an unread terminal event |
| HeadlessProofs.SettleKeepsCursor | src/headless.rs:1041-1094 | the same for the settlement loop |
| HeadlessProofs.LoopKeepsCancel | src/headless.rs:662-705 | loop steps keep the cancel counts and the armed deadline in step |
| HeadlessProofs.LoopKeepsGuard | src/headless.rs:346-361 | inside the loop the guard stays armed until the result is read |
| HeadlessProofs.SettleKeepsGuard | src/headless.rs:182-191 | settlement attempts a cancel before anything else, and disarms the guard only when the run settled |
| HeadlessProofs.ExitKeepsGuard | src/headless.rs:338-369 | every way out of the invocation keeps the run accounted for |
| HeadlessProofs.ReceiptTrace | src/headless.rs:713-718 | a receipt recorded by recovery comes after every event recorded before the gap |
| HeadlessProofs.HandledTrace | src/headless.rs:760-763 | after an event is handled the trace either ends with the terminal event or lies wholly before it |
| SpanForest.LiveIffReachable | src/logging/subscriber.rs:246-373 | a registered span is live iff it or a descendant has a handle (or a saturated counter) |
| SpanForest.AnchoredKeepsAncestorsLive | src/logging/subscriber.rs:340-352 | never freed early: everything above a live span is live |
| SpanForest.LiveHasAnchor | src/logging/subscriber.rs:340-373 | nothing leaks: below every live span there is one that is held or saturated |
| SpanForest.InsertKeepsForest | src/logging/subscriber.rs:277-294 | registering a span keeps every counter equal to handles plus live children, and parents live with smaller ids |
| SpanForest.InsertedIs | src/logging/subscriber.rs:277-294 | the new span has the name, outcome and parent given and one reference; of the others only the parent changes, by one saturating reference |
| SpanForest.NewHandleKeepsForest | src/logging/subscriber.rs:333-339 | so does cloning a handle, saturating or not |
| SpanForest.CloseKeepsForest | src/logging/subscriber.rs:352-366 | a span that counts down to nothing has no handle and no child; removing it owes its parent exactly one close |
| SpanForest.CascadeKeepsForest | src/logging/subscriber.rs:340-369 | a whole cascade restores the invariant |
| SpanForest.CascadeClosesPath | src/logging/subscriber.rs:343-367 | what closes is a path from the closed id towards the root |
| SpanForest.CascadeRemovesClosed | src/logging/subscriber.rs:365-366 | exactly the closed spans leave the table |
| SpanForest.CascadeKeepsOthers | src/logging/subscriber.rs:343-369 | in the spans that stay nothing but counters changes |
| Subscriber.DiagnosticSubscriber.constructor | src/logging/subscriber.rs:165-176 | the empty registry satisfies the invariant |
| Subscriber.DiagnosticSubscriber.NewSpan | src/logging/subscriber.rs:246-301 | the new id, table, ledger and records; with 4096 spans it only issues an id and drops a record; an exhausted id space is reported |
| Subscriber.DiagnosticSubscriber.Register | src/logging/subscriber.rs:278-297 | the span is inserted under its parent, and the record emitted carries its ancestry |
| Subscriber.DiagnosticSubscriber.CloneSpan | src/logging/subscriber.rs:333-339 | one more handle, counted if the span is registered |
| Subscriber.DiagnosticSubscriber.RecordOutcome | src/logging/subscriber.rs:302-311 | only the outcome label of a live span changes |
| Subscriber.DiagnosticSubscriber.TryClose | src/logging/subscriber.rs:340-373 | one handle less; the table becomes what the cascade leaves; per closed span, in order, one close record with the ancestry it had is queued or dropped and one observation under its name and outcome is made; the result tells whether any closed |
| Subscriber.DiagnosticSubscriber.CloseUpwards | src/logging/subscriber.rs:343-367 | the loop terminates and computes the cascade, innermost span first, with a record and an observation for each closed span as it was |
| Subscriber.DiagnosticSubscriber.CloseNext | src/logging/subscriber.rs:353-366 | one turn adds the next closed span's record and observation |
| Subscriber.DiagnosticSubscriber.CloseOne | src/logging/subscriber.rs:356-366 | the close record has the ancestry the span had before anything closed, and it is observed under its name and its outcome, or none |
| Subscriber.DiagnosticSubscriber.Emit | src/logging/subscriber.rs:210-220 | a record is queued or counted as dropped, never both |
| Subscriber.DiagnosticSubscriber.EmitAll | src/logging/subscriber.rs:369-371 | the accepted records are queued in order |
| Subscriber.DiagnosticSubscriber.DropRecord | src/logging/subscriber.rs:80-82 | the wrapping drop counter |
| Subscriber.DiagnosticSubscriber.Conservation | src/logging/subscriber.rs:68-82 | after every history, queued plus dropped records equal new_span calls plus closed spans, registered spans equal live plus closed, and stage counts below saturation sum to closed spans |
| Subscriber.DiagnosticSubscriber.Liveness | src/logging/subscriber.rs:246-373 | after every history, a registered span is live iff it or a descendant is held |
| Subscriber.ObserveKeepsTally | src/logging/subscriber.rs:69-78 | stage counts stay the saturated tally of the closed spans' names and outcomes |
| Subscriber.StagesSumToClosed | src/logging/subscriber.rs:75-76 | below saturation stage counts add up to the closed spans |
| Subscriber.ChooseParent | src/logging/subscriber.rs:258-276 | the parent is the explicit one, else the innermost entered span of this subscriber when contextual, and none if that span is not live |
| Subscriber.LastEntered | src/logging/subscriber.rs:265-272 | the last entered id of this subscriber, none iff it has none |
| Subscriber.Ancestry | src/logging/subscriber.rs:178-199 | a record's ancestry is a chain of at most 32 parents ending at the span, fewer only up to a root or below a parent that is gone |
| LogWriter.WriteRecords | src/logging.rs:152-164 | the file holds the kept records, or after a failed write exactly the bytes that fitted; it fails iff they do not fit |
| LogWriter.WriteAllRecords | src/logging.rs:152-164 | the same loop for any records that may pass the bound |
| LogWriter.KeptInOrder | src/logging.rs:154-162 | the records written are whole and a subsequence of those received |
| LogWriter.KeptJudgesEach | src/logging.rs:157-162 | each further record is written iff it fits into 8 MiB with what is there or begins with the summary's key |
| LogWriter.StopEndsWriting | src/logging.rs:154-157 | nothing after the empty record is written; with the row above this determines the file |
| LogWriter.FileBounded | src/logging.rs:158-161 | the file exceeds MAX_FILE by at most the summaries' size |
| LogWriter.FinishEndsWithSummary | src/logging.rs:89-98 | after finish the telemetry summary is the last record of the file, however full it was |
| LogWriter.SummaryIsRecognised | src/logging/subscriber.rs:84-109 | the summary's JSON starts with the key the writer looks for, since keys are written in order |
| LogWriter.SpanRecordIsNot | src/logging/subscriber.rs:200-207 | no span record does, so none gets past the bound |
| LogWriter.SessionBounded | src/logging.rs:152-164 | the file of a session exceeds MAX_FILE by no more than its one summary |
| LogWriter.EverythingFits | src/logging.rs:158-161 | up to the bound nothing is left out |
| SplitMix.XorShiftInjective | xtask/src/eval.rs:1477-1479 | z ^ (z >> k) loses nothing |
| SplitMix.MulInjective | xtask/src/eval.rs:1477-1478 | multiplication by an invertible constant modulo 2^64 loses nothing |
| SplitMix.MixInjective | xtask/src/eval.rs:1476-1479 | the output function is injective on 64-bit words |
| SplitMix.StatesDistinct | xtask/src/eval.rs:1475-1475 | states do not repeat within 2^64 steps |
| SplitMix.OutputsDistinct | xtask/src/eval.rs:1474-1480 | nor do outputs |
| SplitMixReference.XorShiftBit | xtask/src/eval.rs:1477-1479 | bit i of z ^ (z >> k) is bit i of z plus bit i + k of z, modulo two |
| SplitMixReference.ShrDivides | xtask/src/eval.rs:1477-1479 | a shift by k divides by 2^k |
| SplitMixReference.OutputIs | xtask/src/eval.rs:1474-1480 | every output is made by the rounds with shifts 30, 27, 31 and the published increment and multipliers, each round given bit by bit |
| SplitMixReference.OutputIsOnly | xtask/src/eval.rs:1474-1480 | and no other word is |
| SplitMixVectors.FirstOutput | xtask/src/eval.rs:1474-1480 | the first output of seed 0 is 0xE220A8397B1DCDAF |
| SplitMixVectors.SecondOutput | xtask/src/eval.rs:1474-1480 | the second is 0x6E789E6AA1B965F4 |
| SplitMixVectors.ThirdOutput | xtask/src/eval.rs:1474-1480 | the third is 0x06C45D188009454F |
| Sampling.FullCycle | xtask/src/eval.rs:1474-1480 | 2^64 consecutive outputs are all the 64-bit words |
| Sampling.RejectionsBounded | xtask/src/eval.rs:1485-1490 | consecutive rejected draws are no more than the rejected zone has words |
| Sampling.SplitMix64.constructor | xtask/src/eval.rs:1470-1472 | the state is the seed |
| Sampling.SplitMix64.Next | xtask/src/eval.rs:1474-1480 | advances the state by the increment and returns the mixed word |
| Sampling.SplitMix64.Draw | xtask/src/eval.rs:1474-1480 | after n draws from a seed the next word is output n + 1 of that seed |
| Sampling.SplitMix64.Below | xtask/src/eval.rs:1482-1491 | terminates for every state and bound after at most U64_MAX % bound + 1 rejections, with the first accepted draw reduced below the bound |
| Sampling.ZoneIsMultiple | xtask/src/eval.rs:1484-1484 | the accepted zone is a multiple of the bound |
| Sampling.AcceptedPreimages | xtask/src/eval.rs:1484-1488 | each index has exactly zone / bound accepted words |
| Sampling.Unbiased | xtask/src/eval.rs:1467-1491 | over the full cycle each index is drawn exactly zone / bound times, whatever the seed |
| Bootstrap.CostPerPassRatio | xtask/src/eval.rs:1387-1415 | the loop computes the ratio of the arms' costs per pass |
| Bootstrap.RatioOf | xtask/src/eval.rs:1406-1414 | there is a ratio iff both arms passed something at a fully known cost and the baseline's cost is positive; then ratio times baseline cost times candidate passes is candidate cost times baseline passes |
| Bootstrap.RatioBalances | xtask/src/eval.rs:1409-1414 | the ratio without division, for any two arms that have one |
| Bootstrap.RatioExistsIff | xtask/src/eval.rs:1394-1412 | when pairs have a ratio, said of the trials: some baseline and some candidate passed, every cost is known, and the baseline's sum is positive |
| Bootstrap.SumOfOne | xtask/src/eval.rs:1396-1403 | a trial adds its own cost and verdict |
| Bootstrap.SumPasses | xtask/src/eval.rs:1397-1403 | an arm's passes are those a job report counts |
| Bootstrap.CostKnownIff | xtask/src/eval.rs:1394-1404 | an arm's cost is known iff every attempt's is, and it has passes iff some attempt passed |
| Bootstrap.RatioOfJobs | xtask/src/eval.rs:1337-1337 | the same two statements for the pairs a comparison makes and the two jobs' own costs and passes |
| Bootstrap.SumOfPermutation | xtask/src/eval.rs:1390-1405 | an arm's cost and passes do not depend on the order of its trials |
| Bootstrap.RatioInverts | xtask/src/eval.rs:1409-1414 | swapping the arms gives the reciprocal |
| Bootstrap.NextIndex | xtask/src/eval.rs:1429-1429 | an index is the reduction of the next accepted output of the seed's stream |
| Bootstrap.Sample | xtask/src/eval.rs:1428-1431 | a resample consists of the next accepted draws of the generator, none skipped or used twice |
| Bootstrap.SampleMembers | xtask/src/eval.rs:1428-1431 | member j of a resample is the pair at the accepted output of its position modulo the number of pairs |
| Bootstrap.PositionsFollow | xtask/src/eval.rs:1482-1491 | positions start at the first output and go from accepted output to accepted output, with only rejected ones in between |
| Bootstrap.ResamplesFollow | xtask/src/eval.rs:1425-1431 | all resamples read one stream: each starts right after the indices of the resamples before it, as many for each as there are pairs |
| Bootstrap.SomeAccepted | xtask/src/eval.rs:1482-1491 | from every position there is a next accepted draw |
| Bootstrap.NextRatio | xtask/src/eval.rs:1428-1434 | one resample's ratio, leaving the generator where the next resample starts |
| Bootstrap.CollectRatios | xtask/src/eval.rs:1425-1435 | the ratios are those of consecutive resamples of one seeded stream |
| Bootstrap.SomesAt | xtask/src/eval.rs:1432-1434 | the ratios kept are exactly those that exist, in the order of the resamples |
| Bootstrap.SortedAscends | xtask/src/eval.rs:1439-1439 | sorting orders the ratios and keeps how many satisfy any property |
| Bootstrap.IntervalCovers | xtask/src/eval.rs:1439-1442 | both percentile indices are in range, low <= high, at most n / 40 ratios lie below low and more than n / 40 at or below it, and the same above high |
| Bootstrap.IntervalIsUnique | xtask/src/eval.rs:1439-1442 | only one interval has these counts |
| Bootstrap.BootstrapRatioInterval | xtask/src/eval.rs:1417-1443 | an interval is given iff at least half of the resamples have a ratio, and it is the one with these counts |
| McNemar.McNemarExact | xtask/src/eval.rs:1445-1457 | no value iff there is no discordant pair; otherwise the exact chance, over all equally likely ways the pairs could fall, of a result at least as lopsided |
| McNemar.ChooseIsQuotient | xtask/src/eval.rs:1459-1465 | the quotient of factorials is the binomial coefficient |
| McNemar.WithWinsSize | xtask/src/eval.rs:1453-1455 | the binomial coefficient counts the outcomes with that many wins |
| McNemar.ExtremeSize | xtask/src/eval.rs:1456-1456 | doubling one tail and capping at one counts the outcomes of both tails exactly |
| McNemar.PValueSymmetric | xtask/src/eval.rs:1450-1450 | swapping the arms does not change the p-value |
| McNemar.PValueRange | xtask/src/eval.rs:1445-1457 | the p-value lies in (0, 1] and is 1 exactly when the discordant counts differ by at most one |
| PairedComparison.PairTask | xtask/src/eval.rs:1293-1320 | a task's arms pair up iff they have as many attempts and every k-th pair agrees in checksum and in known workspaces; otherwise the error names the task and what differs first |
| PairedComparison.Group | xtask/src/eval.rs:1284-1290 | each task's trials of one arm, in order |
| PairedComparison.PairTrials | xtask/src/eval.rs:1284-1321 | pairing succeeds iff every task's arms pair up, and then yields all tasks' pairs in key order; otherwise the error is the first task's that does not |
| PairedComparison.SortByNameSorts | xtask/src/eval.rs:1300-1301 | sorting by name orders the trials and keeps their multiset |
| Sorting.SortIsStable | xtask/src/eval.rs:1300-1301 | trials with equal names keep their order |
| PairedComparison.KeysOfTrials | xtask/src/eval.rs:1284-1292 | the task keys are exactly the trials' tasks, ascending without repetition |
| PairedComparison.PairingIsBijection | xtask/src/eval.rs:1284-1321 | each arm's trials occur in the pairs exactly as often as in the job |
| PairedComparison.PairsWithinTasks | xtask/src/eval.rs:1302-1319 | every pair stays within one task and is comparable |
| PairedComparison.PairsAgree | xtask/src/eval.rs:1302-1319 | a pair has one task, one checksum and, where both are known, one workspace |
| PairedComparison.PairsAreRanked | xtask/src/eval.rs:1292-1319 | pairs go by task, and within a task both arms go by name |
| PairedComparison.CountCells | xtask/src/eval.rs:1323-1334 | the four counters are the cells of the pairs |
| PairedComparison.CountPasses | xtask/src/eval.rs:916-919 | the pass counter counts the passed trials |
| PairedComparison.ComparisonConserves | xtask/src/eval.rs:1323-1346 | the four cells sum to both arms' attempts, both_passed plus an arm's only-cell is that arm's passes, and the pass difference is candidate_only minus baseline_only |
| Affected.OwnerOf | xtask/src/check.rs:178-184 | the owner of a path is a package whose directory contains it, with the longest such directory; none iff no package owns it |
| Affected.OwnerIsLast | xtask/src/check.rs:178-184 | of several longest directories the package listed last owns the path |
| Affected.OwnsBelow | xtask/src/check.rs:180-182 | a package owns exactly the paths below its directory |
| Affected.RootOwns | xtask/src/check.rs:248-252 | the root package owns exactly what is below src, tests, benches and examples |
| Affected.InputsMatch | xtask/src/check.rs:240-246 | an input with a slash at the end stands for everything below it, any other for itself alone |
| Affected.DirectOf | xtask/src/check.rs:171-189 | a changed path makes direct exactly the packages whose tests read it and its owner; earlier reasons stay |
| Affected.ClassifyChanged | xtask/src/check.rs:163-190 | the first full-scope input, whether the minimal provider was touched, and otherwise exactly the packages some changed path makes direct, each with its first such path as the reason |
| Affected.DirectNext | xtask/src/check.rs:171-189 | a further changed path keeps earlier reasons and adds its own |
| Affected.AddForced | xtask/src/check.rs:191-195 | requested packages become direct, with a reason of their own only where there is none |
| Affected.Classify | xtask/src/check.rs:158-195 | the direct packages and their reasons, exactly |
| Affected.DirectReasonHolds | xtask/src/check.rs:171-195 | a direct package's reason can be taken at its word: tests read the path; or the package owns it and no tests of its read it; or it was requested |
| Affected.DirectIsUnique | xtask/src/check.rs:158-195 | changed paths and requests determine the direct packages and their reasons |
| Affected.AddDependents | xtask/src/check.rs:215-223 | every dependent is queued in package order, and gets a reason unless it has one |
| Affected.Close | xtask/src/check.rs:206-224 | the worklist terminates and selects exactly the packages that reach a direct one; reason keys equal the selection, every chain of reasons is finite and ends at a direct package, and each names the first visited package it depends on |
| Affected.Visit | xtask/src/check.rs:211-223 | one turn of the worklist keeps all of that |
| VisitOrder.StackVisits | xtask/src/check.rs:211-222 | popping from the end visits the package found last of those not visited yet |
| VisitOrder.VisitIsUnique | xtask/src/check.rs:207-224 | the direct packages determine the order of the visit |
| Affected.WorkDone | xtask/src/check.rs:211-224 | an empty worklist means exactly the reaching packages are selected |
| Affected.ExplainedStep | xtask/src/check.rs:219-221 | adding dependents keeps every chain of reasons well-founded |
| Affected.FullMeansAll | xtask/src/check.rs:228-229 | with unique names and known direct packages, comparing sizes recognises exactly the selection of everything |
| Affected.Select | xtask/src/check.rs:157-238 | full scope with the first full input as the reason; or exactly the packages that reach a direct one, direct ones with the first changed path that made them so, all others with a dependency, and the scope and minimal-provider flag; for any tables of inputs |
| Affected.SelectionIsUnique | xtask/src/check.rs:206-238 | the direct packages and their reasons determine the whole selection |
| Affected.ChainsStopAtDirect | xtask/src/check.rs:208-223 | a reason is a dependency iff the package is not direct, so chains of reasons stop exactly at the direct packages |
| GateKey.SelectionKey | xtask/src/check.rs:1193-1209 | the loop computes the key |
| GateKey.KeysEqualIffSameCommand | xtask/src/check.rs:1193-1209 | two commands have the same key iff they have as many words and differ only in preset values of profile flags |
| GateKey.ValueIffOddRun | xtask/src/check.rs:1197-1206 | a word is a profile value iff an odd number of profile flags stands right before it |
| GateKey.ProfilesShareKeyIff | xtask/src/check.rs:1199-1203 | commands that differ in one profile value have the same key iff both are among default, quick and ci |
| GateKey.KeyOfKey | xtask/src/check.rs:1197-1202 | keys are canonical: the key of a key is that key |
| GateKey.SplitJoin | xtask/src/check.rs:1208-1208 | joining words loses nothing: splitting gives them back |
| GateKey.JoinSplit | xtask/src/check.rs:1196-1196 | and splitting a command loses nothing either |
| ReportReuse.Checkout.constructor | xtask/src/check.rs:982-984 | the history starts with no report |
| ReportReuse.Checkout.Run | xtask/src/check.rs:1010-1187 | a run, wherever it fails or is killed, has the effect and outcome of the reference step |
| ReportReuse.Checkout.RunAndReport | xtask/src/check.rs:1110-1187 | the part that runs gates, compares the stamps and writes the report |
| ReportReuse.Checkout.Evidence | xtask/src/check.rs:985-1009 | prints exactly when the saved report's stamp is the present one; then the report tells of a session on that tree |
| ReportReuse.RunGates | xtask/src/check.rs:1115-1142 | gates run in order up to and including the first failure |
| ReportReuse.GatesFollowPlan | xtask/src/check.rs:1115-1142 | what ran is an initial part of the plan with the gates' own verdicts, all passing except perhaps the last |
| ReportReuse.PlanPassesIff | xtask/src/check.rs:1143-1143 | `passed` is computed true iff every planned gate passes |
| ReportReuse.FailedGateIsNamed | xtask/src/check.rs:1179-1186 | the gate named in the error is the first planned one that did not pass, and it failed |
| ReportReuse.StepKeepsHonest | xtask/src/check.rs:1010-1187 | every run keeps the report honest: it records the latest session of all, which saw one tree at both ends, and claims success iff that session passed its whole plan |
| ReportReuse.HistoryKeepsHonest | xtask/src/check.rs:1010-1187 | so it is after every history of runs, failures, interruptions and tree edits |
| ReportReuse.SuccessIsEarned | xtask/src/check.rs:1095-1187 | a successful non-dry run means the latest session saw the present tree at both ends, passed completely, and passed every planned gate under the same key |
| ReportReuse.PassingReportRemainsIff | xtask/src/check.rs:1010-1187 | exactly when a passing report is on disk after a non-dry run |
| ReportReuse.FailureLeavesNoPass | xtask/src/check.rs:1013-1019 | a failed non-dry run leaves a passing report iff removing an old one was refused |
| ReportReuse.FailedRemovalKeepsPass | xtask/src/check.rs:1017-1017 | that case occurs: after any history that ends with a success, a run whose removal is refused fails and leaves the passing report |
| ReportReuse.SomeCheckPasses | xtask/src/check.rs:1115-1178 | after any history a check of any tree and plan can succeed |
| ReportReuse.DryRunChangesNothing | xtask/src/check.rs:1089-1094 | a dry run leaves report and sessions alone |
| ReportReuse.SkipsGatesIff | xtask/src/check.rs:1095-1109 | a run that gets past its plan skips its gates iff reuse is allowed, the report can be read and passes for this very tree and every planned gate passed in the latest session under the same key |
| ReportReuse.RepeatIsFree | xtask/src/check.rs:1095-1109 | repeating a successful check on the same tree runs nothing, succeeds and leaves the same report |
| ReportReuse.SessionsAreTrue | xtask/src/check.rs:1110-1150 | a run adds no session or exactly what its gates and stamps answered |
| ReportReuse.RunPassesIff | xtask/src/check.rs:1010-1187 | a run succeeds iff it comes to write a passing report and the write is completed |
| ReportReuse.DryRunPassesIff | xtask/src/check.rs:1020-1094 | a dry run succeeds iff it can stamp the tree and plan |
| ReportReuse.StaleIff | xtask/src/check.rs:1144-1150 | the tree is reported stale iff gates ran unkilled and the two stamps differ |
| ReportReuse.DiskAfter | xtask/src/check.rs:1151-1178 | why the report file is saved, torn or absent after a run that removed the old one |
| ReportReuse.DeadMeansKilled | xtask/src/check.rs:1010-1187 | no refusal or failure is taken for being killed |
| EarnedPass.PassIsOfThisTree | xtask/src/check.rs:1095-1187 | a pass, fresh or reused, was earned on the present tree: without a hash collision, the trees at both ends of the latest session have the present head, git outputs and untracked entries, and every planned gate passed there |
| EarnedPass.SameStampSameTree | xtask/src/check.rs:846-929 | equal stamps mean equal git outputs and entries unless the hash collides on them |
| TreeDigest.FeedDigest | xtask/src/check.rs:859-923 | the bytes streamed into the digest are the encoding of the three outputs and the entries |
| TreeDigest.FeedOutputs | xtask/src/check.rs:860-877 | every git output goes in with its length before it |
| TreeDigest.FeedEntries | xtask/src/check.rs:884-923 | the entries go in one after the other, without a count |
| TreeDigest.FeedEntry | xtask/src/check.rs:885-922 | name, symlink flag, mode bits, then link target or size and content hash |
| TreeDigest.LeRoundTrip | xtask/src/check.rs:875-875 | little-endian numbers that fit read back |
| TreeDigest.LeByte | xtask/src/check.rs:875-875 | byte i is digit i to the base 256, lowest first |
| TreeDigest.EntryReads | xtask/src/check.rs:885-922 | an entry is self-delimiting: it reads back with exactly what follows left over |
| TreeDigest.EntryLayout | xtask/src/check.rs:885-922 | where name length, name, symlink flag, mode and body of an entry stand |
| TreeDigest.StreamLayout | xtask/src/check.rs:859-923 | unstaged, staged and index outputs, each after its length, then the entries |
| TreeDigest.EntriesRead | xtask/src/check.rs:884-923 | so a list of entries reads back without a count |
| TreeDigest.DecodeEncode | xtask/src/check.rs:859-923 | the whole stream decodes to what was encoded |
| TreeDigest.EncodeInjective | xtask/src/check.rs:859-923 | equal streams come from equal outputs and entries |
| TreeDigest.FlagIsNeeded | xtask/src/check.rs:891-891 | without the symlink flag a link and a file could encode alike |
| Template.ContainsIffBegins | src/docs_truth.rs:229-250 | for every fragment, holes included: found iff in some rendering it begins where a template part begins, a hole being filled with a hole or with a token run that starts with a character |
| Template.ContainsIffRendered | src/docs_truth.rs:229-250 | a hole-free fragment is found iff the template is not empty and some message, with nonempty fills free of whitespace and backticks, contains it anywhere |
| Template.HoleInsideFillIsMissed | src/docs_truth.rs:234-236 | the difference is real: a fragment with a hole inside a fill is not found |
| Template.TemplatePattern | src/docs_truth.rs:202-227 | the loop reads a format string into literals and holes |
| Template.NextPart | src/docs_truth.rs:206-224 | one turn of the loop reads exactly the first part and always makes progress |
| Template.PatternRecoversFormat | src/docs_truth.rs:202-227 | reading back a written format string recovers its literals and holes, escaped braces included |
| Template.PatternAfterFormat | src/docs_truth.rs:202-227 | a format string reads as its pieces, whatever follows |
| Template.UnclosedHole | src/docs_truth.rs:213-222 | a hole that is never closed swallows the rest |
| Template.StrayBrace | src/docs_truth.rs:206-224 | a single closing brace stands for itself |
| Template.FillsAreTokens | src/docs_truth.rs:229-250 | a fill has no whitespace and no backtick |
| Text.WhitespaceIs | src/docs_truth.rs:229-250 | the characters that count as whitespace, written out |
| CfgPredicate.SplitTop | src/docs_truth.rs:253-270 | the nonempty trimmed parts between commas outside parentheses |
| CfgPredicate.SplitCommas | src/docs_truth.rs:254-268 | the loop over character positions finds them |
| CfgPredicate.TextAgreesWithTree | src/docs_truth.rs:252-290 | on the text of any predicate tree, with any padding, empty places and trailing commas, the recogniser agrees with the recursion on the tree |
| CfgPredicate.YesMeansTestOnly | src/docs_truth.rs:271-289 | a yes on the tree means the predicate is false with test and all features off, whatever else is set, as long as no set flag starts with the letters feature |
| CfgPredicate.YesIsSoundIff | src/docs_truth.rs:287-287 | exactly that condition is needed: all answers of yes are right iff no such flag is set |
| CfgPredicate.YesIffGone | src/docs_truth.rs:271-289 | without negations, and with features only as alternatives: a yes is given iff the item is gone with test and features off and all else on |
| CfgPredicate.YesIffCannotHold | src/docs_truth.rs:271-289 | on every predicate: a yes is given iff it cannot hold as far as one can tell without looking into negations |
| CfgPredicate.YesOnTextMeansTestOnly | src/docs_truth.rs:252-290 | the same for a yes on the text |
| CfgPredicate.YesOnTextIffGone | src/docs_truth.rs:252-290 | the exactness on text |
| CfgPredicate.SplitPrinted | src/docs_truth.rs:256-268 | splitting printed arguments gives back each argument's text, and an empty part for an empty place |
| CfgPredicate.PartsOfPrinted | src/docs_truth.rs:268-269 | after the empty parts are dropped, the parts are exactly the texts of the arguments that are there |
| CfgPredicate.StrayCloseIsText | src/docs_truth.rs:259-259 | a closing parenthesis that nothing opened is text, and commas after it still split |
| FunctionScan.Functions.constructor | xtask/src/lint.rs:488-492 | depth zero and nothing open |
| FunctionScan.Functions.Scan | xtask/src/lint.rs:495-562 | one line changes depth and stack, and attributes columns, as the reference scan does |
| FunctionScan.Functions.Turn | xtask/src/lint.rs:517-560 | one turn of the loop |
| FunctionScan.Functions.Mark | xtask/src/lint.rs:531-558 | what a brace or semicolon does to depth and stack |
| FunctionScan.OwnerIsInnermost | xtask/src/lint.rs:508-513 | a call belongs to the last function on the stack whose body is open |
| FunctionScan.OpenBraceExactly | xtask/src/lint.rs:532-540 | an opening brace goes one deeper and enters the last function iff that waits for its body at this very depth |
| FunctionScan.PopsExactly | xtask/src/lint.rs:543-549 | exactly the entered functions at the end whose depth is reached are taken off |
| FunctionScan.CloseBraceExactly | xtask/src/lint.rs:541-550 | a closing brace goes one up, never below zero, and takes those off |
| FunctionScan.SemicolonExactly | xtask/src/lint.rs:551-557 | a semicolon takes off the last function iff it waits for a body at this depth |
| FunctionScan.IdentPrefixExactly | xtask/src/lint.rs:521-525 | a name is all the identifier characters there are |
| FunctionScan.IdentIs | xtask/src/lint.rs:518-523 | the characters of a name, written out |
| FunctionScan.FnExactly | xtask/src/lint.rs:517-530 | with a name after the word, past any whitespace, the function waits at the present depth; the scan goes on after the word |
| LineTokens.ScanLine | xtask/src/lint.rs:495-562 | on a line that reads as its tokens, the final state and every call's owner are those of running the tokens |
| LineTokens.FoundMerges | xtask/src/lint.rs:506-515 | a column is attributed after exactly the marks before it |
| CallAttribution.ItemsAttributed | xtask/src/lint.rs:495-562 | on the tokens of any nested items each call gets its innermost enclosing function, and depth and stack are restored |
| CallAttribution.CallsAttributed | xtask/src/lint.rs:406-412 | the same however the code is broken into lines |
| CallAttribution.PrintedCallsAttributed | xtask/src/lint.rs:406-412 | the same, for lines in which fn starts a word, its name ends at something else, and no other text has the word fn with a space after it |
| CallAttribution.FnAtIffWord | xtask/src/lint.rs:517-519 | the scanner takes a position for a function exactly when the word fn and a space begin there |
| CallAttribution.SafeLineReads | xtask/src/lint.rs:517-529 | such lines read as their tokens |
| CallAttribution.SignatureDecides | xtask/src/lint.rs:531-557 | for every signature of text, calls, semicolons and braces, and every body: the body's calls go to the function if the signature has neither semicolon nor brace, otherwise to the enclosing function; depth and stack are restored either way |
| CallAttribution.SignatureRuns | xtask/src/lint.rs:531-557 | the function waits on the stack for its body, and the first semicolon or pair of braces in the signature takes it off |
| CallAttribution.FunctionAttributedIff | xtask/src/lint.rs:531-557 | the body's attribution is right iff the signature has neither semicolon nor brace, or no call in the body is the function's own, or the enclosing function has the same name |
| CallAttribution.ScanLines | xtask/src/lint.rs:405-412 | one scanner carried through all lines computes that attribution |

## Left out

- Text output, stderr progress, exit codes and JSON encoding of records; a record is its content.
- `submit` and `prepare_session`: the model starts when the run is accepted, with the cursor they return.
- Wall-clock time: deadlines are armed or not, and an armed one may fire at any loop head; the shutdown grace of settlement may end at any settlement step.
- The biased order of the select branches: every enabled branch may be taken, which covers the biased order.
- The client's loop variables and the guard as mutable objects: they are the state of a transition system, since what matters is what may happen between two of its steps.
- A detached settlement task that the runtime shuts down before it is first polled; the model lets every spawned task take its steps.
- The status chosen by `status_for_error`: every failure is a harness failure, and the invalid-configuration variants of the same exit path are not told apart.
- Span fields other than name and outcome, elapsed times, total and maximum durations of a stage, and the JSON text of records; whether a record is small enough and the queue has room is an input.
- The per-thread stack of entered spans (`enter`, `exit`, `current_span`); the stack is an input of NewSpan.
- Opening log files and directories, and a failing flush.
- Floating-point rounding in the McNemar tail, the cost ratio and the percentile indices; all are exact here.
- Building trial summaries from job directories, identities, trajectories, the Wilson interval and the scorecards; a trial's verdict and cost are inputs.
- Git, cargo, nextest and Harbor processes; their answers are inputs of an invocation, including being killed at any point.
- Two checks running at once in one checkout, and a report file written by anything else.
- `all_gates`, `plan` and the rendering of gate commands; the planned commands are an input.
- SHA-256: the digest is the byte stream that is hashed, a file's content is its size and hash, and PassIsOfThisTree assumes no collision between the streams it compares.
- The digest's mode bytes on systems without Unix permissions, a file that changes kind between the two symlink tests, and names that git cannot list as text.
- EncodeInjective: assumes lengths below 2^64 and modes below 2^32, as the machine types have them.
- The literal tables of full-scope and cross-crate inputs; Select takes any tables.
- The completeness of the cfg recogniser under negations: a double negation of test is test-only and still gets a no (YesIffCannotHold says when a yes is given).
- `strip_strings` and the search for call columns; the scanner starts from stripped lines and given columns, on characters instead of bytes.
- Argument parsing, the daemon, the terminal interface, doctor, init, undo, homebrew and quarantine tooling: I/O and wrappers.
