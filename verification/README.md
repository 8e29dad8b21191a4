# Ownership, custody and wire protocols of the certificate-operations qualification

A Dafny model of the parts of the qualification scripts that hold real protocols, and
proofs of what those scripts promise. Each module follows one component.

- `LineFraming`, `OwnedParent`, `OwnedParentChunking`, `OwnedCommands`, `OwnedCommandChunking`,
  `OwnedController`, `OwnedControlPipe`, `OwnedProtocol`: the owned-process protocol between the
  JavaScript parent and the Python controller. The
  controller (main thread, asynchronous SIGTERM handler, exception path, timers) and its
  forked child are a transition system; the parent is the object the source has, with its
  handlers; the composition adds the two pipes, with any chunking.
- `LeaseContract`, `Resident`, `CampaignLease`, `CaObservation`: the lease of a 24-hour
  fixture, the resident's observation loop and the contract that judges its receipt, the
  controller's extension, handoff and deletion decisions, and the comparison of the CA
  database with the receipts.
- `Executor`, `OperationGuard`, `PostgresReceipt`, `Publication`, `ProofReader`: crash-durable
  ownership. Every file-system call is a step; crashes, failed calls and other processes
  act between any two of them.
- `DnsQuestion`, `Forwarder`: the one-question DNS parser and the UDP forwarder around it.
- `Shards`, `ShardReport`, `ShardPlan`: the verifier of a shard's report and the lab planner.
- `Wrappers` and `Sequences` hold the values and the predicate that several modules share.

Where the source changes state in one object, the model is a class whose methods are each
tied to a function on the object's value (`View() == Step(old(View()), ...)`); the theorems
are about all runs of those functions. Where the source is several processes that
interleave, the model is a transition system on values: a `Run` folds any sequence of steps,
and a step that is not enabled changes nothing. Besides what every run keeps, lemmas
named `...ExactlyWhen`, `...Means` and the like say what a single operation does. A theorem that
asks for `Inv(s)` speaks of every reachable state: the module's `RunKeeps` shows that every run keeps `Inv`.

`VerifyLease` uses the constants of `scripts/certops-retention24h-contract.js:7`: four hours
initially, thirty-two at most.

## What the proofs found

- The parent's `ready` and `closed` values depend on how its input was cut into chunks exactly
  when a line after the first rejected one would add a receipt
  (`OwnedParentChunking.ReceiptsIgnoreChunkingExactlyWhen`); the cleanup verdict never does.
- How the controller ends depends on the chunking of its control pipe exactly when a line other
  than the stop line follows the first stop line
  (`OwnedCommandChunking.ModeIgnoresChunkingExactlyWhen`): in the same chunk it raises, in a
  later one it is never read. A stop line after a line that raises does not count.
- The forwarder's `close` can succeed with requests that were never answered. It cannot do so
  exactly when something had failed or every request had been forwarded at the call
  (`Forwarder.CloseIsCompleteExactlyWhen`).
- A prepared receipt is valid up to a count of 2048, but the final proof needs one request
  more: with a deferred count of 2048 no proof is ever accepted
  (`CaObservation.LimitIsValid`, `CaObservation.ValidButNeverProven`).
- The check of the CA database pairs rows and requests one to one only if the fresh request is
  not one of the prepared ones; it relies on the native facts to name those
  (`CaObservation.AcceptedIsPairingExactlyWhen`).
- More evidence does not always mean a later deletion: a fixture created before the recorded
  start of its job is deleted with all receipts at an instant at which it would be kept with
  none (`CampaignLease.MoreEvidenceMayDeleteEarlier`).
- Exactly the children started outside every operation can outlive a clear receipt
  (`OperationGuard.SurvivesExactlyWhenUnguarded`).
- PostgreSQL cleanup compares the postmaster before it runs `pg_ctl stop`; it stops another
  process exactly if one took over `postmaster.pid` in between
  (`PostgresReceipt.StopsAnotherExactlyWhen`, `PostgresReceipt.ReplacementMayBeStopped`).
- The suffix numbering carries exactly one hundred diagnostic shards
  (`ShardPlan.NumbersAreDistinctExactlyWhen`).

## Model

| member | source | states |
|---|---|---|
| LineFraming.FramingIsIncremental | scripts/certops-dns-owned-server.js:222-227 | framing a stream in pieces, carrying the unread remainder, gives the lines and the remainder of the whole |
| LineFraming.IndexOfNewline | scripts/certops-dns-owned-server.js:224-227 | the search returns the first newline, or the length when there is none |
| OwnedParent.JudgeAppend | scripts/certops-dns-owned-server.js:222-242 | judging a list of lines in two parts is judging it as a whole |
| OwnedParent.RejectionIsFinal | scripts/certops-dns-owned-server.js:222-242 | after one rejected line no later line makes the verdict acceptable again |
| OwnedParent.DrainJudges | scripts/certops-dns-owned-server.js:222-242 | one drain of the buffer throws exactly when the fold over its complete lines rejects, and otherwise holds the fold's receipts and the unread remainder |
| OwnedParent.FailedExactlyWhen | scripts/certops-dns-owned-server.js:203-243 | for every order and chunking of stdout and stderr, `failed` holds exactly when more than 65536 bytes arrived or some complete line is rejected by the fold over lines; otherwise the receipts are the fold's |
| OwnedParent.CleanupVerdictIgnoresChunking | scripts/certops-dns-owned-server.js:184-243 | two chunkings of the same text with the same byte total give the same cleanup verdict |
| OwnedParent.CleanupSafeExactlyWhen | scripts/certops-dns-owned-server.js:184-243 | for every chunking, after the close cleanup is judged safe exactly when at most 65536 bytes arrived and the complete lines are a right ready receipt and then a right closed one, nothing more |
| OwnedParent.RightReceiptsExactlyWhen | scripts/certops-dns-owned-server.js:57-104 | what the two verifiers and the handler ask of the two lines, field by field |
| OwnedParent.StateDependsOnChunking | scripts/certops-dns-owned-server.js:216-243 | a bad line followed by a good ready line leaves `ready` set under one chunking and unset under another |
| OwnedParentChunking.ReceiptsBetween | scripts/certops-dns-owned-server.js:216-243 | for every chunking within the byte limit the receipts lie between those at the first rejected line and those of the fold that skips rejected lines |
| OwnedParentChunking.ReceiptsIgnoreChunkingExactlyWhen | scripts/certops-dns-owned-server.js:216-243 | all chunkings of a text within the limit leave the same receipts exactly when skipping rejected lines adds none to those at the first rejected line |
| OwnedParentChunking.ExtremeChunkings | scripts/certops-dns-owned-server.js:216-243 | one chunk stops at the first rejected line, single characters skip every rejected line |
| OwnedParent.OwnedProcess.OnStdout | scripts/certops-dns-owned-server.js:216-243 | the handler's new state is the drain of carried text and chunk, with the byte limit and the catch that sets `failed` |
| OwnedParent.OwnedProcess.TakeLine | scripts/certops-dns-owned-server.js:228-239 | one line is accepted exactly when the fold accepts it, and then the receipts are updated by it and by nothing else |
| OwnedParent.OwnedProcess.OnStderr | scripts/certops-dns-owned-server.js:212-215 | stderr bytes count towards the same limit |
| OwnedParent.OwnedProcess.OnClose | scripts/certops-dns-owned-server.js:209-211 | the close event records the exit of the wrapper and changes nothing else |
| OwnedParent.OwnedProcess.AssertCleanupSafe | scripts/certops-dns-owned-server.js:184-190 | cleanup is judged safe exactly when a closed receipt was accepted, the wrapper closed and nothing failed |
| OwnedController.ApplyKeeps | scripts/certops-dns-owned-server.py:26-137 | every step of main thread, signal handler, exception path and child keeps the invariant: TERM before CONT, no child left in its own stop once it was started or the loop stops, a bad line stopped before it raises, one wait, pidfd closed before the closed receipt, stdout of an executing child redirected |
| OwnedController.AdvanceKeeps | scripts/certops-dns-owned-server.py:39-137 | the same for each step of the main thread, with any timer and any input |
| OwnedController.HandlerKeeps | scripts/certops-dns-owned-server.py:66-77 | the same for the stop function run by the asynchronous handler |
| OwnedController.StopIsCarriedOut | scripts/certops-dns-owned-server.py:66-111 | a deadline, the end of input, a stop line or a bad one leads, undisturbed, to a TERM for the child and a CONT after it unless it was started |
| OwnedController.SignalIsCarriedOut | scripts/certops-dns-owned-server.py:66-77 | a signal does the same through the handler |
| OwnedController.BadInputRaises | scripts/certops-dns-owned-server.py:98-109 | a bad line ends in the recovery, after the stop; an oversized buffer does so at once |
| OwnedController.StartIsCarriedOut | scripts/certops-dns-owned-server.py:102-104 | the start command sets the flag and continues the child that waits for it |
| OwnedController.WorkerActs | scripts/certops-dns-owned-server.py:40-51 | the child redirects its output before it stops itself, and executes exactly if it was continued with no TERM pending |
| OwnedController.EndIsReported | scripts/certops-dns-owned-server.py:81-89 | a child that ended is waited for, its pidfd closed, and its exit code reported with the stop flag |
| OwnedController.RecoverySignals | scripts/certops-dns-owned-server.py:117-129 | an exception ends an owned, pinned child by TERM and CONT; without a pidfd nothing is signalled and the controller stays |
| OwnedController.RecoveryReports | scripts/certops-dns-owned-server.py:130-137 | the recovery waits, closes the pidfd and reports the exit code as one that a signal ended |
| OwnedController.LaunchReachesTheLoop | scripts/certops-dns-owned-server.py:39-79 | an undisturbed launch forks, pins, waits for the child's stop and sends the ready receipt |
| OwnedProtocol.RunKeeps | scripts/certops-dns-owned-server.js:135-264 | in every interleaving the pipe holds exactly the receipts the controller sent, and the parent's state is one fold over the bytes it read |
| OwnedProtocol.OnlySentReceiptsAreAccepted | scripts/certops-dns-owned-server.js:222-242 | after any prefix of what was sent, an accepted closed receipt is the one the controller sent, with its exit code |
| OwnedProtocol.SafeCleanupMeansReaped | scripts/certops-dns-owned-server.js:184-190 | if `assertCleanupSafe` passes then the controller exited, the child was waited for with the reported exit code, and its pidfd is closed; a receipt without signals means none was sent |
| OwnedProtocol.ReapedMeansSafeCleanup | scripts/certops-dns-owned-server.js:184-190 | the other way round: both receipts sent and read, nothing failed and the close seen mean a safe cleanup |
| OwnedProtocol.StoppingContinuesTheChild | scripts/certops-dns-owned-server.py:66-77 | in every interleaving a loop that stops, with no handler active, has sent a TERM, and has continued the child unless it is just about to |
| OwnedProtocol.StartIsWritten | scripts/certops-dns-owned-server.js:244-249 | the start puts the start line, once, into an open pipe |
| OwnedProtocol.StopIsWritten | scripts/certops-dns-owned-server.js:165-166 | the stop puts the stop line into the pipe and closes it |
| OwnedProtocol.CloseIsSeenExactlyWhen | scripts/certops-dns-owned-server.js:209-211 | the close event comes exactly once the controller exited and the pipe is read and released |
| OwnedProtocol.FailureIsFinal | scripts/certops-dns-owned-server.js:203-208 | an error fails the parent and no failure is undone |
| OwnedProtocol.ExecutesOnlyOnStart | scripts/certops-dns-owned-server.py:39-111 | in every interleaving, also with an end of input, foreign lines, oversized input and any chunking, the child's executable runs only after the controller read the exact line `start:` with the nonce as a complete line and consumed it while neither started nor stopping; the parent wrote that line only after it accepted the ready receipt; no byte in the receipt pipe is the child's |
| OwnedProtocol.AtMostOneClosedReceipt | scripts/certops-dns-owned-server.py:80-137 | on every path, including end of input without a stop line, bad commands, oversized input, timers, signals and exceptions, at most one closed receipt is sent, and only after the wait and after the pidfd was closed |
| OwnedControlPipe.ReadKeeps | scripts/certops-dns-owned-server.py:92-103 | one read of the control pipe yields a start command only if the bytes read so far contain the exact start line as a complete line |
| OwnedControlPipe.WriteKeeps | scripts/certops-dns-owned-server.js:244-249 | a whole line keeps the pipe at a line boundary, and only the start line makes the start line appear |
| OwnedControlPipe.BreakKeeps | scripts/certops-dns-owned-server.py:92-97 | a writer that goes away inside a line adds no complete line |
| OwnedControlPipe.CommandArrives | scripts/certops-dns-owned-server.py:92-109 | a line written to a fresh pipe is read as the one command it is |
| OwnedControlPipe.EndsExactlyWhen | scripts/certops-dns-owned-server.py:92-99 | a read finds the end, or more than 8192 bytes, exactly when that is so |
| OwnedCommands.OnlyExactStartContinues | scripts/certops-dns-owned-server.py:66-111 | for every chunking of the control bytes and every deadline, a CONT without a TERM before it is sent at most once, first, and only if the exact line `start:` with the nonce was received |
| OwnedCommands.SignalsExactly | scripts/certops-dns-owned-server.py:66-77 | for every chunking and deadline the signals sent are exactly those of the final mode; a child that was never started is continued last whenever the loop is no longer open |
| OwnedCommands.ClosingEvents | scripts/certops-dns-owned-server.py:90-99 | a deadline and the end of input stop an open loop, an oversized buffer makes it raise |
| OwnedCommands.StartAfterStop | scripts/certops-dns-owned-server.py:92-109 | a start line after the stop line raises in the same chunk and is never read in a later one |
| OwnedCommandChunking.ModeIgnoresChunkingExactlyWhen | scripts/certops-dns-owned-server.py:92-109 | without deadlines all chunkings of a text that fits the buffer end in the same mode exactly when only stop lines follow the first stop line, itself reached without raising |
| OwnedCommandChunking.RunEnds | scripts/certops-dns-owned-server.py:92-109 | every chunking ends as one chunk would, or stopped where one chunk would raise |
| OwnedCommandChunking.RaisingFirst | scripts/certops-dns-owned-server.py:92-109 | a line that raises before any stop line does so under every chunking, whatever follows |
| OwnedCommands.CommandReader.OnReadable | scripts/certops-dns-owned-server.py:81-111 | reading one chunk has the effect of obeying its complete lines in order, of the end of input, or of an oversized buffer |
| OwnedCommands.CommandReader.RequestStop | scripts/certops-dns-owned-server.py:66-77 | a stop has the effect whose signals `SignalsExactly` states; a second one does nothing |
| LeaseContract.CreateLease | scripts/certops-adcs-ttl24h-contract.js:29-31 | creation succeeds exactly for a well-formed owner and yields a valid preparing lease of that owner and instant |
| LeaseContract.LeaseExactlyWhen | scripts/certops-adcs-ttl24h-contract.js:19-28 | the two lengths of a lease in milliseconds, and which phase has which |
| LeaseContract.PreparedExactlyWhen | scripts/certops-adcs-ttl24h-contract.js:36-61 | a prepared receipt is accepted exactly when its instants lie on one line inside the initial lease, with its limits in milliseconds, new materials and three consecutive counts |
| LeaseContract.ShapeExactlyWhen | scripts/certops-adcs-ttl24h-proof.js:20-25 | the timing part of the public proof as intervals in milliseconds |
| LeaseContract.ContractExactlyWhen | scripts/certops-adcs-ttl24h-contract.js:62-75 | the timing contract is exactly that shape together with what only the prepared receipt decides |
| LeaseContract.ContractImpliesShape | scripts/certops-adcs-ttl24h-proof.js:21-24 | every timing receipt the contract accepts also passes the timing part of the public proof |
| LeaseContract.AcceptedTimingOrder | scripts/certops-adcs-ttl24h-contract.js:62-75 | an accepted receipt orders creation, preparation, start, early observation, deadline, end and hard expiry, and bounds the campaign from preparation to end |
| Resident.NeverMoreThan25 | scripts/certops-adcs-ttl24h-resident.js:68-75 | with no assumption on delays the loop makes at most 25 observations |
| Resident.GapsTelescope | scripts/certops-adcs-ttl24h-resident.js:71 | the gaps add up to the last elapsed time |
| Resident.MaxGapBounds | scripts/certops-adcs-ttl24h-resident.js:71 | no gap exceeds the recorded maximum |
| Resident.MaxGapAttained | scripts/certops-adcs-ttl24h-resident.js:71 | the recorded maximum is one of the gaps |
| Resident.WindowContainsObservation | scripts/certops-adcs-ttl24h-resident.js:68-76 | every window inside the residency longer than the largest gap contains an observation |
| Resident.SmallGapsLeaveNoHole | scripts/certops-adcs-ttl24h-resident.js:71-76 | the same from the rounded-up gap of the receipt, for every window longer than 65 minutes |
| Resident.EveryObservationIsASample | scripts/certops-adcs-ttl24h-resident.js:71 | the samples are as many as the successful observations that the clock logged |
| Resident.TimelyRunMakesExactly25 | scripts/certops-adcs-ttl24h-resident.js:68-75 | with overshoot and observation within five minutes each time there are exactly 25 observations |
| Resident.TimelyGap | scripts/certops-adcs-ttl24h-resident.js:71-76 | such a run's rounded maximum gap is positive and at most 65 minutes |
| Resident.PreDeadlineObserved | scripts/certops-adcs-ttl24h-resident.js:72 | a recorded pre-deadline instant is that of the last observation made in the window |
| Resident.RecordedAtThe24th | scripts/certops-adcs-ttl24h-resident.js:72 | when the wall clock lost less than five seconds by the 25th observation, the recorded instant is that of the 24th |
| Resident.TimelyRunIsAccepted | scripts/certops-adcs-ttl24h-contract.js:62-75 | producer meets verifier: the receipt of a timely run passes the contract, under the clock and deadline conditions and the lease and prepared-time inequalities |
| Resident.AcceptedReceiptProvesCustody | scripts/certops-adcs-ttl24h-contract.js:62-75 | whatever the delays were, an accepted receipt of a complete run proves 24 or 25 observations, none missing from any window longer than 65 minutes, and one in the last hour before the deadline |
| Resident.LeaseOutlivesTheDay | scripts/certops-adcs-ttl24h-resident.js:70 | the handed-over lease cannot expire under the loop while the wall clock is at most five seconds ahead |
| Resident.Sleep | scripts/certops-adcs-ttl24h-resident.js:74 | the nap ends exactly when the next due time is reached, or with the last reading at which the lease is found expired and never before; it observes nothing |
| Resident.Watch | scripts/certops-adcs-ttl24h-resident.js:68-75 | whatever the clocks do the loop ends; its samples are exactly the observations and readings the clock logged meanwhile, each under an unexpired lease, and its count, gap, pre-deadline instant, end and elapsed time are theirs; an expiry or refusal is the clock's last entry |
| Resident.Run | scripts/certops-adcs-ttl24h-resident.js:60-78 | the receipt is that of the observations the clock logged, with its last readings as end and elapsed time, and is published exactly when the contract accepts it |
| CampaignLease.ExtensionExactlyWhen | scripts/certops-adcs-ttl24h-azure.js:423-444 | the extension succeeds exactly under its guards and always yields a valid lease whose expiry is the unchanged hard expiry |
| CampaignLease.HandoffLeaseIsTheExtension | scripts/certops-adcs-ttl24h-azure.js:542-580 | for a given original the handoff check admits exactly one lease, the one the extension produces |
| CampaignLease.ObservedExactlyWhen | scripts/certops-adcs-ttl24h-azure.js:297-329 | an observation is accepted exactly for the prepared machine's process, between preparation and the end of the initial lease |
| CampaignLease.OriginalExactlyWhen | scripts/certops-adcs-ttl24h-azure.js:398-422 | an original is accepted exactly with a valid prepared receipt, its very lease, a valid observation and ownership |
| CampaignLease.HandoffExactlyWhen | scripts/certops-adcs-ttl24h-azure.js:542-580 | a handoff is accepted exactly with the one extended lease and a valid observation of the same process under the same task |
| CampaignLease.ExtendedAtMostOnce | scripts/certops-adcs-ttl24h-azure.js:398-444 | over any history the expiry is extended at most once and never past the hard expiry; the lease differs from the created one exactly if one attempt, made on it before its initial expiry and after refused ones only, produced the final lease |
| CampaignLease.DeletionThreshold | scripts/certops-adcs-ttl24h-azure.js:1098-1117 | when there is a decision, deletion is ordered exactly from created+MAX with original and handoff, created+INITIAL with the original only, job start+MAX with neither; a terminally failed run is always deleted |
| CampaignLease.DecisionRefusedExactlyWhen | scripts/certops-adcs-ttl24h-azure.js:1098-1117 | for another run there is no decision exactly when an original, or a handoff of it, does not verify; the reason names the evidence |
| CampaignLease.CreationExactlyWhen | scripts/certops-adcs-ttl24h-azure.js:120-130 | the creation window as differences in milliseconds |
| CampaignLease.DeletionIsMonotone | scripts/certops-adcs-ttl24h-azure.js:1098-1117 | an ordered deletion stays ordered |
| CampaignLease.EvidenceMovesTheThreshold | scripts/certops-adcs-ttl24h-azure.js:120-130 | given the creation window, hard expiry minus orphan deadline lies in [-5000, INITIAL+5000) |
| CampaignLease.MoreEvidenceMayDeleteEarlier | scripts/certops-adcs-ttl24h-azure.js:1098-1117 | some instant deletes with all receipts and keeps with none exactly when the fixture was created before its job's recorded start |
| CaObservation.OnlyRow | scripts/certops-adcs-ttl24h-azure.js:938-998 | the row of a request is found exactly when one and only one row carries its id |
| CaObservation.MatchRows | scripts/certops-adcs-ttl24h-azure.js:970-998 | the loop accepts exactly when every expected request has one and only one row and that row is right; for different ids exactly when rows and requests are in bijection with equal leaf fingerprints |
| CaObservation.MatchedIsPairingExactlyWhen | scripts/certops-adcs-ttl24h-azure.js:970-998 | an accepted list is a bijection exactly when its ids differ |
| CaObservation.VerifyCaPublic | scripts/certops-adcs-ttl24h-azure.js:924-998 | an observation is accepted exactly when authentic, in its time window, with exact counts, a resolvable fresh request and one right row for every request; the summary lists the ids |
| CaObservation.FreshExactlyWhen | scripts/certops-adcs-ttl24h-azure.js:924-937 | the fresh request is found exactly when one of three rows carries the fresh leaf, with the id the facts name if they do, and none of the earlier ids |
| CaObservation.AcceptedMeans | scripts/certops-adcs-ttl24h-azure.js:938-998 | what acceptance says of every expected request, of the counts and of the instant, field by field |
| CaObservation.ExpectedMeans | scripts/certops-adcs-ttl24h-azure.js:955-964 | the expected requests are the two prepared ones and the fresh one |
| CaObservation.AcceptedIsPairingExactlyWhen | scripts/certops-adcs-ttl24h-azure.js:924-998 | an accepted observation is a bijection exactly when the fresh id is not an id of the prepared receipt, which holds when the facts name those ids |
| CaObservation.AcceptedWithoutPairing | scripts/certops-adcs-ttl24h-azure.js:924-998 | with other earlier ids in the facts an observation with a row of no request is accepted |
| CaObservation.CountsAreConsecutive | scripts/certops-adcs-ttl24h-azure.js:1455-1483 | the four counts of the proof are n, n+1, n+2, n+3, and are accepted exactly when the deferred count is below 2048 |
| CaObservation.LimitIsValid | scripts/certops-adcs-ttl24h-contract.js:45 | a prepared receipt with the deferred count 2048 is valid |
| CaObservation.ValidButNeverProven | scripts/certops-adcs-ttl24h-proof.js:26 | and no accepted observations complete its proof |
| Executor.RunKeeps | scripts/certops-arm64-runtime.js:82-97 | every order of events keeps the count of open children, the meaning of `uncertain` and single delivery |
| Executor.DrainedExactlyWhen | scripts/certops-arm64-runtime.js:82-97 | pending is the number of started children not yet closed; a callback is delivered once, exactly for a child that closed and answered; drained exactly when all closed and none was killed, signalled or errored after spawn |
| Executor.DrainedByEvents | scripts/certops-arm64-runtime.js:84-96 | over the list of events: drained exactly when every started child closed afterwards, and after no start came a kill, a signal, or an error of a child that had a pid |
| Executor.DeliveredByEvents | scripts/certops-arm64-runtime.js:86-89 | over the list of events: a child is called back exactly when it closed and its result came, both after its start |
| Executor.NodeExecutor.ExecFile | scripts/certops-arm64-runtime.js:84-93 | a spawn that throws leaves the count as it was, any other adds one open child |
| Executor.NodeExecutor.OnCallback | scripts/certops-arm64-runtime.js:86-88 | the result is recorded, trouble is remembered, and the callback runs only if the child had closed |
| Executor.NodeExecutor.OnClose | scripts/certops-arm64-runtime.js:86-89 | the count goes down and the callback runs only if the result is there |
| Executor.NodeExecutor.IsDrained | scripts/certops-arm64-runtime.js:96 | drained means nothing pending and nothing uncertain |
| OperationGuard.ClearReceiptMeansDrained | scripts/certops-arm64-runtime.js:102-106 | in every run with crashes, failed saves and children that never close, a receipt without active operation means no child started inside an operation is open, so cleanup never passes an undrained one |
| OperationGuard.RunningIsRecorded | scripts/certops-arm64-runtime.js:102-106 | while an operation's body runs, the receipt on disk names it |
| OperationGuard.BeginIsRecorded | scripts/certops-arm64-runtime.js:102-103 | an undisturbed begin names the operation on disk and enters its body |
| OperationGuard.DrainedEndClears | scripts/certops-arm64-runtime.js:104-105 | an undisturbed end of a drained operation clears the receipt |
| OperationGuard.UndrainedIsPreserved | scripts/certops-arm64-runtime.js:104-105 | after an operation that ends undrained, or crashes, the receipt names it for ever and cleanup never proceeds |
| OperationGuard.StartedIsWatched | scripts/certops-arm64-runtime.js:84-93 | a started child is watched until it exited and closed, and guarded exactly inside an operation |
| OperationGuard.TroubleIsRemembered | scripts/certops-arm64-runtime.js:83-96 | after a kill, a signal or a late error the process never counts as drained again |
| OperationGuard.ProgressIsSaved | scripts/certops-arm64-runtime.js:46-51 | an undisturbed save changes nothing but the receipt |
| OperationGuard.SavesAreAtomic | scripts/certops-arm64-runtime.js:46-51 | the receipt only ever becomes a complete temporary file that the same save created; a leftover blocks later saves of the process |
| OperationGuard.ClearReceiptMayBeCleaned | scripts/certops-arm64-runtime.js:116-129 | over a clear receipt cleanup may proceed, in the same drained process or in a new one |
| OperationGuard.UnguardedChildMaySurvive | scripts/certops-arm64-runtime.js:107-113 | in every reachable idle state with a clear receipt a child can be started outside any operation that outlives a crash while the receipt stays clear |
| OperationGuard.SurvivesExactlyWhenUnguarded | scripts/certops-arm64-runtime.js:102-113 | exactly the children started outside every operation can still run when cleanup may remove the owned state |
| PostgresReceipt.SetupKeeps | scripts/certops-arm64-postgres.js:31-54 | every step of setup, and its end at any step, keeps: nothing ran from the root before phase prepared was written, a rewrite in progress is torn, the process is recorded only in phase running |
| PostgresReceipt.CleanupKeeps | scripts/certops-arm64-postgres.js:59-67 | every step of cleanup, with births, exits and pid-file changes between them, keeps what the earlier checks established |
| PostgresReceipt.RootRemovedOnlyWhenQuiet | scripts/certops-arm64-postgres.js:59-67 | the root is removed only for a whole receipt of a phase other than starting, when no process of the root, no captured process and no child of one runs |
| PostgresReceipt.NothingRunsFromRemovedRoot | scripts/certops-arm64-postgres.js:59-67 | a removed root stays without processes; while the receipt says preparing none runs from it |
| PostgresReceipt.UndecidableIsPreserved | scripts/certops-arm64-postgres.js:61-62 | once setup ended with a torn, absent or starting receipt the root is preserved whatever happens afterwards |
| PostgresReceipt.UndisturbedCleanup | scripts/certops-arm64-postgres.js:59-67 | without interference and pid file a cleanup removes the root exactly when the receipt is whole, not starting, and nothing runs from the root |
| PostgresReceipt.StopsAnotherExactlyWhen | scripts/certops-arm64-postgres.js:63 | in every run a postmaster is stopped only in phase running, and it is another process than the recorded one exactly if the pid file was replaced after the look |
| PostgresReceipt.RecordsOnlyTheObserved | scripts/certops-arm64-postgres.js:46-49 | setup takes for its postmaster only the running process of the root that the pid file names, and the receipt records that one, in phase running only |
| PostgresReceipt.ReplacementMayBeStopped | scripts/certops-arm64-postgres.js:31-63 | a whole run from the initial state in which a foreign process takes over the pid file after the look and is stopped |
| PostgresReceipt.Machine.CleanUp | scripts/certops-arm64-postgres.js:59-67 | the cleanup procedure itself, with others acting between its steps: it removes the root exactly when it succeeds and need not preserve; it succeeds only if every check passed at its logged moment, and refuses only a torn, absent or starting receipt, or at a moment whose check failed |
| PostgresReceipt.Machine.StopPostmaster | scripts/certops-arm64-postgres.js:63 | the procedure stops nothing unless the pid file names the recorded process, and then whatever running process the file names at the signal, another one exactly if it was replaced by then |
| PostgresReceipt.Machine.CheckQuiet | scripts/certops-arm64-postgres.js:64-66 | it succeeds exactly if at its two moments no pid file and no process of the root, and then no captured process and no child of one, was there |
| Publication.PublicationIsExclusive | scripts/certops-adcs-ttl24h-resident.js:47-51 | with any number of publishers and a crash at any step the final name is absent or names the complete bytes of the one publisher that linked it |
| Publication.ReturnedLeavesNoTemporary | scripts/certops-adcs-ttl24h-resident.js:50 | a publisher that returned no longer reaches the published inode by its temporary name |
| Publication.UndisturbedPublisherReturns | scripts/certops-adcs-ttl24h-resident.js:47-51 | a publisher that nobody disturbs publishes its bytes and leaves everything else as it was |
| Publication.PublishedForever | scripts/certops-adcs-ttl24h-resident.js:47-51 | after the link no publisher changes the name or its bytes |
| Publication.SuccessfulWritersAgree | scripts/certops-adcs-ttl24h-resident.js:52-59 | once a file is published, also by a publisher that crashed after the link, adopting it succeeds exactly for the bytes that publisher was given, and only that publisher returns |
| ProofReader.ReadAll | scripts/certops-acme-bulk-report.js:52-56 | the loop of short reads yields the content of an inode that stayed as it was, up to the size of the buffer, and follows that inode through every moment |
| ProofReader.OpenRegular | scripts/certops-acme-bulk-report.js:30-51 | the moments of `lstat`, `open` and first `fstat`; each refusal is a fact of its moment, and success means the name led to one acceptable regular inode |
| ProofReader.AcceptableExactlyWhen | scripts/certops-acme-bulk-report.js:31-38 | the first `lstat` must find a regular file of one name and 1 to 32768 bytes |
| ProofReader.ReadProof | scripts/certops-acme-bulk-report.js:26-77 | whatever a mutator does, an accepted result is the whole content the inode had at every moment of the file system's history between the two `fstat` calls, at most 32768 bytes, and the name led there before, at the open and after; each refusal, a reported change among them, is a fact of that history |
| ProofReader.ReadOpened | scripts/certops-acme-bulk-report.js:52-70 | the part after the open: success is a snapshot of the history, refusal a change in it |
| DnsQuestion.ParsingInvertsEncoding | scripts/certops-dns-resolver-views.js:108-133 | for every valid name, header with one question and trailing bytes within the limits, parsing the encoding yields the lower-cased name |
| DnsQuestion.AcceptedIsAnEncoding | scripts/certops-dns-resolver-views.js:108-133 | every accepted packet is the encoding of labels whose lower-cased ASCII text is the returned name, with one TXT/IN question |
| DnsQuestion.AcceptedExactlyWhen | scripts/certops-dns-resolver-views.js:108-133 | exactly the encodings of one TXT/IN question within the limits are accepted |
| DnsQuestion.PlainNameIsReturned | scripts/certops-dns-resolver-views.js:122-132 | the encoding of lower-case labels parses to their characters joined by dots |
| DnsQuestion.CaseIsIrrelevant | scripts/certops-dns-resolver-views.js:124-126 | labels that differ in ASCII case or the high bit are as valid and parse to the same name |
| DnsQuestion.ReturnedNameIsPlain | scripts/certops-dns-resolver-views.js:125-132 | a returned name has at most 253 characters, all lower-case letters, digits, underscores, hyphens and dots |
| DnsQuestion.NameDeterminesLabels | scripts/certops-dns-resolver-views.js:122-132 | two label lists with the same name agree label by label up to case and the high bit |
| DnsQuestion.VerifiedResponseAnswersTheQuery | scripts/certops-dns-resolver-views.js:134-146 | a verified response has the query's transaction id and encodes the same labels up to case and the high bit |
| DnsQuestion.VerifiedExactlyWhen | scripts/certops-dns-resolver-views.js:134-146 | both questions, the transaction id and the three flag bits, as the header words have them |
| DnsQuestion.ScanLabels | scripts/certops-dns-resolver-views.js:114-128 | the label loop stays in bounds, ends, and agrees with the recursive parser |
| DnsQuestion.ParseQuestion | scripts/certops-dns-resolver-views.js:108-133 | the parser with its loop computes the function the round trips are proved about |
| Forwarder.RunKeeps | scripts/certops-dns-resolver-views.js:167-265 | every event keeps: counters count, each socket replies once, a reply was verified against its own query, an incomplete socket of an open forwarder is a client |
| Forwarder.Conservation | scripts/certops-dns-resolver-views.js:182-234 | in every reachable state forwarded is at most requests, no socket replies twice, every reply is verified, requests are forwarded plus incomplete, and while neither failed nor closing the incomplete ones are clients |
| Forwarder.FailsExactlyWhen | scripts/certops-dns-resolver-views.js:179-239 | each event raises the failure flag exactly for a listener error, a wrong query, an unverified response, a failed send or a socket in trouble, and none lowers it |
| Forwarder.RequestsExactly | scripts/certops-dns-resolver-views.js:182-195 | exactly a right query of the loopback, with the query bit, to an open forwarder is counted, and waits on a client of its own |
| Forwarder.RepliesExactly | scripts/certops-dns-resolver-views.js:217-229 | a response is handed on unchanged exactly if it is the first of its open socket and verifies, and counts as forwarded exactly when its send ends without an error |
| Forwarder.ClosesExactly | scripts/certops-dns-resolver-views.js:198-250 | which sockets each event asks to close |
| Forwarder.ClientsExactly | scripts/certops-dns-resolver-views.js:209-212 | a client goes exactly when a socket that was asked to close did |
| Forwarder.SuccessfulClose | scripts/certops-dns-resolver-views.js:247-263 | a successful close leaves no client and no failure; short of forwarded are exactly the sockets that were waiting at the call and those whose send never ended |
| Forwarder.CloseIsCompleteExactlyWhen | scripts/certops-dns-resolver-views.js:247-263 | every successful close means that all requests were forwarded exactly for states that had failed or had forwarded them all at the call |
| Forwarder.UdpForwarder.OnQuery | scripts/certops-dns-resolver-views.js:182-195 | a query is ignored while closing, refused unless from the loopback for the allowed name, else counted with a new client |
| Forwarder.UdpForwarder.OnResponse | scripts/certops-dns-resolver-views.js:217-224 | a response is passed on unchanged exactly when it verifies against the socket's query |
| Forwarder.UdpForwarder.OnSendDone | scripts/certops-dns-resolver-views.js:225-229 | a finished send counts as forwarded, a failed one marks the forwarder failed; the socket is closed |
| Forwarder.UdpForwarder.Close | scripts/certops-dns-resolver-views.js:247-250 | closing asks every client socket, and no other, to close |
| Shards.EveryPhaseHasOneShard | tests/e2e/helpers/certops-adcs-shards.js:22-35 | each journey phase belongs to exactly one shard, setup and cleanup to every one |
| Shards.Owned | tests/e2e/helpers/certops-adcs-shards.js:82-100 | the selection contains exactly the suite's scenarios that the shard owns |
| ShardReport.NoErrorsExactlyWhen | scripts/certops-adcs-shard-report.js:10-44 | the collected errors are empty exactly when the header holds, the scenarios are a duplicate-free all-passed enumeration of owned set and shared setup, and the required list is a permutation of the owned one |
| ShardReport.AcceptedExactlyWhen | scripts/certops-adcs-shard-report.js:10-44 | the verdict is an empty list exactly for an acceptable report of a known diagnostic shard in a suite whose scenarios all have a phase |
| ShardReport.ThrowsExactlyWhen | scripts/certops-adcs-shard-report.js:10-38 | the verifier throws exactly for a known shard when a scenario of the suite or of the required list has no phase |
| ShardReport.JudgeSays | scripts/certops-adcs-shard-report.js:14-43 | each kind of error is in the list exactly for its cause |
| ShardReport.HeaderSays | scripts/certops-adcs-shard-report.js:14-19 | the header errors and their causes |
| ShardReport.AcceptedScenarios | scripts/certops-adcs-shard-report.js:22-42 | an accepted report of every shard but the first contains the shared RSA setup, and no scenario the shard does not own but that one |
| ShardReport.SameRequirements | scripts/certops-adcs-shard-report.js:33-35 | the comparison of lengths, distinct counts and membership amounts to being a duplicate-free permutation |
| ShardReport.NoScenarioErrors | scripts/certops-adcs-shard-report.js:27-32 | the scenario loop pushes nothing exactly when all passed, are known and none repeats |
| ShardReport.AllShardsCoverTheSuite | scripts/certops-adcs-shard-report.js:10-44 | accepted reports of all diagnostic shards leave no scenario of the suite unexecuted |
| ShardReport.ScanScenarios | scripts/certops-adcs-shard-report.js:26-32 | the loop's errors and passed set are those of the fold over the scenarios |
| ShardReport.VerifyShardReport | scripts/certops-adcs-shard-report.js:10-44 | the verifier with its loops returns that verdict, or throws for an unassigned scenario |
| ShardPlan.DecimalIsInjective | scripts/certops-adcs-shard-plan.js:13-17 | different numbers have different decimal texts |
| ShardPlan.DecimalMeans | scripts/certops-adcs-shard-plan.js:13-17 | the decimal text of a number means that number |
| ShardPlan.SuffixMeans | scripts/certops-adcs-shard-plan.js:13-17 | a diagnostic suffix means attempt*100+index+1, that of "all" the attempt |
| ShardPlan.PlanExactly | scripts/certops-adcs-shard-plan.js:9-18 | which attempts and selections are planned or refused, and which labs they get |
| ShardPlan.NumbersAreDistinctExactlyWhen | scripts/certops-adcs-shard-plan.js:17 | attempt*100+index+1 is injective over attempts 1 to 99 and the shard indices exactly for up to one hundred shards |
| ShardPlan.SuffixIdentifiesTheLab | scripts/certops-adcs-shard-plan.js:9-18 | any two planned labs, "all" included, share a suffix exactly when they are the same shard of the same attempt; suffixes are digits |
| ShardPlan.PlansArePlanned | scripts/certops-adcs-shard-plan.js:9-18 | every lab of an accepted plan is "all" of its attempt or a diagnostic lab with its own number |
| ShardPlan.SelectionIsPartOfParallel | scripts/certops-adcs-shard-plan.js:15-17 | a single selected shard gets the lab that the parallel selection gives it |

## Left out

- Text: the streams are ASCII, one character per byte; JSON, dates, regular expressions, `/proc`, X.509 and file digests are functions, flags (`wellFormed`, `matches`, `bound`, `ownership`, `authentic`) or equality of contents.
- Time: instants are integer milliseconds and the monotonic clock integer nanoseconds; the rounding of a nanosecond count to a double is not modelled.
- OwnedController: a second signal while the handler runs is ignored; the record of the pidfd and the handle are one fact; external CONT signals and reuse of process ids are excluded by assumption.
- OwnedController, Publication, OperationGuard and the setup of PostgresReceipt are transition systems on values, since several processes interleave there; the aliasing of the objects inside one process is not captured.
- OperationGuard, Publication: power loss is not modelled, only the end of a process.
- Executor: a callback that starts another child from inside the delivery is two events.
- PostgresReceipt: executables of the root are started only by processes of the root, by setup and by cleanup; process identities are not reused; identity and hash checks of the receipt always hold; a removal that fails half-way is not modelled.
- OwnedControlPipe: what enters the pipe besides the parent's lines is whole lines other than the start line and, at the end, one partial line; the nonce is 32 characters without a newline.
- Resident, ProofReader: the logs of `Clock` and `FileSystem` are ghost histories that their own methods extend.
- Forwarder: the final wait for the listener's close and its timeout are outside; a failing `connect` is one of the socket's troubles.
- ShardReport: an identifier that is not a text has no phase; a nested array whose text happens to match a rule is not modelled. The rules of `phaseOf` are a parameter.
- ShardPlan: parsing the attempt is a parameter, absent for a text that is no number.
- CampaignLease: the resource id of the virtual machine and the cloud ownership checks are flags.
- Cloud, GitHub, container, browser and TLS calls, report-shape checks that compare flags with fixed values, source-hash lists, and the time budget of finalization are not modelled.
