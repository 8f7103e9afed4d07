# Transcode Forge in Dafny

Transcode Forge is a scheduler with workers that re-encode a media library in
place. This project models the parts of it whose promises span many steps and
many processes, and proves those promises for every input, every reachable
state or every run.

`dafny verify dfyconfig.toml` checks all of it.

| files | what they model |
|---|---|
| `Tables`, `Attempts`, `Liveness`, `JobStore` | the job and worker tables, one SQL statement a step; the attempt protocol; the sweeps; the repository as a class |
| `Delivery`, `Effects`, `SharedReports`, `SharedAttempts`, `SharedEffects`, `Outbox` | report handlers (read, transition, catalog statements, commit, re-read) together with the workers' journal; their effects, and the attempts, with and without others' commits and rollbacks in between; the journal and its drain as a class |
| `Sidecars`, `Recovery`, `StartupScan`, `Swap` | sidecar names; single-path recovery and the startup scan over a whole tree; the swap with a crash between any two file operations |
| `Undo` | what survives on a connection that anybody may commit or roll back, for any fact that statements set |
| `GrantTables`, `GrantInvariant`, `GrantRuns`, `GrantDecisions`, `GrantConsent`, `GrantRevocation`, `GrantApproval`, `GrantIssuance`, `GrantPrincipals`, `GrantStore` | the OAuth grant store on a shared connection that any request may commit or roll back |
| `StreamPlan`, `StreamCheck` | the stream plan and the two checks of it |
| `Search`, `Pooling`, `Limiter`, `Fence`, `Multiples` | the CRF search, score pooling, the rate limiter, the partition fence |

How the state machines are built: a run is a sequence of states and steps, a
step is one statement (or one file operation), and everything between two steps
of the same request or process may be interleaved with anything else. Random
values (claim tokens, codes, markers, ids) are fresh values: a counter for claim
tokens, the number of the generating request in the grant store. Clocks, file
errors, answers of the network, scores and ffprobe listings are parameters.

## Where the code and its documentation disagree

The model follows the code. Each of these has a lemma with a concrete case, and
the property is proved under the exact condition under which it does hold.

- `models/job.py` line 44 says that a terminal job never changes status again.
  The retry route writes unconditionally after its own read, so a late retry
  write undoes a completion (`Attempts.LateRetryWriteUndoesCompletion`); with the
  read and the write taken as one step the claim holds.
- `config.py` lines 149-151 say that perc5 can never exceed the mean. That is
  true of lists of `n` frames if and only if `n <= 20`
  (`Pooling.PercentileBelowMeanIff`); in general it exceeds the mean by at most a
  twentieth of its distance from the minimum.
- `repos/oauth.py` lines 182-190: a revocation is not read back, so on the shared
  connection another request's rollback can lose it while the caller is told it
  worked (`GrantRevocation.RevocationCanBeLost`). In every run a grant is revoked
  if and only if some revocation of it stands: no rollback came between its UPDATE
  and the first commit after it (`GrantRevocation.RevokedIffOneStands`).
- `repos/oauth.py` lines 492-502: a denial can be lost in the same way
  (`GrantRevocation.DenialCanBeLost`). It lasts exactly as long as no rollback
  undoes it, and while it lasts nobody approves (`GrantDecisions.DenialLasts`).
- `api/routes/worker_api.py` lines 666-669 and 729-730 say that a transition and
  its side effects commit together or not at all. On the shared connection another
  request's rollback between the two tears them apart, and the worker is answered
  204 (`SharedReports.ReportCanBeTorn`). Each of the writes survives if and only
  if it was not undone (`SharedReports.ReportIsWhole`), and an attempt is written to
  the catalog twice only if a transition was undone
  (`SharedEffects.TwoWritesMeanUndone`).
- On the shared connection a duplicate can be acknowledged on an outcome that is
  still pending in another transaction and is then rolled back: the report leaves
  the journal and the outcome is nowhere (`SharedEffects.AcknowledgedInVain`). The
  outcome is durable if and only if a finish of the attempt stands and was committed
  (`SharedEffects.DuplicateRestsOnAFinish`).
- On the shared connection a rollback can bring back an attempt that was released
  and given to another worker (`SharedAttempts.AttemptCanComeBack`). An attempt that
  runs has been current since its claim if and only if no step took it away since,
  and every such step was undone (`SharedAttempts.RevivedOnlyByRollback`).
- Registration upserts the worker row before it releases the worker's jobs, and
  the upsert clears the current job without a stamp. An abandoned-job sweep that
  lands in between requeues on old evidence (`Liveness.RegistrationWindow`); that is
  the only way a job named inside the window is requeued
  (`Liveness.AbandonedMeansDisowned`).
- The startup scan reads the clock in both of its passes. A foreign lock over a
  backup that goes stale in between is respected by the first pass and removed by
  the second, which is what no single recovery does; and a temporary output that
  stands alone is removed by single-path recovery but not by the scan.
  `Recovery.TwoClocks` says exactly when the two agree.
- A rate limit of zero admits one call per window (`Limiter.ZeroStillAdmitsOne`),
  so the bound is twice `max(1, limit)` less one.
- The heartbeat fence assumes a recently bumped job row. The margin that suffices,
  120 - I - 30 s, is also the most that does: for a row bumped any earlier there is
  a partition in which the sweep may requeue ahead of the abort
  (`Fence.FenceAgainstTheSweep`, `Fence.FenceIsTight`).

## Model

| member | source | states |
|---|---|---|
| `Attempts.InvHolds` | src/transcode_forge/repos/jobs.py:250-340 | in every run, waiting rows have neither owner nor token, active rows have both, and no two rows carry the same token |
| `Attempts.HeldSinceClaim` | src/transcode_forge/repos/jobs.py:581-640 | whoever holds a job holds it by one claim of this run and without interruption since |
| `Attempts.StaleAttemptFence` | src/transcode_forge/repos/jobs.py:250-340 | with every statement durable when made, a report with token t that changes anything is preceded by the claim that issued t, for that job and that worker, and that attempt has been current ever since |
| `Attempts.OneClaimPerToken` | src/transcode_forge/repos/jobs.py:581-640 | no two claims issue the same token |
| `Attempts.FinalizedAtMostOnce` | src/transcode_forge/repos/jobs.py:263-301 | each attempt is finalised at most once over a whole run |
| `Attempts.TerminalLeavesOnlyByRetry` | src/transcode_forge/api/routes/jobs.py:71-104 | a terminal row changes status if and only if the step is the retry of a failed or cancelled job, or the bare retry write |
| `Attempts.OutcomeIsPermanent` | src/transcode_forge/models/job.py:44 | with the retry of this job as one step, a complete or skipped row stays as it is until it is deleted |
| `Attempts.LateRetryWriteUndoesCompletion` | src/transcode_forge/api/routes/jobs.py:89-101 | a run in which a retry's late write puts a completed job back in the queue |
| `Attempts.TokenlessReportHitsTheNextAttempt` | src/transcode_forge/repos/jobs.py:250-260 | a run in which a report without a token, sent for one attempt, finalises the next |
| `Attempts.OneWinnerPerQueueing` | src/transcode_forge/repos/jobs.py:234-247 | between two steps that take a job out of the queue something put it back, so a cancel and a claim have one winner |
| `Attempts.FirstComeWins` | src/transcode_forge/api/routes/jobs.py:107-125 | claim then cancel leaves the claim; cancel then claim leaves the cancel |
| `Liveness.PunctualWorkerKeepsItsJob` | src/transcode_forge/repos/jobs.py:406-578 | no sweep changes the job of a worker whose heartbeats name it within 120 s of the claim and then stay within 90 s, however old the row |
| `Liveness.AbandonedMeansDisowned` | src/transcode_forge/repos/jobs.py:491-578 | at an abandoned-sweep requeue the worker's row named the job at some moment of the grace window if and only if a registration inside the window found it named |
| `Liveness.RegistrationWindow` | src/transcode_forge/api/routes/worker_api.py:415-440 | a run in which a sweep between the two statements of a registration requeues a job named a moment before |
| `JobStore.JobStore.ClaimNextJob` | src/transcode_forge/repos/jobs.py:581-640 | claims an oldest job that is pending or queued, of a supported codec and, unless the worker downscales, not to be downscaled, with a new token; answers none exactly when there is no such job; no other row changes |
| `JobStore.JobStore.FinalizeJob` | src/transcode_forge/repos/jobs.py:263-301 | true exactly when the row is the worker's, carries the token that was sent (if any) and is not terminal; then the row has the outcome, and otherwise nothing changes |
| `JobStore.JobStore.ReportProgress` | src/transcode_forge/repos/jobs.py:304-340 | as above for progress, on active rows only |
| `JobStore.JobStore.CancelIfWaiting` | src/transcode_forge/repos/jobs.py:234-247 | cancels exactly a waiting row and says so |
| `JobStore.JobStore.RequeueOrphanActiveJobs` | src/transcode_forge/repos/jobs.py:406-465 | requeues an active job exactly when its worker is dead, offline or unknown and the row is untouched for more than 600 s, and returns exactly those |
| `JobStore.JobStore.RequeueAbandonedActiveJobs` | src/transcode_forge/repos/jobs.py:526-578 | requeues an active job exactly when its live worker has named another job, or none, for more than 120 s and the row is untouched as long, and returns exactly those |
| `JobStore.JobStore.CleanupStaleWorkers` | src/transcode_forge/repos/workers.py:173-197 | a live worker is dead after it exactly when it was silent for more than 90 s, no other worker changes, and the count is of exactly those |
| `JobStore.JobStore.UpdateWorkerHeartbeat` | src/transcode_forge/repos/workers.py:96-126 | the row names the job and has the new heartbeat, and the transition stamp moves to now exactly when the named job changes |
| `JobStore.JobStore.Register` | src/transcode_forge/api/routes/worker_api.py:415-440 | upsert and release: the worker is online and names no job, its active jobs are queued again and no other row changes |
| `JobStore.JobStore.RetryJob` | src/transcode_forge/api/routes/jobs.py:71-104 | true exactly for a failed or cancelled job, which then waits again without owner or token |
| `JobStore.JobStore.CancelAllPending` | src/transcode_forge/api/routes/jobs.py:166-186 | cancels exactly the waiting jobs and counts them; exactly the catalog rows that point at them need transcoding again |
| `JobStore.JobStore.DeleteWorker` | src/transcode_forge/api/routes/workers.py:38-84 | removes a worker exactly when it was silent for 1800 s and owns no active job |
| `JobStore.JobStore.DeleteInChunks` | src/transcode_forge/repos/jobs.py:690-718 | the chunk loop equals one statement per table over the whole list, counts included, for every chunk size |
| `JobStore.JobStore.DeleteJobs` | src/transcode_forge/repos/jobs.py:668-718 | deletes exactly the jobs chosen up front and returns the two set sizes; a catalog row that does not point at one is unchanged; one that does loses its job, becomes NeedsTranscode without a skip reason if it was InQueue or InProgress, and keeps status and skip reason otherwise |
| `JobStore.ChunkDetaches` | src/transcode_forge/repos/jobs.py:690-718 | detaching one chunk after another is detaching their union, and no row is counted twice |
| `Delivery.AcknowledgedMeansRecorded` | src/transcode_forge/api/routes/worker_api.py:651-794 | an acknowledged report's outcome was in the job row, as statements see it, at some moment since the report was sent |
| `Delivery.EndToEndDelivery` | src/transcode_forge/worker/http_agent.py:961-1060 | an entry leaves the journal only if its outcome was recorded during the exchange, or it was refused with a 4xx other than 401, or its file was quarantined |
| `Delivery.LosingIsAnswered` | src/transcode_forge/api/routes/worker_api.py:148-163 | a lost race is answered with 204 exactly when the row holds the reported outcome, 409 exactly when it holds another, 404 exactly when the job is gone and 403 otherwise, and each of these takes the entry out of the journal |
| `Delivery.ReadIsAnswered` | src/transcode_forge/api/routes/worker_api.py:87-145 | the handler's first read answers 404, 403, 204 and 409 each exactly under its own condition, 403 for a missing token included, changes no row, and goes on to write exactly when none of them holds |
| `Delivery.BareReportChangesNothing` | src/transcode_forge/api/routes/worker_api.py:104-127 | in every run a report without a token from a worker that sends them is answered at the read and stays answered, so it never reaches a write |
| `Delivery.ReportGoesThrough` | src/transcode_forge/api/routes/worker_api.py:651-707 | an uninterrupted report of the attempt that is running records its outcome and both catalog statements durably, changes no other row, and is answered 204 |
| `Delivery.SettledBy` | src/transcode_forge/worker/reliability.py:36-50 | an answer settles an entry exactly when it is 2xx, or 4xx other than 401 |
| `Delivery.AnswerSettles` | src/transcode_forge/worker/http_agent.py:961-1028 | the entry leaves the journal exactly when its answer settles it, and no other entry leaves |
| `Effects.IsolatedReportAgrees` | src/transcode_forge/api/routes/worker_api.py:666-707 | for a report between whose transition and commit nobody else commits or rolls back, the transition stands and is committed if and only if the catalog write does and is, at every moment |
| `Effects.EffectsExactlyOnce` | src/transcode_forge/api/routes/worker_api.py:651-794 | in every run with isolated transactions, durably at every moment, no attempt has two catalog writes, a row that a report finished has that report's write, and a row shows what the catalog was told of its attempt |
| `Effects.TransitionWritesCatalog` | src/transcode_forge/api/routes/worker_api.py:651-794 | an isolated report acknowledged by its own transaction has its catalog write, and its outcome on a row that carries the attempt, durably and for good |
| `Delivery.OnlyWinnersWrite` | src/transcode_forge/api/routes/worker_api.py:651-794 | no step but the catalog write of a request that won its transition adds one, so duplicates and losers write nothing |
| `SharedReports.FinishedIffOneStands` | src/transcode_forge/db.py:92-112 | in every run a row that carries an attempt shows it finished if and only if some terminal write of it was not undone by a rollback before the first commit after it, and then with the outcome of that write; durably if and only if one stands and was committed |
| `SharedReports.ToldIffItStands` | src/transcode_forge/db.py:92-112 | in every run the catalog has a request's write if and only if that write was not undone |
| `SharedReports.NotedIffItStands` | src/transcode_forge/api/routes/worker_api.py:748-761 | the same of the other catalog statement (skip record, output columns) by itself, so a rollback between the two leaves one |
| `SharedReports.ReportIsWhole` | src/transcode_forge/api/routes/worker_api.py:666-707 | after a report's commit each catalog statement is durable if and only if it was not undone; the row that carries the attempt shows the reported outcome if the transition was not undone, and is not finished if it was and nobody else finished it |
| `SharedReports.QuietTransactionIsWhole` | src/transcode_forge/api/routes/worker_api.py:666-707 | a transaction without a rollback inside leaves the catalog write, and the reported outcome on the row |
| `SharedAttempts.FinishedByItsClaimer` | src/transcode_forge/repos/jobs.py:250-301 | also with others' rollbacks, a report that finishes an attempt is preceded by the claim that issued its token, for that job and that worker |
| `SharedAttempts.FinishedTwiceMeansUndone` | src/transcode_forge/repos/jobs.py:263-301 | also with others' rollbacks, an attempt is finished a second time only if the first time was undone |
| `SharedAttempts.RevivedOnlyByRollback` | src/transcode_forge/repos/jobs.py:250-340 | with others' rollbacks, an attempt that is running was claimed by its worker in this run, every step that took it away since was undone, and it has been current ever since if and only if there is no such step |
| `SharedAttempts.AttemptCanComeBack` | src/transcode_forge/db.py:92-112 | a run in which a released attempt, its job claimed by another worker, comes back by a rollback |
| `SharedEffects.WriterHadWon` | src/transcode_forge/api/routes/worker_api.py:651-794 | every catalog write, pending or durable, is that of a request that won the transition of that very attempt |
| `SharedEffects.TwoWritesMeanUndone` | src/transcode_forge/api/routes/worker_api.py:651-794 | in every run two catalog writes of one attempt are those of two requests, and the earlier one's transition was undone before the later one won |
| `SharedEffects.WholeReportIsTheOnlyOne` | src/transcode_forge/api/routes/worker_api.py:651-794 | when a report commits a transition that was not undone, any other catalog write of the attempt is left over from a transition undone before it |
| `SharedEffects.DuplicateRestsOnAFinish` | src/transcode_forge/api/routes/worker_api.py:130-163 | a duplicate is acknowledged on a standing finish with the reported outcome, and that outcome is durable later if and only if a finish of the attempt stands and was committed |
| `SharedEffects.AcknowledgedInVain` | src/transcode_forge/worker/outbox.py:1-66 | a run in which a report leaves the journal on a pending outcome that is then rolled back |
| `SharedReports.ReportCanBeTorn` | src/transcode_forge/db.py:92-112 | a run in which a rollback between the two writes leaves the job running, the catalog told and the worker answered 204 |
| `Undo.HoldsIffOneStands` | src/transcode_forge/db.py:71-112 | a fact set by statements on the shared connection holds if and only if some setting of it stands, and durably if and only if one stands and was committed |
| `Outbox.FileOrderIsJournalOrder` | src/transcode_forge/worker/outbox.py:71-118 | below 10^10 the order of file names is the order of sequence numbers, whatever follows the number |
| `Outbox.OrderBreaksAtTenDigits` | src/transcode_forge/worker/outbox.py:71-87 | at 10^10 the order breaks |
| `Outbox.NamesDiffer` | src/transcode_forge/worker/outbox.py:71-87 | entries with different numbers have different file names, whatever follows the number and however long it is |
| `Outbox.FirstIsOldest` | src/transcode_forge/worker/outbox.py:89-118 | below 10^10, first of its job in the listing is the same as oldest of its job in the journal |
| `Outbox.Outbox.NextSeq` | src/transcode_forge/worker/outbox.py:164-171 | greater than every number in the directory, torn files included |
| `Outbox.Outbox.Append` | src/transcode_forge/worker/outbox.py:71-87 | the new entry goes behind every other and changes none |
| `Outbox.Outbox.Entries` | src/transcode_forge/worker/outbox.py:89-118 | all readable entries in the order of their file names; torn ones set aside |
| `Outbox.Outbox.Drain` | src/transcode_forge/worker/http_agent.py:961-1060 | an entry is sent exactly when it is not parked (25 attempts, the last within 600 s) when it is looked at and no entry of its job listed before it is still there after the pass; it goes exactly when sent and settled, and otherwise is kept with its attempt counted; EMPTY exactly when nothing is left, or nothing was refused for auth and all that is left is parked |
| `Sidecars.SidecarRoundTrip` | src/transcode_forge/worker/storage/filesystem.py:262-269 | for every marker-free name, removing the first marker (the suffix, for a lock) gives the name back |
| `Sidecars.SidecarsOf` | src/transcode_forge/worker/storage/filesystem.py:262-269 | the three names of any `stem.ext` |
| `Sidecars.SidecarMarkers` | src/transcode_forge/worker/storage/filesystem.py:592-675 | a sidecar name carries its own marker and neither of the others |
| `Sidecars.SidecarsNeverCollide` | src/transcode_forge/scanner/probe.py:258-268 | the three maps are injective, their images disjoint from one another and from marker-free names, and the scanner rejects every image |
| `Sidecars.GlobsAreExact` | src/transcode_forge/worker/storage/filesystem.py:592-661 | no source, temporary output or backup ends in the lock marker, and no source carries the backup marker |
| `StartupScan.SidecarLeadsBack` | src/transcode_forge/worker/storage/filesystem.py:592-661 | of a source and its sidecars, the first glob lists the backup only and the second the lock only, and the listed name leads back to the whole family |
| `Recovery.TwoPassesAreOneRecovery` | src/transcode_forge/worker/storage/filesystem.py:592-675 | on one source the two passes equal single-path recovery if and only if there is no stray temporary output |
| `Recovery.RecoverEachView` | src/transcode_forge/worker/storage/filesystem.py:518-589 | recovering sources one after another treats each as if it were alone |
| `Recovery.TwoClocks` | src/transcode_forge/worker/storage/filesystem.py:461-515 | with two clock readings the passes equal recovery at the first if and only if nothing is stray and the lock does not expire in between, and at the second if and only if nothing is stray and no lock over a backup does |
| `Recovery.ScanIsRecoverEach` | src/transcode_forge/worker/storage/filesystem.py:461-515 | over a whole tree the passes leave the files of single-path recovery in any order, at either clock reading, if and only if they agree on every source |
| `Recovery.SomeLockExpires` | src/transcode_forge/worker/storage/filesystem.py:43-44 | there is such a lock: one second of clock between the passes is enough |
| `Recovery.LockExpiringBetweenPasses` | src/transcode_forge/worker/storage/filesystem.py:417-445 | whenever a lock over a backup goes stale between the passes, the result is one that neither clock reading gives |
| `StartupScan.MediaTree.RecoverSourcePath` | src/transcode_forge/worker/storage/filesystem.py:518-589 | its outcome and files for every combination of faults; nothing outside the family changes; clean, cleaned and restored leave the right content at the source |
| `StartupScan.MediaTree.Scan` | src/transcode_forge/worker/storage/filesystem.py:592-675 | one glob pass over a tree treats every source of the tree, found by name alone, exactly once |
| `StartupScan.MediaTree.RecoverOrphanedBackups` | src/transcode_forge/worker/storage/filesystem.py:461-515 | the scan equals single-path recovery of every source, in any order, at the first or at the second clock reading, if and only if they agree on every source |
| `Swap.NoFileIsEverLost` | src/transcode_forge/worker/storage/filesystem.py:272-346 | at every moment of every run, with crashes anywhere and every recovery finding the lock of a running pipeline fresh, the accepted content is at the source or the backup name, and it is the original or an encode that passed CONFIRM |
| `Swap.BackupIsNeverOverwritten` | src/transcode_forge/worker/storage/filesystem.py:290-301 | a backup stays as it is, goes back to the source name, or goes for good once its confirmed successor is accepted |
| `Swap.RecoveryLeavesTheAccepted` | src/transcode_forge/worker/storage/filesystem.py:518-589 | clean, cleaned and restored leave the accepted content at the source name and no backup |
| `Swap.ReleaseLeavesTheAccepted` | src/transcode_forge/worker/storage/ownership.py:164-210 | a transaction that ends by itself ends at the unlock, an unconfirmed swap then being rolled back to the accepted content at the source; or, its rollback having failed, it keeps the lock over a backup that is the accepted content |
| `Swap.ConfirmedSwapStays` | src/transcode_forge/worker/storage/ownership.py:151-210 | in every respected run a transaction whose CONFIRM passed and that ends by itself leaves the content that passed at the source; if the delete of the backup went through there is no backup and that content is the accepted one, otherwise the backup is still the former accepted content |
| `Swap.GoodSwap` | src/transcode_forge/worker/storage/filesystem.py:272-320 | from any quiet state a swap without errors puts the encode at the source name and the original at the backup name |
| `Swap.GoodFinish` | src/transcode_forge/worker/storage/ownership.py:151-210 | a confirmed swap without errors ends with the encode accepted at the source name and nothing beside it |
| `Swap.BadConfirmRestores` | src/transcode_forge/worker/pipeline.py:630-660 | a rejected one ends with the original at the source name and nothing beside it |
| `Swap.CrashThenRecoveryHeals` | src/transcode_forge/worker/storage/filesystem.py:518-589 | after a crash in any reachable state, recovery by a worker to whom the lock is not active leaves the accepted content at the source and nothing else, except for a backup beside a source without a lock, which it leaves alone |
| `Swap.DisrespectLoses` | src/transcode_forge/worker/storage/filesystem.py:429-445 | that condition is the right one: in every state between the two renames in which a worker takes the lock for stale, one operation of its recovery and one of the swap lose the accepted content |
| `Swap.LiveLocksAreRespected` | src/transcode_forge/worker/storage/filesystem.py:43-44 | the condition holds in every run in which a running pipeline's lock never gets 900 s old, however late its refreshes |
| `Swap.LockIsAsOldAsItsRefresh` | src/transcode_forge/worker/storage/ownership.py:220-246 | in every respected run the lock of a running pipeline is no older than its last refresh |
| `Swap.StalledSwapLoses` | src/transcode_forge/worker/storage/ownership.py:239-246 | a run in which a pipeline stalls past the stale bound and the original is lost |
| `Swap.MachineRecovery` | src/transcode_forge/worker/storage/filesystem.py:518-589 | recovery in the crash machine, when not cut short, is the recovery of the tree, answers included |
| `Swap.OwnedSource.AtomicSwap` | src/transcode_forge/worker/storage/filesystem.py:272-320 | the two renames and their undo, tied to the machine's steps: a pre-existing backup is refused untouched, and any failure leaves the original in one of the two places |
| `Swap.OwnedSource.RollbackSwap` | src/transcode_forge/worker/storage/filesystem.py:323-346 | true exactly when the original is in place |
| `Swap.OwnedSource.SwapAndBack` | src/transcode_forge/worker/storage/ownership.py:164-189 | an unconfirmed swap followed by a rollback restores the original whatever failed on the way, or says that it did not |
| `GrantInvariant.StepKeepsInv` | src/transcode_forge/repos/oauth.py:451-659 | every statement, commit, rollback and purge keeps rows in step with the requests that wrote them and at most one unit per grant, pending and durable |
| `GrantRuns.OneUnitPerGrant` | src/transcode_forge/repos/oauth.py:451-659 | for each grant, unspent code + issuance under way + unspent refresh tokens never exceeds 1, in every run |
| `GrantRuns.SpentForGood` | src/transcode_forge/repos/oauth.py:505-530 | once the marker has been read back, every row of the credential carries it for ever, pending and durable |
| `GrantRuns.OneRedemptionWins` | src/transcode_forge/repos/oauth.py:505-560 | at most one redemption of a code or refresh token ever succeeds |
| `GrantConsent.ExchangeHappened` | src/transcode_forge/mcp/authz.py:407-455 | whatever is issued under a grant goes back, through any number of rotations, to an exchange of its code that matched client, redirect URI and verifier |
| `GrantApproval.ApprovalMintsIff` | src/transcode_forge/repos/oauth.py:451-489 | whatever others do in between, an approval ends with its code on the transaction exactly when the row was undecided with that nonce at the UPDATE, open and unexpired when read, and row and grant are there when the code is recorded; the code has 600 s from the UPDATE and the grant the transaction's terms and 30 days |
| `GrantApproval.PurgeDropsTheExpired` | src/transcode_forge/repos/oauth.py:563-568 | a purge drops exactly the expired transactions with their codes, and no grant or token |
| `GrantIssuance.ExchangeIssuesIff` | src/transcode_forge/mcp/authz.py:407-435 | in every run an exchange issues its pair exactly when the code's row is unspent at the UPDATE, not undone before the commit, kept until it is looked up, unexpired at arrival, and equal in client, redirect URI (if sent) and verifier; the access token then expires at min(now + 3600, deadline) and the refresh token at the deadline, both unspent; otherwise the request never puts a token under the grant |
| `GrantIssuance.RotationIssuesIff` | src/transcode_forge/repos/oauth.py:611-659 | in every run a rotation issues such a pair exactly when token and grant are kept, unspent, unexpired and not revoked, the client is not disabled and the scopes are no wider at the first look, the token is unspent at the UPDATE and not undone before the commit, and the client is the grant's own |
| `GrantIssuance.WinsIff` | src/transcode_forge/repos/oauth.py:505-530 | a request has spent the credential exactly when it was unspent at the UPDATE, no rollback preceded the commit, and the row is there at the read-back |
| `GrantPrincipals.PrincipalIff` | src/transcode_forge/repos/oauth.py:269-312 | a principal is returned exactly for an access token that is kept, unspent and unexpired, under a grant that is kept, unexpired and not revoked, of a client not disabled, for the grant's resource; and it says what the grant says |
| `GrantPrincipals.KeptIffNotUndone` | src/transcode_forge/repos/oauth.py:582-608 | in every run a token is there, with the deadline it was inserted with, exactly as long as its INSERT is not undone, and durably exactly once it was committed |
| `GrantPrincipals.VerifiesIff` | src/transcode_forge/repos/oauth.py:269-312 | in every run an issued access token stands for a principal exactly when its INSERT was not undone, it has not expired, no revocation of its grant stands, the client is not disabled and the resource is the one consented to |
| `GrantPrincipals.PairIsWorth` | src/transcode_forge/repos/oauth.py:582-608 | the same of a pair that an exchange or a rotation issued, with its own deadlines, at every later moment |
| `GrantPrincipals.DisabledClientIsBarred` | src/transcode_forge/repos/oauth.py:132-138 | from the moment a client is disabled, if that is not undone, none of its tokens stands for a principal or can be rotated |
| `GrantPrincipals.RevokesByTokenIff` | src/transcode_forge/repos/oauth.py:662-674 | a revocation by token goes on to revoke the grant exactly when the token is kept and belongs to the client that asks |
| `GrantConsent.ConsentConfinement` | src/transcode_forge/repos/oauth.py:269-312 | a principal traces back to a transaction approved undecided with its latest nonce, with that transaction's client, scopes and resource, within the deadline fixed at consent; its row, where kept, is spent, and every denial of it was undone by a rollback before anything committed it |
| `GrantDecisions.DeniedIffOneStands` | src/transcode_forge/repos/oauth.py:492-502 | in every run a transaction whose row is kept is denied if and only if some denial of it stands, and durably if and only if one stands and was committed |
| `GrantDecisions.DenialLasts` | src/transcode_forge/repos/oauth.py:492-502 | while a denial is not undone the row is denied wherever kept and nobody approves the transaction; the rollback that undoes it puts everything pending back to what was durable |
| `GrantConsent.OneApproval` | src/transcode_forge/repos/oauth.py:451-489 | a grant has exactly one approval and one transaction |
| `GrantRevocation.ReplayRevokes` | src/transcode_forge/repos/oauth.py:533-560 | after a credential was redeemed, any other request on it goes on to revoke if the row is kept, and never issues |
| `GrantRevocation.ReplayEndsTheGrant` | src/transcode_forge/repos/oauth.py:611-659 | after a second use of a redeemed credential, noticed at the first look or after a lost race, whose revocation is not undone, no token under the grant ever verifies again, whoever else revokes it |
| `GrantRevocation.RevokedIffOneStands` | src/transcode_forge/repos/oauth.py:182-190 | in every run a grant is revoked if and only if some revocation of it stands, and durably if and only if one stands and was committed |
| `GrantRevocation.NothingVerifiesUnderADeadGrant` | src/transcode_forge/repos/oauth.py:269-312 | once a grant is revoked in what is pending and what is durable, no token under it verifies in any later state, tokens issued meanwhile included |
| `GrantRevocation.RevocationLasts` | src/transcode_forge/repos/oauth.py:182-190 | after a commit the grant is dead if and only if some revocation stands (or its row is gone with a rollback), and this one stands if and only if no rollback preceded the first commit after its UPDATE |
| `GrantRevocation.RevocationCanBeLost` | src/transcode_forge/repos/oauth.py:182-190 | a run in which the revocation is lost |
| `GrantRevocation.DenialCanBeLost` | src/transcode_forge/repos/oauth.py:492-502 | a run in which a stamped denial is rolled back and the same nonce approves |
| `GrantStore.Store.Consume` | src/transcode_forge/repos/oauth.py:505-530 | true exactly when the credential was unspent and the stamp was not rolled back; a lost stamp leaves the durable state |
| `GrantStore.Store.RedeemCode` | src/transcode_forge/repos/oauth.py:533-560 | redeemed exactly when kept, unspent and unexpired; replayed exactly when kept and spent, and then the grant is revoked |
| `GrantStore.Store.RedeemTwice` | src/transcode_forge/repos/oauth.py:533-560 | a second use of a kept code is a replay and ends the grant |
| `GrantStore.StampShows` | src/transcode_forge/repos/oauth.py:519-530 | the UPDATE changes a row exactly when the credential is unspent, and exactly then the marker can be read back |
| `StreamPlan.PlanIsComplete` | src/transcode_forge/worker/encoder.py:153-223 | with distinct indexes the plan names each stream exactly once, as kept or dropped |
| `StreamPlan.PlanByKind` | src/transcode_forge/worker/encoder.py:153-223 | the first video stream that is no picture leads with the target codec; any other stream is dropped exactly when it is data, unidentified, or a subtitle whose number among the subtitles was given, each with its own reason, and is carried as it is otherwise |
| `StreamPlan.UnmuxableByNumber` | src/transcode_forge/worker/encoder.py:153-223 | a stream is among the unmuxable exactly when it is a subtitle whose number was given |
| `StreamPlan.PlanPassesTheCheck` | src/transcode_forge/worker/pipeline.py:223-253 | the pre-encode check never finds a stream left behind, and refuses the plan if and only if a non-primary index occurs twice |
| `StreamPlan.PlanLead` | src/transcode_forge/worker/encoder.py:139-213 | ordinals are consecutive; there is a primary exactly when some video stream is not a picture, and then it is at ordinal 0 with the target codec |
| `StreamPlan.PlanOrder` | src/transcode_forge/worker/encoder.py:153-223 | every kept stream but the primary is a copy, and any two of them stand in source order |
| `StreamCheck.CoversIffEmbeds` | src/transcode_forge/worker/pipeline.py:214-220 | the greedy iterator test holds if and only if a strictly increasing embedding exists |
| `StreamCheck.Shortfall` | src/transcode_forge/worker/pipeline.py:292-306 | the streams reported lost are the multiset difference of promised and produced |
| `StreamCheck.VerifyInventory` | src/transcode_forge/worker/pipeline.py:256-318 | accepted exactly when the promise embeds in order; out of order exactly when it does not and nothing is missing |
| `StreamCheck.OutOfOrderIsAReordering` | src/transcode_forge/worker/pipeline.py:307-311 | an empty difference after a failed test means that every promised stream has a place of its own, and no placement is in order |
| `StreamCheck.NothingSilentlyLost` | src/transcode_forge/worker/pipeline.py:256-318 | when the output check passes, every source stream that is not data, unidentified or a subtitle given by number is in the output in order with its own attributes, the first video stream with the target codec |
| `Search.FindQuality` | src/transcode_forge/worker/vmaf.py:484-547 | none exactly when the low end misses; otherwise probed, meeting both bars with its own scores, its successor out of range or probed and missed; the largest when meeting is downward closed; at most 2 + floor(log2(hi - lo)) probes, attained when everything meets |
| `Search.Log2IsFloor` | src/transcode_forge/worker/vmaf.py:486-488 | the bound of the search is the logarithm rounded down |
| `Pooling.PoolBounds` | src/transcode_forge/worker/vmaf.py:173-183 | min is the least score; min <= perc5 and min <= mean; more than 95% of frames score at least perc5, and at least floor((n - 1)/20) + 1 at most perc5; perc5 - mean <= (perc5 - min)/20 |
| `Pooling.OrderedIsSorted` | src/transcode_forge/worker/vmaf.py:177 | the pooled list is the sorted permutation, with the same sum and counts |
| `Pooling.PercentileBelowMeanIff` | src/transcode_forge/config.py:149-151 | perc5 <= mean for all lists of n frames if and only if n <= 20 |
| `Limiter.RateLimiter.Allow` | src/transcode_forge/mcp/auth.py:84-94 | the answer and the new windows of every call, pruning included |
| `Limiter.Wait` | src/transcode_forge/mcp/auth.py:84-94 | 0 exactly for a key without a window, with a window of 60 s or more, or below its limit; otherwise waiting as told ends after the window, and at most one second after it |
| `Limiter.TwiceTheLimit` | src/transcode_forge/mcp/auth.py:77-94 | any half-open interval of 60 s admits at most twice max(1, limit) less one calls per key, for every call sequence |
| `Limiter.TwiceTheLimitIsAttained` | src/transcode_forge/mcp/auth.py:77-94 | for every limit a call sequence attains that bound |
| `Limiter.AdmitsIsTheAnswer` | src/transcode_forge/mcp/auth.py:84-94 | the admissions counted are the calls that the limiter answers with 0 |
| `Limiter.WaitingIsEnough` | src/transcode_forge/mcp/auth.py:91-92 | a caller that waits the returned seconds with no other call on its key is admitted |
| `Limiter.PruningIsInvisible` | src/transcode_forge/mcp/auth.py:96-100 | pruning never changes an answer compared with a limiter that never prunes |
| `Limiter.ZeroStillAdmitsOne` | src/transcode_forge/mcp/auth.py:87-90 | a limit of zero admits the first call of a window |
| `Fence.HeartbeatLoop` | src/transcode_forge/worker/http_agent.py:283-339 | the aborts the loop requests, tied to the turn function |
| `Fence.AbortsInTime` | src/transcode_forge/worker/http_agent.py:312-338 | a worker cut off with a job in flight requests one abort, between the fence and one interval plus one timeout after it |
| `Fence.FenceAgainstTheSweep` | src/transcode_forge/repos/jobs.py:432-450 | for a row bumped within 120 - I - 30 s of the last contact the abort precedes every instant at which the orphan sweep may requeue; for one bumped more than 120 s before there is such an instant ahead of the abort |
| `Fence.FenceIsTight` | src/transcode_forge/worker/http_agent.py:57-81 | for any row bumped earlier than 120 - I - 30 s before the last contact there is a partition whose abort comes after an instant at which the sweep may requeue, whenever failures can end just short of the fence |
| `Fence.ShortIntervalsReach` | src/transcode_forge/config.py:63 | for intervals up to 30 s they can, for every fence beyond the first turn |
| `Fence.OrphanSweepWaits` | src/transcode_forge/repos/jobs.py:432-450 | what the orphan sweep takes satisfies the condition that the fence is measured against |

## Left out

- Job and worker columns that no guard reads, apart from `progress`; catalog rows beyond the delete (the catalog write of a report is one effect).
- Workers that predate claim tokens: the stale-attempt theorem is about reports that carry one; `Attempts.TokenlessReportHitsTheNextAttempt` shows why.
- The read of the worker row in `_require_claim_token` is taken together with the read of the job row; deleting a worker (its read and its delete) is one step.
- Agreement of the catalog with a job finished by the dedup shortcut, which completes without a catalog write: `Delivery` records such attempts apart, and proves only that they have no second write.
- Rollbacks in `Attempts`, `Liveness` and `JobStore`: there every statement is durable when it is made, which is PostgreSQL's behaviour; `SharedAttempts` has the stale-attempt fence on the shared SQLite connection, while the sweeps are not modelled there in time.
- Effects.EffectsExactlyOnce: about runs in which nobody else commits or rolls back between a report's transition and its own commit, as on PostgreSQL; `SharedReports` and `SharedEffects` are about all runs.
- At most one live job per path: retry does not look for another one, so it is not an invariant.
- S3 and scratch storage.
- Two recoveries of the same path at once, and the gap between creating and filling a lock file: each recovery call and each lock creation is one step, though a recovery may be cut short after any of its operations.
- Swap.NoFileIsEverLost: a worker recovers a path before its own pipeline on it, not during, and every recovery finds the lock of a running pipeline fresh; `Swap.DisrespectLoses` and `Swap.StalledSwapLoses` show that it is false otherwise. A lock file that does not parse is not modelled.
- StartupScan.MediaTree.RecoverOrphanedBackups: one root, no rename or unlink errors, and its counters are left out; the clock does not go back between the passes.
- Sidecars: the stem and suffix rule of `pathlib` is modelled as in Python before 3.14 (a name that ends in a dot has no suffix).
- Manual bearer grants, client registration (re-enabling a disabled client included) and the user id on a grant: a manual grant has one access token and no code or refresh token.
- The read of the open transaction that precedes a decision in the consent handler, and every commit in the grant store other than those of spending and revoking: the model lets anybody commit at any time, which allows more runs.
- PostgreSQL, where each request has its own connection: the shared SQLite connection is the harder case.
- HMAC, SHA-256 and PKCE digests: credentials are distinct values, the verifier is represented by its digest.
- GrantStore.Store.RedeemCode: no other request comes between its statements; the interleavings are in `GrantRuns`, `GrantRevocation` and `GrantIssuance`.
- Fence.FenceAgainstTheSweep: turns in which the worker's own state cannot be read do not count towards the fence, so the bound is for partitions without such turns.
- Fence.FenceIsTight: where a long interval leaves a gap before the fence that no number of failures can reach into, the abort comes earlier and the bound is not attained.
- Floating point: times and scores are reals, and the rank of perc5 is (n - 1) / 20 rounded down.
- ffmpeg, ffprobe, subprocesses, HTTP, Redis, templates, settings, schedules and the demo simulator.
- Settings validation, quality mapping, `Backoff` and the `-map` argument list: each would add an easy member only.
