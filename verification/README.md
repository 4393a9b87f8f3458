# Verification of the billing backend's protocols

A Dafny model of the parts of the billing backend whose promises depend on guarded writes, crash
points and interleavings: e-mail delivery, the encrypted secret store with its backup, idempotent
issuance, immutable evidence and verdicts, and the outbound circuit breaker; together with the exact
kernels under them: canonical JSON, scaled decimals, the fiscal key, and the XML traversals.

`dafny verify dfyconfig.toml` checks everything.

## How the model is built

Each protocol is a transition system: a state, a `Step` for every atomic action (one database
statement, one file-system call, one stretch of code between two awaits), a total function `Apply`
that ignores a step which is not enabled, and `Run` over a sequence of steps. So every sequence of
steps is a run, and a statement about `Run(Init(), steps)` is about every interleaving, with processes
stopping anywhere. Beside the systems stand classes in the form of the code, whose methods update
tables, files or fields one statement after the other and are proved against functions of the old
state. For their main calls a lemma shows that what the method does is a run of the system, so that the
results about all runs apply to it: `ProcessedIsRun` (delivery worker), `ExecutionIsRun` (circuit
breaker), `WriteIsRun` (secret store), `CreationIsRun` (issuance), `UploadIsRun` (object store) and
`CallIsRun` (evidence). What a step, a call or a computation does is stated a second time, for all
inputs and without the functions that define it: on statuses and times, fields and texts, rows and
files, or positions in a tree. The calls of the delivery worker, of the object store and of the evidence
services take arbitrary steps of others at every await. `FiscalStorage` connects two systems: what the
object store does to the files of a document is the atomic put of the evidence system.

| module | content |
|---|---|
| `RetryClassifier`, `DeliveryModel`, `DeliverySafety`, `DeliveryLimits`, `DeliveryAttempts`, `DeliveryAttemptLimits`, `DeliveryServices`, `DeliveryRecovery`, `DeliveryOutcomes` | delivery rows, workers, recovery scans and re-queues; the mail bound, and runs that attain it; the attempt bounds, and for all numbers of events a run with the most attempts; the worker and the scan as methods; claims and leases; what each operation leaves, field by field |
| `CircuitBreaker`, `CircuitBreakerReports` | sliding-window limiter, breaker and retry under concurrent callers; the object; what each reply, report and pass of the limiter does |
| `SecretStoreModel`, `SecretStoreSafety`, `SecretStoreLineage`, `SecretStoreRefinement`, `SecretStoreLimits`, `SecretStore`, `SecretStoreReading`, `SecretStoreSteps` | one secret directory as a file system with writers, readers, crashes and stale locks; what always holds; exactly when a commit is lost; refinement of a map when locks exclude; runs that show the limits; the provider as a class; reads and validation on any files; locks and failures |
| `PathText`, `SecretBackup`, `SecretRestore` | POSIX paths as text; listing, manifest, backup and restore |
| `CanonicalJson`, `CanonicalText`, `FiscalPayload`, `FiscalForm`, `FiscalPayloadMeaning` | the canonical printer with a parser, and how it spells; normalization of JSON values; the payload of a fiscal document, and what it says key by key |
| `ScaledDecimal`, `FiscalKey`, `DecimalText` | amounts and totals, consecutives and keys, decimal digits |
| `IssuanceModel`, `IssuanceSafety`, `Issuance`, `IssuanceService`, `IssuanceAnswers`, `IssuanceLookups` | idempotency keys, sequences and documents under interleaved transactions; the service as a class; what a creation answers; the lookups on any rows |
| `XmlTraversal`, `XmlPositions` | the two stack-based traversals against recursion, and by positions in the tree |
| `LocalStorage`, `LocalStorageFailures` | first-writer-wins uploads as a file system and as atomic puts; the adapter as a class; failing calls and crashes |
| `FiscalEvidenceModel`, `FiscalEvidence`, `FiscalEvidenceCalls`, `FiscalEvidenceService`, `FiscalEvidenceOutcomes`, `FiscalStorage` | XML preparation, submission and verdict of one document; the calls with interference; the services as a class; what each call leaves; its objects in the store |
| `Common` | Option, Result, minimum, trimming, put-if-absent |

## What the code does not keep

Where a promise fails for some inputs, the model follows the code, the condition is stated, and a run
shows the failure.

- A delivered row is left if and only if a re-queue of it is written, and any such write leaves it,
  because none stops at a row delivered since its read (`DeliveredIsLeftByRequeue`,
  `RequeueReopensDelivered`, `EnsureOverwritesDelivered`).
- Mails are at most one only as long as nobody re-queues the row and no exception follows an accepted
  send. `MailsNeverExceedAllowance` bounds the mails by one plus the re-queues plus these exceptions, and
  `AllowanceIsAttained` attains the bound for all numbers of both (`LateExceptionDuplicatesMail`,
  `EnsureDuplicatesUnknownOutcome`).
- Attempts are at most nine only as long as there is no re-queue, no claim on an outdated count and no
  late exception: one such exception alone takes them to 17 (`LateExceptionAddsAttempts`). The exact
  account is nine for the creation and for each re-queue, and eight for each of the others
  (`AttemptsInNumbers`, `AttemptsAreAttained`). Late exceptions are worth less the more there are: each
  claim allows one, those at count zero are worth eight claims, those at count one seven, and so on;
  `AttemptsAreBounded` gives a bound for every price of them, and `MostAttempts` says that for all
  numbers of events that a run can have, one of these bounds is attained.
- The decision on a corrupt artifact is FAILED, although a comment announces a manual review; a
  timeout before the send is classified as an unknown provider response, because the worker maps
  outcomes and not its own error class (lines 240-256 and 477-497 of the delivery worker).
- A secret directory whose first write crashed makes validation fail
  (`CrashInFirstWriteLeavesNoMetadata`); versions above 99 999 999 are written but not readable
  (`RecognisedVersions`, `StoredReadsBack`).
- A rename of the metadata drops a committed version if and only if the metadata is no longer what the
  writer read, a comparison the code leaves to the lock (`RenameLosesNothing`); over a run, all commits
  stay listed if and only if no rename does that (`CommitsAreListed`). Exclusive locks suffice
  (`NoCommitIsLost`), and a live lock broken as stale loses a commit (`BrokenLiveLockLosesCommit`).
- Path checks by `path.relative` also refuse names that begin with two dots, and let two roots nest
  below such a name (`RelationMeaning`, `SeparateRootsMeaning`).
- `multiply` is half-up if and only if the shifted product is non-negative or divisible, so below -50000
  it is so at exact halves alone (`MultiplyRoundsHalfUp`). No caller meets such a product, because
  quantity and price are validated non-negative when a document is created.
- A submission with a verdict can be queued again by the unguarded mark of an earlier read
  (`SubmissionVerdictIsFinal`, `StaleMarkReopensAccepted`, `LoadedAcceptedIsRequeued`).
- The lookup by key reports an integrity error for a created document exactly when it is asked for
  another environment (`LookupAgreesWithCreation`).

## Assumptions

- SHA-256 and AES-GCM are injective, and decrypting inverts encrypting under the same key and
  associated data. Manifest and metadata texts are read back as written.
- A process may stop between any two steps; what a completed call wrote stays.
- The mail port reports DELIVERED only for an accepted mail, and an accepted mail only as DELIVERED or
  UNKNOWN.
- Database statements are atomic, an insert waits for an uncommitted row with the same unique key, an
  upsert waits for the row lock, and a transaction that fails leaves nothing.
- The clock of the circuit breaker never goes back; timers fire at most 10 ms early.

## Model

| member | source | states |
|---|---|---|
| DeliverySafety.MailsNeverExceedAllowance | src/modules/fiscal-documents/application/delivery/delivery-worker.service.ts:122-259 | Over every interleaving of workers (which may crash or throw anywhere), duplicated messages, recovery scans and re-queues, the mails SMTP accepted for a delivery never exceed one plus its re-queues plus the exceptions caught after a send was already accounted for |
| DeliverySafety.UndisturbedDelivery | src/modules/fiscal-documents/application/delivery/delivery-worker.service.ts:122-259 | Without re-queues and such exceptions: at most one mail, at most one worker in flight, nobody in flight and no mail yet while the row can be claimed, and a DELIVERED row means exactly one mail and no worker that could still send |
| DeliverySafety.DeliveredIsLeftByRequeue | src/modules/fiscal-documents/application/delivery/delivery-worker.service.ts:428-440 | In any state, a step changes a DELIVERED row, and its status, if and only if it is the write of a re-queue of that delivery, which is counted; worker writes and recovery scans never touch it |
| DeliverySafety.RequeueReopensDelivered | src/modules/fiscal-documents/application/delivery/ensure-hacienda-response-delivery.service.ts:290-320 | The row such a write leaves can be claimed again, unless it is the one for a missing PDF and its class is beyond a retry |
| DeliverySafety.DeliveredIsFinal | src/modules/fiscal-documents/application/delivery/delivery-worker.service.ts:170-183 | Over any run without a re-queue of it, a DELIVERED row stays exactly as it is |
| DeliveryAttempts.AttemptsAreBounded | src/modules/fiscal-documents/application/delivery/delivery-worker.service.ts:416-440 | Over every run, and for every price of a late exception: the claims of a delivery, with all that can still come of its workers and its row, stay within what its re-queues, stale claims and late exceptions allow |
| DeliveryAttempts.AttemptsInNumbers | src/modules/fiscal-documents/application/delivery/delivery-worker.service.ts:416-440 | Over every run: nine claims for the creation and for each re-queue, eight for each stale claim and each late exception; and 511 and 510 for the others alone, whatever the number of late exceptions |
| DeliveryAttempts.LateExceptionsAreClaims | src/modules/fiscal-documents/application/delivery/delivery-worker.service.ts:226-258 | Over every run, each claim leads to one late exception at most |
| DeliveryAttemptLimits.MostAttempts | src/modules/fiscal-documents/application/delivery/delivery-worker.service.ts:416-440 | For all numbers of re-queues, stale claims and late exceptions: the most claims of all runs with these numbers are what one of the prices allows, or there are more late exceptions than claims can be, and no run has them |
| DeliveryAttemptLimits.AttemptsAreAttained | src/modules/fiscal-documents/application/delivery/delivery-worker.service.ts:416-440 | Runs with exactly nine claims for the creation and for each re-queue, and eight for each stale claim and late exception, up to one late exception for each claim at count zero |
| DeliveryAttemptLimits.LateExceptionAddsAttempts | src/modules/fiscal-documents/application/delivery/delivery-worker.service.ts:226-258 | A run without an event has nine claims, and one with a single late exception, after the failure was written, has 17 |
| DeliverySafety.StepKeepsAccount | src/modules/fiscal-documents/application/delivery/delivery-worker.service.ts:122-259 | The inductive step: exposure (mails, plus workers that may still send, plus a claimable row) stays within the allowance, under each of the sixteen kinds of step |
| DeliveryAttempts.StepSpends | src/modules/fiscal-documents/application/delivery/delivery-worker.service.ts:416-440 | The decreasing measure: under each of the sixteen kinds of step, in any state, claims use up remaining ones, and only a creation, a re-queue, a stale claim or a late exception gives new ones |
| DeliveryLimits.AllowanceIsAttained | src/modules/fiscal-documents/application/delivery/delivery-request.service.ts:100-125 | The mail bound is tight in both terms: for all n and k there is a run with n re-queues, k late exceptions and 1 + n + k mails |
| DeliveryLimits.LateExceptionDuplicatesMail | src/modules/fiscal-documents/application/delivery/delivery-worker.service.ts:226-258 | A run with no re-queue that mails twice, because a database error after an accepted send is classified as retryable: the instance n = 0, k = 1 of that bound |
| DeliveryLimits.EnsureDuplicatesUnknownOutcome | src/modules/fiscal-documents/application/delivery/ensure-initial-fiscal-package.service.ts:215-240 | A run in which the ensure service re-queues a row quarantined with unknown outcome, and the mail goes out twice |
| DeliveryLimits.EnsureOverwritesDelivered | src/modules/fiscal-documents/application/delivery/ensure-hacienda-response-delivery.service.ts:290-320 | A reachable state with a DELIVERED row which the unguarded write of an earlier ensure read turns back to QUEUED |
| DeliveryLimits.StaleCountsUnboundAttempts | src/modules/fiscal-documents/application/delivery/delivery-worker.service.ts:89-140 | For every n, a run without re-queues and late exceptions that claims one delivery n times, on counts loaded before the claim |
| DeliveryServices.ProcessedIsRun | src/modules/fiscal-documents/application/delivery/delivery-worker.service.ts:84-259 | processDelivery, with any steps of others between its statements, is a run of the transition system the safety results are about |
| DeliveryServices.SettledRows | src/modules/fiscal-documents/application/delivery/durable-delivery-recovery.service.ts:61-83 | The two bulk updates keep the set of rows, every row QUEUED afterwards was claimable before, and the first does not change what the second finds due |
| DeliveryServices.DeliveryServer.ProcessDelivery | src/modules/fiscal-documents/application/delivery/delivery-worker.service.ts:84-259 | The statements on the two tables leave exactly the state the transition system gives, for all answers of the mail port and all interference at the six awaits, and the worker has ended |
| DeliveryServices.DeliveryServer.LoadDelivery | src/modules/fiscal-documents/application/delivery/delivery-worker.service.ts:89-120 | The early exits are taken exactly for a missing and for a delivered row; otherwise the worker holds the attempt count read |
| DeliveryServices.DeliveryServer.ClaimDelivery | src/modules/fiscal-documents/application/delivery/delivery-worker.service.ts:122-138 | The claim succeeds exactly if the row is QUEUED or RETRY_PENDING at that moment |
| DeliveryServices.DeliveryServer.Transmit | src/modules/fiscal-documents/application/delivery/delivery-worker.service.ts:154-225 | Failed preparation, delivered mail and failed mail go their three ways to an ended worker |
| DeliveryServices.DeliveryServer.WriteDeliveredRow | src/modules/fiscal-documents/application/delivery/delivery-worker.service.ts:170-183 | The guarded write is the delivered step of the system: it never rewrites a delivered row |
| DeliveryServices.DeliveryServer.WriteFailureRow | src/modules/fiscal-documents/application/delivery/delivery-worker.service.ts:416-440 | The guarded write is the failure step of the system, with the status the classifier chose |
| DeliveryServices.DeliveryServer.FindCandidates | src/modules/fiscal-documents/application/delivery/durable-delivery-recovery.service.ts:85-90 | The batch is the longest prefix, up to the limit, of the queued rows in scope in query order; none is missing unless the batch is full |
| DeliveryServices.DeliveryServer.Publish | src/modules/fiscal-documents/application/delivery/durable-delivery-recovery.service.ts:94-116 | Exactly the accepted messages are published, in order, and every candidate is counted once as republished or failed |
| DeliveryServices.DeliveryServer.RecoverOnce | src/modules/fiscal-documents/application/delivery/durable-delivery-recovery.service.ts:52-127 | On statuses and times: exactly the SENDING rows in scope whose last attempt is earlier than now less the lease go to manual review, exactly the due retries in scope are queued, no other row or field changes, the two counts are those of these changes; published are queued rows in scope alone, none of them a row that was SENDING, and none is skipped unless the batch is full |
| DeliveryServices.ScanDecides | src/modules/fiscal-documents/application/delivery/durable-delivery-recovery.service.ts:61-83 | Over any rows, on statuses and times: a row is in manual review after a scan exactly if it was, or was being sent since before the lease; it is QUEUED exactly if it was, or its retry was due; nothing else of any row or worker changes |
| DeliveryServices.CountsAreChanges | src/modules/fiscal-documents/application/delivery/durable-delivery-recovery.service.ts:61-83 | The two counts of a scan are the numbers of rows that went from SENDING to manual review and from RETRY_PENDING to QUEUED |
| DeliveryServices.EligibleKeepsOrder | src/modules/fiscal-documents/application/delivery/durable-delivery-recovery.service.ts:85-90 | The candidates keep the order of the query |
| DeliveryServices.AcceptedKeepsOrder | src/modules/fiscal-documents/application/delivery/durable-delivery-recovery.service.ts:94-116 | The published messages are those that the queue accepts, as often and in the order of the candidates |
| DeliveryRecovery.ClaimDatesRow | src/modules/fiscal-documents/application/delivery/delivery-worker.service.ts:122-128 | A claim dates its row with the start of the worker |
| DeliveryRecovery.LiveClaimStays | src/modules/fiscal-documents/application/delivery/durable-delivery-recovery.service.ts:61-76 | Over any run, a claimed row stays with its worker until a write or a re-queue of it, through every scan whose lease does not reach back to the start of the worker |
| DeliveryRecovery.SilentClaimIsTaken | src/modules/fiscal-documents/application/delivery/durable-delivery-recovery.service.ts:61-76 | The first scan after the lease takes the row from a worker that was silent over any run, if and only if the row is in scope |
| DeliveryOutcomes.LoneProcessing | src/modules/fiscal-documents/application/delivery/delivery-worker.service.ts:84-259 | An undisturbed processDelivery on a claimable row, field by field: one mail if the port accepted it, a completed attempt with the next number, and the row DELIVERED now, or with the status and due time that the code, the outcome, the attempts so far and the jitter decide |
| DeliveryOutcomes.NothingToProcess | src/modules/fiscal-documents/application/delivery/delivery-worker.service.ts:104-138 | A row that is missing, delivered, or not waiting to be sent is left alone |
| DeliveryOutcomes.ThrownIsHandled | src/modules/fiscal-documents/application/delivery/delivery-worker.service.ts:226-258 | An exception after the send is handled once, as an unknown response; a second one ends the worker; neither touches a row |
| DeliveryOutcomes.LoneRequeue | src/modules/fiscal-documents/application/delivery/accepted-fiscal-package-resend.service.ts:300-362 | For each of the four services, not overtaken: the rows it re-queues as an if-and-only-if on status, class and cooldown, and what it leaves of status, count and due time |
| DeliveryOutcomes.LateWrite | src/modules/fiscal-documents/application/delivery/accepted-fiscal-package-resend.service.ts:344-358 | The write of a service on a row that changed since its read: only the accepted-package service looks at the status again |
| DeliveryOutcomes.RowsBegin | src/modules/fiscal-documents/application/delivery/ensure-initial-fiscal-package.service.ts:280-335 | A new row is QUEUED without attempts; one for a missing PDF waits thirty seconds with one attempt counted, or has failed for an unusable one; existing rows stay |
| RetryClassifier.WorkerFailureStatus | src/modules/fiscal-documents/domain/delivery/delivery-retry-classifier.ts:57-223 | Which failures retry, fail, or wait for a person, as an if-and-only-if on outcome, code and count; an outcome that may have been accepted never retries; the delay is 30 s for a missing artifact and within [60, 3600] otherwise |
| RetryClassifier.ClassesOfStatus | src/modules/fiscal-documents/domain/delivery/delivery-retry-classifier.ts:57-223 | For every class, count and limit, from the result: which classes end QUEUED, failed, in manual review or in another attempt, with which delay, audit and immediate retry |
| RetryClassifier.BackoffSeconds | src/modules/fiscal-documents/domain/delivery/delivery-retry-classifier.ts:246-253 | The delays are 60, 120, 240, 480, 960 and 1920 seconds plus the jitter, and 3600 from the seventh attempt on |
| RetryClassifier.BackoffIsBoundedAndMonotone | src/modules/fiscal-documents/domain/delivery/delivery-retry-classifier.ts:246-253 | Delays stay in [60, 3600] and never decrease with the attempt, whatever the two jitters |
| RetryClassifier.Pow2Grows | src/modules/fiscal-documents/domain/delivery/delivery-retry-classifier.ts:246-253 | The power in the backoff at least doubles from each attempt to any later one |
| CircuitBreaker.FailureCountIsTrailingRun | src/infrastructure/integrations/hacienda/hacienda-circuit-breaker.service.ts:153-176 | After any run of any number of callers the failure count is the length of the trailing run of failed reports, and CLOSED implies it is below the threshold |
| CircuitBreaker.OpensAfterThresholdFailures | src/infrastructure/integrations/hacienda/hacienda-circuit-breaker.service.ts:161-176 | A CLOSED breaker is OPEN after a step exactly if the last threshold-many reports are failures, and then the next attempt is a full reset timeout away |
| CircuitBreaker.OpenStaysOpen | src/infrastructure/integrations/hacienda/hacienda-circuit-breaker.service.ts:67-79 | Whatever calls in flight finish, an OPEN breaker stays open with the same deadline until that deadline, and every call begun meanwhile is refused without an invocation |
| CircuitBreakerReports.ProbeDecides | src/infrastructure/integrations/hacienda/hacienda-circuit-breaker.service.ts:153-176 | Every step from HALF_OPEN: a call that ends in failure opens the breaker with one more failure and the deadline one reset timeout from now, a success closes it with no failures, and nothing else leaves HALF_OPEN |
| CircuitBreakerReports.ClosedCounts | src/infrastructure/integrations/hacienda/hacienda-circuit-breaker.service.ts:153-176 | Every step from CLOSED: failures count, a success forgets them, and exactly the failure that reaches the threshold opens |
| CircuitBreakerReports.OpenWaits | src/infrastructure/integrations/hacienda/hacienda-circuit-breaker.service.ts:67-79 | Every step from OPEN: the deadline stays, and exactly the first call begun at or after it is let through and makes it HALF_OPEN; earlier calls are refused |
| CircuitBreakerReports.FirstCallProbes | src/infrastructure/integrations/hacienda/hacienda-circuit-breaker.service.ts:67-79 | Over any run, an OPEN breaker is still OPEN when its deadline comes, and admits the first call begun from then on |
| CircuitBreakerReports.HalfOpenAwaitsReport | src/infrastructure/integrations/hacienda/hacienda-circuit-breaker.service.ts:153-176 | Over any run, HALF_OPEN lasts until a call reports |
| CircuitBreakerReports.FailedProbeShutsOut | src/infrastructure/integrations/hacienda/hacienda-circuit-breaker.service.ts:161-168 | Over any run after a failed probe, every call begun within one reset timeout is refused without an invocation |
| CircuitBreakerReports.ReplyMeans | src/infrastructure/integrations/hacienda/hacienda-circuit-breaker.service.ts:103-151 | For all replies and attempts: which are retried, after which delay, and with which outcome the others end the call |
| CircuitBreakerReports.LimiterDecides | src/infrastructure/integrations/hacienda/hacienda-circuit-breaker.service.ts:81-101 | In every state with the window invariant: a caller is admitted exactly if the log holds fewer than the limit in the last 1000 ms, and otherwise sleeps until 10 ms after the oldest of them leaves the window |
| CircuitBreakerReports.LimiterDecidesInRuns | src/infrastructure/integrations/hacienda/hacienda-circuit-breaker.service.ts:81-101 | The same over every run of any number of callers |
| CircuitBreaker.OneReportPerCall | src/infrastructure/integrations/hacienda/hacienda-circuit-breaker.service.ts:103-151 | The reports to the breaker are those of the admitted calls that have finished, exactly one of each, true exactly for a success; no call invokes more often than one plus the larger retry count, and a refused call never invokes or reports |
| CircuitBreaker.RateIsBounded | src/infrastructure/integrations/hacienda/hacienda-circuit-breaker.service.ts:81-101 | Every window of 1000 ms contains at most the configured number of admissions, and the stamp list is sorted and bounded, over any interleaving with any clock |
| CircuitBreaker.SpacingBoundsCount | src/infrastructure/integrations/hacienda/hacienda-circuit-breaker.service.ts:81-101 | If no two admissions the limit apart share a window, no window holds more than the limit |
| CircuitBreaker.RecentIsSuffix | src/infrastructure/integrations/hacienda/hacienda-circuit-breaker.service.ts:83-84 | On the sorted list the filter keeps exactly the suffix later than the window start |
| CircuitBreaker.WaitFreesPlace | src/infrastructure/integrations/hacienda/hacienda-circuit-breaker.service.ts:86-97 | Waiting out the computed delay, even 10 ms short, makes room in the window |
| CircuitBreaker.LoneCallerWaitsOnce | src/infrastructure/integrations/hacienda/hacienda-circuit-breaker.service.ts:81-101 | A caller that found the window full, and that nobody overtook, is admitted when it wakes |
| CircuitBreaker.StepKeepsWindow | src/infrastructure/integrations/hacienda/hacienda-circuit-breaker.service.ts:81-101 | The window invariant under every step |
| CircuitBreaker.FirstFinalReplyDecides | src/infrastructure/integrations/hacienda/hacienda-circuit-breaker.service.ts:103-151 | For all replies: the invocations stop at the first reply that is not retried, where a 429 is retried below its own count and a transient error below its own; the outcome is that reply's, and the breaker counts, opens or closes by that reply alone |
| CircuitBreaker.ExecutionIsRun | src/infrastructure/integrations/hacienda/hacienda-circuit-breaker.service.ts:67-151 | What execute does for a caller that nobody overtakes is a run of the concurrent system, from any state with its window invariant |
| CircuitBreaker.LinearDelayIsProduct | src/infrastructure/integrations/hacienda/hacienda-circuit-breaker.service.ts:114-119 | The 429 delay is base times attempt number |
| CircuitBreaker.HaciendaCircuitBreaker.Enter | src/infrastructure/integrations/hacienda/hacienda-circuit-breaker.service.ts:67-76 | Refuses exactly while OPEN before the deadline, and turns an expired OPEN into HALF_OPEN |
| CircuitBreaker.HaciendaCircuitBreaker.TryAdmit | src/infrastructure/integrations/hacienda/hacienda-circuit-breaker.service.ts:81-101 | Admission or the exact positive wait, with the trimmed stamps |
| CircuitBreaker.HaciendaCircuitBreaker.EnforceOutboundRateLimit | src/infrastructure/integrations/hacienda/hacienda-circuit-breaker.service.ts:81-101 | The recursion of the limiter ends after at most one wait, with the stamps and time of the specification |
| CircuitBreaker.HaciendaCircuitBreaker.ExecuteWithRetry | src/infrastructure/integrations/hacienda/hacienda-circuit-breaker.service.ts:103-151 | Breaker state, outcome, number of invocations and time are those of the specification whose meaning FirstFinalReplyDecides gives and whose steps ExecutionIsRun gives |
| CircuitBreaker.HaciendaCircuitBreaker.Execute | src/infrastructure/integrations/hacienda/hacienda-circuit-breaker.service.ts:67-79 | Refused exactly while OPEN before the deadline, without a change; a success leaves CLOSED and no failures; a failure counts one more, and is OPEN exactly if the breaker was not CLOSED or reaches the threshold, then with the deadline one reset timeout after the end |
| SecretStoreSafety.MetadataIsAlwaysBacked | src/infrastructure/secrets/adapters/encrypted-file-secret-provider.adapter.ts:190-239 | Over every interleaving of writers, readers, crashes and broken locks, live ones included: metadata.json exists exactly after a commit, satisfies assertMetadata, and every version it lists is on disk with the recorded hash and opens |
| SecretStoreSafety.RunKeepsStore | src/infrastructure/secrets/adapters/encrypted-file-secret-provider.adapter.ts:510-536 | Record files are never changed or removed, and commits are never forgotten, over any run |
| SecretStoreSafety.ReportedStoresAreCommitted | src/infrastructure/secrets/adapters/encrypted-file-secret-provider.adapter.ts:190-239 | A write that reported success has committed, over any run |
| SecretStoreSafety.ReadGivesLatestCommit | src/infrastructure/secrets/adapters/encrypted-file-secret-provider.adapter.ts:121-143 | In every reachable state getSecret gives the value of the latest commit, not found for a deletion or an empty store, and a metadata error once versions outgrow eight digits |
| SecretStoreSafety.LockFreeReadsAreAtomic | src/infrastructure/secrets/adapters/encrypted-file-secret-provider.adapter.ts:121-143 | A lock-free reader answers what a read at the instant of its metadata read would, whatever runs between its two reads |
| SecretStoreSafety.FetchGivesWhatWasSeen | src/infrastructure/secrets/adapters/encrypted-file-secret-provider.adapter.ts:121-143 | The record read later still gives what the metadata meant when it was read |
| SecretStoreReading.GetSecretReads | src/infrastructure/secrets/adapters/encrypted-file-secret-provider.adapter.ts:121-143 | For all files, reachable or not: getSecret gives a value if and only if the metadata is healthy, current and for the reference, its last version is a write with a recognised name, and that file is the listed record, with the listed hash, and opens with this key and this associated data to this value |
| SecretStoreReading.GetSecretFails | src/infrastructure/secrets/adapters/encrypted-file-secret-provider.adapter.ts:121-143 | For all files: each error exactly if the first check that fails is its own, from not found to a failed decryption |
| SecretStoreReading.FetchReads | src/infrastructure/secrets/adapters/encrypted-file-secret-provider.adapter.ts:132-143 | For all files and any metadata read earlier: the second half of a read, with each of its errors |
| SecretStoreReading.ValidationMeans | src/infrastructure/secrets/adapters/encrypted-file-secret-provider.adapter.ts:157-188 | For all directories, reachable or not: deep validation passes exactly if every listed version of every directory is recorded and opens, and its counts are those of the directories |
| SecretStoreSafety.StepKeeps | src/infrastructure/secrets/adapters/encrypted-file-secret-provider.adapter.ts:190-239 | The store invariant under every step of every process |
| SecretStoreRefinement.MutualExclusion | src/infrastructure/secrets/adapters/encrypted-file-secret-provider.adapter.ts:480-508 | If no lock of a live holder is broken, two processes are never in the critical section together |
| SecretStoreLineage.CommitsAreListed | src/infrastructure/secrets/adapters/encrypted-file-secret-provider.adapter.ts:190-239 | Over every run, whatever interleaves, crashes or breaks locks: the metadata lists exactly the commits, in order, if and only if every rename met the metadata its writer had read |
| SecretStoreLineage.RenameLosesNothing | src/infrastructure/secrets/adapters/encrypted-file-secret-provider.adapter.ts:190-239 | In every reachable state, the rename of metadata.json keeps every listed version if and only if the metadata is still what its writer read |
| SecretStoreLineage.RenameKeepsVersions | src/infrastructure/secrets/adapters/encrypted-file-secret-provider.adapter.ts:510-536 | The same for every state of the store invariant in which metadata lists commits and linked numbers belong to one writer |
| SecretStoreLineage.StepKeepsLine | src/infrastructure/secrets/adapters/encrypted-file-secret-provider.adapter.ts:190-239 | That lineage under every step of every process, broken locks included |
| SecretStoreRefinement.NoCommitIsLost | src/infrastructure/secrets/adapters/encrypted-file-secret-provider.adapter.ts:190-239 | If no lock of a live holder is broken, every rename meets what its writer read, so the metadata lists all commits in order; and versions strictly increase |
| SecretStoreRefinement.LinkFindsItsNameFree | src/infrastructure/secrets/adapters/encrypted-file-secret-provider.adapter.ts:510-536 | Then the exclusive link of a recognised version always succeeds: orphans of crashed writers never take the name |
| SecretStoreRefinement.StepRefinesMap | src/infrastructure/secrets/adapters/encrypted-file-secret-provider.adapter.ts:190-239 | The store refines a map from references to values: the rename of the metadata is the write or the deletion, and every other step leaves the map alone |
| SecretStoreRefinement.ReadsLookUpTheMap | src/infrastructure/secrets/adapters/encrypted-file-secret-provider.adapter.ts:121-143 | In every reachable store getSecret is the lookup in that map, up to the eight-digit limit |
| SecretStoreLimits.CrashInFirstWriteLeavesNoMetadata | src/infrastructure/secrets/adapters/encrypted-file-secret-provider.adapter.ts:157-188 | A run whose crash leaves a directory without metadata and with nobody at work, which validation cannot read |
| SecretStoreLimits.BrokenLiveLockLosesCommit | src/infrastructure/secrets/adapters/encrypted-file-secret-provider.adapter.ts:490-494 | A run in which a live lock is broken as stale, a rename meets other metadata than its writer read, and a committed version disappears |
| SecretStoreModel.RecognisedVersions | src/infrastructure/secrets/adapters/encrypted-file-secret-provider.adapter.ts:472-478 | The scan recognises exactly the names of versions below 100 000 000, and reads their number back |
| SecretStoreModel.FileNameIsInjective | src/infrastructure/secrets/adapters/encrypted-file-secret-provider.adapter.ts:215-215 | Different versions have different file names |
| SecretStore.ValidationPasses | src/infrastructure/secrets/adapters/encrypted-file-secret-provider.adapter.ts:157-188 | For every reachable store, verifyAllSecrets succeeds exactly if each directory has metadata; then it counts the references of the map, and otherwise it reports a read failure |
| SecretStore.StoredReadsBack | src/infrastructure/secrets/adapters/encrypted-file-secret-provider.adapter.ts:190-239 | After a write getSecret gives the value, after a deletion not found, and after version 99 999 999 a metadata error |
| SecretStore.WriteIsRun | src/infrastructure/secrets/adapters/encrypted-file-secret-provider.adapter.ts:190-239 | A write that finds the directory unlocked and is left alone is a run of the system: one commit, no temporary file or lock left, and the files that the object's method leaves |
| SecretStore.TakenNameIsNotScannable | src/infrastructure/secrets/adapters/encrypted-file-secret-provider.adapter.ts:472-478 | A name past the scanned maximum is taken only if the scan missed a record |
| SecretStoreModel.RecordNamesMean | src/infrastructure/secrets/adapters/encrypted-file-secret-provider.adapter.ts:441-450 | The record names are v, eight digits and .json, and nothing else |
| SecretStoreSteps.LockIsExclusive | src/infrastructure/secrets/adapters/encrypted-file-secret-provider.adapter.ts:480-491 | The lock file is created exactly if there is none, with its owner and time |
| SecretStoreSteps.RefusedDecides | src/infrastructure/secrets/adapters/encrypted-file-secret-provider.adapter.ts:490-503 | A refused writer breaks exactly the locks untouched for more than thirty seconds, gives up exactly five seconds after it began, and otherwise tries again |
| SecretStoreSteps.ErrorCleansUp | src/infrastructure/secrets/adapters/encrypted-file-secret-provider.adapter.ts:510-536 | From any error in the critical section once the lock is written: the temporary files and the lock go, every other file stays, nothing is committed, and the writer fails |
| SecretStoreSteps.BadStateStops | src/infrastructure/secrets/adapters/encrypted-file-secret-provider.adapter.ts:199-204 | Another key, or metadata that cannot be read, ends a write with the lock released and nothing written |
| SecretStore.EncryptedFileSecretProvider.AcquireLock | src/infrastructure/secrets/adapters/encrypted-file-secret-provider.adapter.ts:480-508 | For a process alone, the lock is obtained exactly if it is free or gets stale within the timeout; nothing else changes |
| SecretStore.EncryptedFileSecretProvider.ScanVersions | src/infrastructure/secrets/adapters/encrypted-file-secret-provider.adapter.ts:472-478 | The loop over the directory finds the highest recognised version |
| SecretStore.EncryptedFileSecretProvider.WriteRecord | src/infrastructure/secrets/adapters/encrypted-file-secret-provider.adapter.ts:510-536 | The exclusive write succeeds exactly on a free name, and leaves no temporary file in either case |
| SecretStore.EncryptedFileSecretProvider.WriteMetadata | src/infrastructure/secrets/adapters/encrypted-file-secret-provider.adapter.ts:510-536 | The replacing write puts the whole metadata and leaves no temporary file |
| SecretStore.EncryptedFileSecretProvider.WriteVersion | src/infrastructure/secrets/adapters/encrypted-file-secret-provider.adapter.ts:190-239 | The exact files after each outcome: busy, wrong key, unreadable metadata, taken name, or a new version one past both the metadata and the disk |
| SecretStore.EncryptedFileSecretProvider.StoreSecret | src/infrastructure/secrets/adapters/encrypted-file-secret-provider.adapter.ts:145-150 | A stored value is read back, the empty value is refused without effect, other references are untouched, and a healthy directory with the right key always succeeds |
| SecretStore.EncryptedFileSecretProvider.DeleteSecret | src/infrastructure/secrets/adapters/encrypted-file-secret-provider.adapter.ts:152-154 | A deleted secret is not found, and other references are untouched |
| SecretStore.EncryptedFileSecretProvider.VerifyAllSecrets | src/infrastructure/secrets/adapters/encrypted-file-secret-provider.adapter.ts:157-188 | The nested loops give the counts, or the first error, of the recursive validation that ValidationPasses is about |
| PathText.RelationMeaning | src/infrastructure/secrets/local-secret-store-backup.ts:178-197 | The textual test on path.relative (not empty, no leading "..", not absolute) holds exactly for a proper descendant whose first segment does not begin with two dots |
| PathText.SplitJoin | src/infrastructure/secrets/local-secret-store-backup.ts:151-176 | Joining segments with slashes and splitting again gives them back |
| PathText.ResolveAppends | src/infrastructure/secrets/local-secret-store-backup.ts:187-197 | Resolving a joined clean path against a root appends it |
| PathText.ResolutionLaws | src/infrastructure/secrets/local-secret-store-backup.ts:187-197 | A text is resolved step by step: a slash composes, an empty step and a dot stay, two dots go up, at most to the root, and a name goes down |
| PathText.RelativeResolves | src/infrastructure/secrets/local-secret-store-backup.ts:178-197 | The relation of two normal paths resolves from the first to the second |
| SecretBackup.SafeResolveStaysInside | src/infrastructure/secrets/local-secret-store-backup.ts:187-197 | A manifest path is accepted exactly if it is non-empty, relative, without backslash, and resolves strictly below the root; the result is that path |
| SecretBackup.SeparateRootsMeaning | src/infrastructure/secrets/local-secret-store-backup.ts:178-185 | Two roots pass exactly if they differ and neither lies below the other, but for directories whose name begins with two dots |
| SecretBackup.ListingIsExact | src/infrastructure/secrets/local-secret-store-backup.ts:151-176 | The listing has exactly the regular files of the tree with their contents, temporary and lock files aside |
| SecretBackup.ListingIsDistinct | src/infrastructure/secrets/local-secret-store-backup.ts:151-176 | No path is listed twice |
| SecretBackup.ListingSucceeds | src/infrastructure/secrets/local-secret-store-backup.ts:151-176 | The listing succeeds exactly if no path of the tree is a symbolic link or a file named like key material |
| SecretBackup.NamesMean | src/infrastructure/secrets/local-secret-store-backup.ts:167-172 | Temporary are the names that end in .tmp and the lock; key material are the names that end in .key, .pem, .p12 or .pfx, or hold the words master and key with at most one character between, in any case |
| SecretBackup.ListingError | src/infrastructure/secrets/local-secret-store-backup.ts:151-176 | A refused listing names what the tree holds: a symbolic link, or a file that looks like key material and is not temporary |
| SecretBackup.ListStoreFiles | src/infrastructure/secrets/local-secret-store-backup.ts:151-176 | The recursive loop over directory entries computes that listing |
| SecretRestore.CopyFiles | src/infrastructure/secrets/local-secret-store-backup.ts:46-62 | The copy loop ends well exactly if all files can be copied, and then the destination holds exactly them and the entries describe them in order |
| SecretRestore.CopiesStayInside | src/infrastructure/secrets/local-secret-store-backup.ts:46-62 | Every copied file lies strictly below the destination |
| SecretRestore.BackupStore | src/infrastructure/secrets/local-secret-store-backup.ts:34-76 | When a backup is accepted, the exact files it leaves, manifest included, and otherwise the error of the first check that fails |
| SecretRestore.CountAndMembershipSuffice | src/infrastructure/secrets/local-secret-store-backup.ts:85-98 | Equal count plus membership of every listed file forces the file set to be the manifest's |
| SecretRestore.ManifestAcceptance | src/infrastructure/secrets/local-secret-store-backup.ts:125-149 | For all trees: a manifest is loaded exactly from its file, in its format, with its label and usable paths; which of the two errors is reported otherwise |
| SecretRestore.IntactMeans | src/infrastructure/secrets/local-secret-store-backup.ts:84-98 | For all trees whose manifest has no repeated entry: the backup is intact exactly if every file beside the manifest is listed with its length and digest, and every entry has its file |
| SecretRestore.CheckBackup | src/infrastructure/secrets/local-secret-store-backup.ts:84-98 | The check loop accepts exactly the backups whose files and contents are the manifest's, and otherwise reports the manifest, the listing, the number of files, or the first file that is unexpected or altered |
| SecretRestore.CopyEntries | src/infrastructure/secrets/local-secret-store-backup.ts:101-107 | The restore loop succeeds exactly on distinct entries and copyable files, and leaves exactly the payload |
| SecretRestore.RestoreStore | src/infrastructure/secrets/local-secret-store-backup.ts:78-122 | When a restore is accepted, that the destination then holds exactly the backup's payload, strictly below it, and otherwise the error of the first check that fails |
| SecretRestore.UntouchedBackupRestores | src/infrastructure/secrets/local-secret-store-backup.ts:34-122 | An untouched backup of a quiescent store is always restored, to the files of the source store |
| SecretRestore.RestoredFilesAreTheSource | src/infrastructure/secrets/local-secret-store-backup.ts:34-122 | Those files are exactly the stored files of the source with their contents |
| CanonicalJson.StringReadsBack | src/modules/fiscal-documents/application/fiscal-payload-equivalence.ts:94-103 | A parser by section 7 of RFC 8259, which refuses raw control characters, reads every escaped string back, lone surrogates included, and stops behind it |
| CanonicalJson.RoundTrip | src/modules/fiscal-documents/application/fiscal-payload-equivalence.ts:94-103 | Parsing the canonical text gives the value with sorted keys, and consumes the whole text |
| CanonicalJson.ValueReadsBack | src/modules/fiscal-documents/application/fiscal-payload-equivalence.ts:94-103 | The same inside any context that cannot extend a number |
| CanonicalJson.CanonKeepsMeaning | src/modules/fiscal-documents/application/fiscal-payload-equivalence.ts:94-103 | Sorting keys at every level keeps what a value means |
| CanonicalJson.SortKeepsMap | src/modules/fiscal-documents/application/fiscal-payload-equivalence.ts:97-100 | Sorting members gives strictly increasing keys and the same map |
| CanonicalJson.SortedListIsUnique | src/modules/fiscal-documents/application/fiscal-payload-equivalence.ts:97-100 | A map has one sorted list of members |
| CanonicalJson.TextsAgreeExactlyWithMeanings | src/modules/fiscal-documents/application/fiscal-payload-equivalence.ts:94-103 | Two values have equal canonical text if and only if they mean the same |
| CanonicalText.UnitsAreEscaped | src/modules/fiscal-documents/application/fiscal-payload-equivalence.ts:94-103 | The escape of every code unit on its own: quote, backslash, five short escapes, lower-case hexadecimal for other controls and lone surrogates, and itself for any other |
| CanonicalText.EscapesJoin | src/modules/fiscal-documents/application/fiscal-payload-equivalence.ts:94-103 | Strings are escaped piece by piece, as long as no surrogate pair is cut |
| CanonicalText.OrderIsByFirstDifference | src/modules/fiscal-documents/application/fiscal-payload-equivalence.ts:97-100 | Keys are ordered by their first different code unit, a prefix before what it begins |
| CanonicalText.NumeralGrammar | src/modules/fiscal-documents/application/fiscal-payload-equivalence.ts:94-96 | Numerals are a sign or none, digits without leading zero, a fraction or none and an exponent or none, as in section 6 of RFC 8259, and nothing else |
| FiscalPayload.NormalizeIsIdempotent | src/modules/fiscal-documents/application/fiscal-payload-equivalence.ts:124-150 | Normalizing a normal value changes nothing |
| FiscalPayload.NormalIsWellFormed | src/modules/fiscal-documents/application/fiscal-payload-equivalence.ts:124-142 | A normal value has distinct keys, and numbers by section 6 of RFC 8259, so the canonical text stands for it |
| FiscalPayload.NormalRespectsMeaning | src/modules/fiscal-documents/application/fiscal-payload-equivalence.ts:124-142 | Values that mean the same, in any key order, have normal forms that mean the same, and both or neither |
| FiscalPayload.SerialNormalizesAlike | src/modules/fiscal-documents/application/fiscal-payload-equivalence.ts:124-142 | A value that went through JSON has the normal form of the original |
| FiscalPayloadMeaning.NormalStandsFor | src/modules/fiscal-documents/application/fiscal-payload-equivalence.ts:124-150 | For all values: the normal form is the one JSON that stands for the value, with texts under names in at or date replaced by the time they denote unless they are calendar dates, items named by index, undefined members left out; it is refused exactly if there is none |
| FiscalForm.PayloadIsWellFormed | src/modules/fiscal-documents/application/fiscal-payload-equivalence.ts:30-43 | The canonical payload of every accepted input is a value with distinct keys, and numbers by section 6 of RFC 8259 |
| FiscalForm.LinesAgree | src/modules/fiscal-documents/application/fiscal-payload-equivalence.ts:105-122 | Two lines have the same canonical form exactly if they are equal in amounts, integers and the texts as given |
| FiscalPayloadMeaning.LineIsSpelledOut | src/modules/fiscal-documents/application/fiscal-payload-equivalence.ts:105-122 | Which lines are accepted, and what stands under each of the fourteen keys of their canonical form |
| FiscalPayloadMeaning.PayloadIsSpelledOut | src/modules/fiscal-documents/application/fiscal-payload-equivalence.ts:30-43 | What stands under each key of the canonical payload, its version and its lines |
| FiscalPayloadMeaning.PayloadAcceptance | src/modules/fiscal-documents/application/fiscal-payload-equivalence.ts:30-51 | A payload has a canonical hash exactly if its receiver normalizes, its texts are there, and its amounts and integers can be read |
| FiscalForm.HashesAgreeExactlyWithNormalForms | src/modules/fiscal-documents/application/fiscal-payload-equivalence.ts:45-51 | Two payloads have equal canonical hashes if and only if their normal forms are equal |
| FiscalForm.ColumnReadsBack | src/modules/fiscal-documents/application/fiscal-payload-equivalence.ts:53-92 | The text of a decimal column, printed without trailing zeros, normalizes to the stored amount |
| FiscalPayloadMeaning.ColumnIsPrinted | src/modules/fiscal-documents/application/fiscal-payload-equivalence.ts:53-92 | The text of a decimal column is the amount with five decimal places, without the zeros at its end and the point they leave |
| FiscalForm.StoredFormAgrees | src/modules/fiscal-documents/application/fiscal-payload-equivalence.ts:53-92 | A stored document has the canonical hash of the command that created it, whenever that exists |
| ScaledDecimal.TextRoundTrip | src/modules/fiscal-documents/domain/scaled-decimal.ts:11-54 | Every amount is read back from its text |
| ScaledDecimal.SaidIsRead | src/modules/fiscal-documents/domain/scaled-decimal.ts:11-20 | Every text of a sign or none, digits, and a dot with one to five digits or none is read as what it says |
| ScaledDecimal.ReadIsSaid | src/modules/fiscal-documents/domain/scaled-decimal.ts:11-20 | No other text is read |
| ScaledDecimal.TextShape | src/modules/fiscal-documents/domain/scaled-decimal.ts:46-54 | The text of an amount says it, without leading zero and with five decimal places |
| ScaledDecimal.MultiplyRoundsHalfUp | src/modules/fiscal-documents/domain/scaled-decimal.ts:32-36 | With division truncating toward zero, the product is rounded half up if and only if the shifted product is non-negative or divisible; so it is for every product from -50000 on, non-negative ones included, and below that at exact halves alone |
| ScaledDecimal.TotalsAreExactSums | src/modules/fiscal-documents/application/fiscal-document.service.ts:761-784 | The totals folded through decimal texts are the texts of the sums of the amounts of the lines, and total = gross - discount + tax |
| ScaledDecimal.TotalsSumTheirFields | src/modules/fiscal-documents/application/fiscal-document.service.ts:761-784 | By recursion on the line texts: the discount total is the sum of the units read from discountAmount, the tax total that of taxAmount, an absent one counting zero, the gross total that of the rounded products of quantity and unitPrice, and the total gross less discount plus tax |
| ScaledDecimal.ValidatedTotals | src/modules/fiscal-documents/application/fiscal-document.service.ts:691-703 | For validated amounts 0 <= discount <= gross, and gross differs from the exact rational sum by at most half a unit per line |
| ScaledDecimal.ValidatedFieldTotals | src/modules/fiscal-documents/application/fiscal-document.service.ts:691-703 | The same bounds on the texts of validated lines: the discounts lie between zero and the gross amount, which is within half a unit per line of the exact sum of quantity times price |
| FiscalKey.ConsecutiveRoundTrip | src/modules/fiscal-documents/domain/fiscal-key.generator.ts:10-24 | Accepted are exactly three branch digits, five terminal digits and values from 1 to 9999999999, and otherwise the first wrong part is reported; the result has 20 digits, each part in its place, and decodes to its parts |
| FiscalKey.ConsecutiveIsInjective | src/modules/fiscal-documents/domain/fiscal-key.generator.ts:10-24 | Equal consecutives have equal branch, terminal, type and value |
| FiscalKey.KeyRoundTrip | src/modules/fiscal-documents/domain/fiscal-key.generator.ts:26-48 | When a key is built and which error is reported otherwise; it has exactly 50 digits, begins with 506, has situation 1 if none is given, and a fixed-width decoder recovers all its parts |
| FiscalKey.IssuerIsPadded | src/modules/fiscal-documents/domain/fiscal-identification.mapper.ts:17-23 | An issuer is accepted exactly if it is a number of one to twelve digits with white space around it, and becomes that number with leading zeros |
| FiscalKey.EqualKeysEqualParts | src/modules/fiscal-documents/domain/fiscal-key.generator.ts:26-48 | Equal keys have equal day, month, year modulo 100, issuer, consecutive, situation and security code |
| FiscalKey.EqualKeysEqualNumberings | src/modules/fiscal-documents/domain/fiscal-key.generator.ts:10-48 | Equal keys built from generated consecutives have equal branch, terminal, document type and sequence value |
| Issuance.OneDocumentPerKey | src/modules/fiscal-documents/application/fiscal-document.service.ts:426-476 | Over any interleaving of transactions that block and roll back, a key (tenant, company, operation, key) commits at most one document, and its reservation row names it |
| Issuance.NobodySeesInProgress | src/modules/fiscal-documents/application/fiscal-document.service.ts:478-492 | No transaction ever answers that a request is in progress |
| Issuance.ReplaysReturnTheDocument | src/modules/fiscal-documents/application/fiscal-document.service.ts:478-492 | A replay returns a committed document with the key and the hash of the request |
| Issuance.CommittedKeyConsumesNothing | src/modules/fiscal-documents/application/fiscal-document.service.ts:237-424 | Once a key is committed, every other transaction with it, now or later, holds no sequence row and can only replay (same hash) or be refused (different hash) |
| Issuance.KeysStay | src/modules/fiscal-documents/application/fiscal-document.service.ts:426-476 | A committed reservation never changes |
| Issuance.LookupAgreesWithCreation | src/modules/fiscal-documents/application/fiscal-identity-lookup.service.ts:44-143 | The lookup by key and hash finds exactly the created document; it reports an integrity error if and only if it is asked for another environment |
| Issuance.ConsistentLookupHasNoIntegrityError | src/modules/fiscal-documents/application/fiscal-identity-lookup.service.ts:108-129 | A lookup with the environment and hash of one request never reports an integrity error |
| Issuance.EvidenceLookupAgrees | src/modules/fiscal-documents/application/fiscal-identity-evidence-lookup.service.ts:58-179 | The lookup by payload finds a created document exactly if the supplied payload has the normal form of the creating command |
| IssuanceLookups.IdentityIsVouchedFor | src/modules/fiscal-documents/application/fiscal-identity-lookup.service.ts:44-143 | For all rows, reachable or not: an identity is found exactly if its key has this hash and a document that agrees with it in owner, environment, type, key and hash; which error is reported otherwise |
| IssuanceLookups.EvidenceIsVouchedFor | src/modules/fiscal-documents/application/fiscal-identity-evidence-lookup.service.ts:58-179 | For all rows: evidence is found exactly if such a document keeps a payload with the same canonical hash; which error is reported otherwise |
| Issuance.ValuesAreContiguous | src/modules/fiscal-documents/application/fiscal-document.service.ts:324-348 | In a scope, the values of the committed documents are exactly those from the first to the last of the sequence row, which has next = last + 1 and ends at 9999999999 |
| Issuance.ConsecutivesAreUnique | src/modules/fiscal-documents/application/fiscal-document.service.ts:324-348 | No two committed documents of a tenant, company and environment share a consecutive |
| Issuance.AllocatedConsecutiveIsNew | prisma/schema.prisma:475-475 | A transaction with an allocated value never fails on the unique key of consecutives |
| Issuance.StartedRowsOnlyAdvance | src/modules/fiscal-documents/application/fiscal-document.service.ts:135-207 | No step, configuration included, changes a started sequence row but a commit that takes its next value |
| Issuance.AcceptedSetupStartsThere | src/modules/fiscal-onboarding/application/fiscal-onboarding-v1.service.ts:504-563 | Over every run: an initial configuration that answers success, at once or after a race, did so when the row was unstarted with the requested value, and changed no row that was there; and the values of the scope start there, unless the row is configured by the other way |
| IssuanceSafety.ResolveIsSound | src/modules/fiscal-documents/application/fiscal-document.service.ts:478-492 | On committed rows, resolving an existing key refuses another hash and otherwise gives the document of the row |
| IssuanceLookups.KnownKeyOnAnyRows | src/modules/fiscal-documents/application/fiscal-document.service.ts:478-492 | For all rows: a known key is refused exactly for another hash, replayed exactly with the document of its row, and in progress exactly if there is none |
| IssuanceLookups.LocksFollowPhases | src/modules/fiscal-documents/application/fiscal-document.service.ts:426-476 | A transaction holds its key from the insert and its sequence row from the allocation, until it ends |
| IssuanceSafety.NextIsFree | src/modules/fiscal-documents/application/fiscal-document.service.ts:324-341 | The next value of a scope is at least 1 and was never committed |
| IssuanceSafety.StepKeeps | src/modules/fiscal-documents/application/fiscal-document.service.ts:237-424 | The invariant over rows, locks and transactions under every step |
| IssuanceService.RepeatedCreation | src/modules/fiscal-documents/application/fiscal-document.service.ts:237-424 | Repeating a successful call returns its document and writes nothing; a changed request under the key is refused and writes nothing |
| IssuanceAnswers.NewRequestIsIssued | src/modules/fiscal-documents/application/fiscal-document.service.ts:237-424 | On the rows of every run, a request with a new key is issued exactly if branch and terminal are three and five digits and the next value is at most 9999999999; its document is the requested one with that value, its consecutive decodes to branch, terminal, type and value, the sequence moves on by one, and any other outcome writes nothing |
| IssuanceAnswers.KnownKeyIsAnswered | src/modules/fiscal-documents/application/fiscal-document.service.ts:237-260 | On the rows of every run, a known key writes nothing: it is replayed exactly if its document answers the request, and refused otherwise |
| IssuanceAnswers.DocumentsAnswerRequests | src/modules/fiscal-documents/application/fiscal-document.service.ts:324-413 | Over every run, every committed document has the owner, type and key of its request, and a consecutive that decodes to its branch, terminal, type and value |
| IssuanceService.CreationIsRun | src/modules/fiscal-documents/application/fiscal-document.service.ts:237-424 | A call, with any steps of others between its first look and the moment its insert is granted, is a run of the transaction system, with its rows and outcome |
| IssuanceService.FiscalDocumentService.ReserveIdempotencyKey | src/modules/fiscal-documents/application/fiscal-document.service.ts:426-476 | Look, insert that does nothing on a conflict, second look: the answer of a row that was there, the answer of a row that a transaction committed while the insert waited, or else one reservation more and nothing else |
| IssuanceService.FiscalDocumentService.AllocateValue | src/modules/fiscal-documents/application/fiscal-document.service.ts:324-341 | Takes the next value and advances that row alone |
| IssuanceService.FiscalDocumentService.CreateDocument | src/modules/fiscal-documents/application/fiscal-document.service.ts:237-424 | All rows and the outcome are those of the specification whose answers NewRequestIsIssued and KnownKeyIsAnswered give and whose steps CreationIsRun gives, whatever was committed while the insert waited; every failure rolls back to the rows then committed |
| IssuanceService.FiscalDocumentService.FindClash | prisma/schema.prisma:475-475 | The search decides whether a document with the unique key exists |
| IssuanceService.FiscalDocumentService.ConfigureSequence | src/modules/fiscal-documents/application/fiscal-document.service.ts:135-207 | When it is refused, and that it otherwise sets an unstarted row; refusals change nothing |
| IssuanceLookups.ConfigurationDecides | src/modules/fiscal-documents/application/fiscal-document.service.ts:135-207 | For all states: a sequence is set exactly if the value is one, nobody holds the row and it has not started |
| IssuanceLookups.LoneSetup | src/modules/fiscal-onboarding/application/fiscal-onboarding-v1.service.ts:504-563 | For all states: an initial configuration creates a missing row, or accepts exactly an unstarted one with its value |
| IssuanceLookups.RacedSetup | src/modules/fiscal-onboarding/application/fiscal-onboarding-v1.service.ts:504-563 | One that finds the row created meanwhile answers by the row it finds, and changes nothing |
| IssuanceService.FiscalDocumentService.ConfigureInitialSequence | src/modules/fiscal-onboarding/application/fiscal-onboarding-v1.service.ts:504-563 | Never changes an existing row; accepted exactly for a new row or an unstarted one with that value |
| XmlTraversal.BoundsMeaning | src/modules/fiscal-documents/application/fiscal-representation/read-only-fiscal-xml-parser.ts:270-311 | The walk accepts exactly the trees in which every node meets the depth, namespace, nesting and text limits, and the node count and total text are within bounds |
| XmlTraversal.AssertBounds | src/modules/fiscal-documents/application/fiscal-representation/read-only-fiscal-xml-parser.ts:270-311 | The loop with its stack terminates, and accepts, or rejects with the same error as, the recursive walk |
| XmlPositions.BoundsByPosition | src/modules/fiscal-documents/application/fiscal-representation/read-only-fiscal-xml-parser.ts:270-311 | On the nodes in document order: accepted exactly if all of them are within the limits, and refused for a namespace exactly if the first node out of bounds has a foreign one |
| XmlTraversal.LeavesAreLeafElements | src/modules/fiscal-documents/application/fiscal-representation/fiscal-representation-projection.builder.ts:395-423 | The leaves are the elements without element children, in document order |
| XmlTraversal.CollectLeafFields | src/modules/fiscal-documents/application/fiscal-representation/fiscal-representation-projection.builder.ts:395-423 | The loop with its stack returns the leaves in document order, each with its position as order |
| XmlPositions.FieldsByPosition | src/modules/fiscal-documents/application/fiscal-representation/fiscal-representation-projection.builder.ts:395-423 | By positions: each element without child elements gives exactly one field, in document order, with the names on the way down as its path, its own name, its text and CDATA in order without white space at the ends, and its place as order |
| LocalStorage.UploadOutcome | src/infrastructure/storage/adapters/local-storage.adapter.ts:47-88 | Over any interleaving of uploaders, crashes and failures, an upload of a key that is not deleted succeeds exactly if the stored bytes equal its own, I/O failures aside; what is visible is complete |
| LocalStorage.FirstWriterWins | src/infrastructure/storage/adapters/local-storage.adapter.ts:47-88 | A visible object never changes over a run that does not delete it, whatever was deleted before |
| LocalStorage.StepPutsWholeObjects | src/infrastructure/storage/adapters/local-storage.adapter.ts:67-85 | Only the exclusive link makes an object visible, with all the bytes of its uploader |
| LocalStorage.DifferentBytesConflict | src/infrastructure/storage/adapters/local-storage.adapter.ts:134-141 | Two uploads of one key that both succeeded had the same bytes |
| LocalStorage.ResolveKeyStaysInside | src/infrastructure/storage/adapters/local-storage.adapter.ts:112-123 | A key is accepted exactly if it is non-empty, relative, without NUL, and resolves strictly below the root |
| LocalStorage.UploadRefinesPut | src/infrastructure/storage/adapters/local-storage.adapter.ts:47-88 | An upload takes effect in one step, as one put-if-absent, and its answer is whether that put succeeds; no other step but a deletion changes what others see |
| LocalStorage.AnswersAreDecided | src/infrastructure/storage/adapters/local-storage.adapter.ts:47-88 | Calls that fail aside, an upload gets its answer in such a step, if and only if the winner it compares with was not deleted meanwhile |
| LocalStorage.RunRefinesPuts | src/infrastructure/storage/adapters/local-storage.adapter.ts:47-88 | What others see after any run without deletions is the result of its uploads as a sequence of atomic puts |
| LocalStorage.UploadIsRun | src/infrastructure/storage/adapters/local-storage.adapter.ts:47-88 | An upload, with any steps of others at its six awaits, is a run of the system |
| LocalStorage.LoneUpload | src/infrastructure/storage/adapters/local-storage.adapter.ts:47-88 | An undisturbed upload is one put: a new key is stored, equal bytes succeed without effect, other bytes conflict without effect |
| LocalStorage.LocalStorageAdapter.Upload | src/infrastructure/storage/adapters/local-storage.adapter.ts:47-88 | Read, open, write, link, comparison with the winner and unlink leave exactly the files of the system, for all interference at the awaits, and the upload succeeds exactly if the one of the system does |
| LocalStorage.UploadReadsBack | src/infrastructure/storage/adapters/local-storage.adapter.ts:47-93 | Over every run, from its answer on a successful upload is read back by every download until the object is deleted, whatever was deleted before; after a failed one, failed calls aside, a download gives other bytes if the object is there |
| LocalStorage.DeletionFreesKey | src/infrastructure/storage/adapters/local-storage.adapter.ts:107-110 | A deletion removes that object alone, a download then finds nothing, and the next upload stores its own bytes |
| LocalStorageFailures.FailureCleansUp | src/infrastructure/storage/adapters/local-storage.adapter.ts:61-88 | From any failing call before the clean-up: the upload fails, its temporary file goes, and every other file stays |
| LocalStorageFailures.EndedLeavesNoTemp | src/infrastructure/storage/adapters/local-storage.adapter.ts:61-88 | Over every run, a temporary file belongs to an upload under way, to one whose process stopped, or to one of which a call failed; an upload that succeeded has left none |
| FiscalEvidence.RecordedHashesAreForever | src/modules/fiscal-documents/application/fiscal-xml/prepare-fiscal-xml.service.ts:164-210 | Over any interleaving of preparation runs, provider results and submits: every recorded hash, in the artifact and in the submission, is that of the bytes at its key, now and after any further run; READY_TO_SUBMIT has a recorded signed hash |
| FiscalEvidence.SubmittedIsRecorded | src/modules/fiscal-documents/application/submission/submit-fiscal-document.service.ts:155-191 | The submission carries the signed hash of the artifact |
| FiscalEvidence.ObjectsStayForever | src/modules/fiscal-documents/application/fiscal-xml/prepare-fiscal-xml.service.ts:164-210 | A stored object never changes, over any run |
| FiscalEvidence.DocumentVerdictIsFinal | src/modules/fiscal-documents/application/fiscal-xml/prepare-fiscal-xml.service.ts:260-275 | No step whatever changes the status of an ACCEPTED or REJECTED document |
| FiscalEvidence.SubmissionVerdictIsFinal | src/modules/fiscal-documents/domain/submission/fiscal-submission-state-machine.ts:71-108 | A step leaves the verdict of a decided submission in place if and only if it is not the unguarded queue mark of an earlier read |
| FiscalEvidence.VerdictsAgree | src/modules/fiscal-documents/application/submission/fiscal-submission-state.service.ts:24-97 | Without superseding, and with every queue mark made on a submission that is not decided, the document has a verdict exactly if the submission has the same one |
| FiscalEvidence.VerdictsAreForever | src/modules/fiscal-documents/application/submission/fiscal-submission-state.service.ts:24-97 | Over any such run both verdicts stay |
| FiscalEvidence.RunStepsKeepVerdict | src/modules/fiscal-documents/application/fiscal-xml/prepare-fiscal-xml.service.ts:260-275 | Preparation never touches a submission, nor a document in a terminal status |
| FiscalEvidence.StaleMarkReopensAccepted | src/modules/fiscal-documents/application/submission/submit-fiscal-document.service.ts:131-153 | A reachable state with an ACCEPTED document whose submission is QUEUED again |
| FiscalEvidence.LoadedAcceptedIsRequeued | src/modules/fiscal-documents/application/submission/submit-fiscal-document.service.ts:155-191 | The same without a race in the mark itself: a submission loaded as ACCEPTED after losing the creation race is queued |
| FiscalStorage.StepIsPut | src/infrastructure/storage/adapters/local-storage.adapter.ts:47-88 | Every step of the local store, deletions aside, is nothing to a document or the one atomic put of one of its objects that the evidence system makes, with the answer it gives |
| FiscalEvidenceCalls.CallIsRun | src/modules/fiscal-documents/application/fiscal-xml/prepare-fiscal-xml.service.ts:45-258 | A preparation, a submit or a provider result, with any steps of others at its awaits, is a run of the evidence system |
| FiscalEvidenceCalls.ReadyIsRecorded | src/modules/fiscal-documents/application/fiscal-xml/prepare-fiscal-xml.service.ts:45-258 | Whatever interferes, a preparation that answers ready leaves a document ready to submit with a recorded signed hash |
| FiscalEvidenceCalls.LonePreparation | src/modules/fiscal-documents/application/fiscal-xml/prepare-fiscal-xml.service.ts:164-258 | An undisturbed preparation gets ready exactly if both texts are new to the store or equal to what it holds, and the exact rows and objects after each outcome: once signed bytes are stored, differently signed ones never match |
| FiscalEvidenceCalls.LoneSubmit | src/modules/fiscal-documents/application/submission/submit-fiscal-document.service.ts:44-125 | An undisturbed submit leaves at most one submission, with the signed hash of the artifact, queued unless it is under way or decided |
| FiscalEvidenceCalls.LoneResult | src/modules/fiscal-documents/application/submission/fiscal-submission-state.service.ts:24-97 | An undisturbed result is applied exactly if there is a submission without a verdict, the transition is allowed, and a response is new or equal to the stored one; both rows get the verdict together |
| FiscalEvidenceOutcomes.TransitionSources | src/modules/fiscal-documents/domain/submission/fiscal-submission-state-machine.ts:23-101 | For all pairs of statuses: applied, ignored or refused, from the sources of each status |
| FiscalEvidenceOutcomes.VerdictIsReachable | src/modules/fiscal-documents/domain/submission/fiscal-submission-state-machine.ts:23-53 | From every status that is not terminal, either verdict is reached in at most three transitions |
| FiscalEvidenceOutcomes.VerdictNeedsSubmitting | src/modules/fiscal-documents/domain/submission/fiscal-submission-state-machine.ts:23-53 | Along every path of transitions, a new submission gets a verdict only after it was being submitted |
| FiscalEvidenceOutcomes.PreparationOutcome | src/modules/fiscal-documents/application/fiscal-xml/prepare-fiscal-xml.service.ts:45-258 | For all documents, in statuses, hashes and objects: what an undisturbed preparation leaves, ready or where the store refuses |
| FiscalEvidenceOutcomes.FailedPreparationOutcome | src/modules/fiscal-documents/application/fiscal-xml/prepare-fiscal-xml.service.ts:45-258 | The same when storage, generation, signing or validation fails: never ready, nothing later happens, nothing is taken back |
| FiscalEvidenceOutcomes.SubmitOutcome | src/modules/fiscal-documents/application/submission/submit-fiscal-document.service.ts:44-125 | For all documents with recorded hashes: what an undisturbed submit leaves for each status of the document and its submission |
| FiscalEvidenceOutcomes.ResultOutcome | src/modules/fiscal-documents/application/submission/fiscal-submission-state.service.ts:24-97 | For all documents: when an undisturbed result is applied, and what it leaves of both rows and the response |
| FiscalEvidenceOutcomes.EndedCallsStay | src/modules/fiscal-documents/application/fiscal-xml/prepare-fiscal-xml.service.ts:45-258 | Over any further run, a preparation, result or submit that has ended does not start again and keeps its answer |
| FiscalEvidenceService.FiscalDocumentCase.Prepare | src/modules/fiscal-documents/application/fiscal-xml/prepare-fiscal-xml.service.ts:45-258 | The statements leave exactly the rows and objects of the system, for all interference at the seven awaits and all answers of signing and validation, and the answer is ready exactly if the run of the system ends so |
| FiscalEvidenceService.FiscalDocumentCase.Submit | src/modules/fiscal-documents/application/submission/submit-fiscal-document.service.ts:44-125 | The statements leave exactly the rows of the system, for all interference at the awaits and between a failed insert and its reload; the answer is the status of the submission, and a missing artifact is never the answer |
| FiscalEvidenceService.FiscalDocumentCase.ApplyProviderResult | src/modules/fiscal-documents/application/submission/fiscal-submission-state.service.ts:24-97 | The statements leave exactly the rows and objects of the system, for all interference at the three awaits; an applied verdict leaves a document in a terminal status |

## Left out

- DeliveryServices.DeliveryServer.ProcessDelivery: has the paths without a database exception; exceptions and crashes are steps of the transition system.
- DeliveryServices.DeliveryServer.RecoverOnce: takes the configuration and the order of the query as inputs, and runs a scan without interference between its statements; the two updates are separate steps of the transition system.
- CircuitBreaker.HaciendaCircuitBreaker.Execute: is the call of one caller that nobody overtakes; concurrent callers are the transition system.
- SecretStore.EncryptedFileSecretProvider.WriteVersion: is the call of a process alone; concurrent processes are the transition system.
- SecretStore.ValidationPasses: validates a list of directories given as input; the marker file and the writability test of `ensureReady` are not modelled.
- SecretBackup.ListStoreFiles: the sorted order of the listing is not modelled, because nothing depends on it.
- SecretRestore.RestoreStore: leaves out the final validation of the restored store, which needs the master key; empty directories are not reproduced, as in the code.
- FiscalPayload.NormalizeIsIdempotent: the conversion of a text to an ISO time is an input, for which an ISO time stands for itself.
- FiscalForm.StoredFormAgrees: the receiver column keeps the JSON meaning with keys in any order, the rate column the amount, and the lines column the lines.
- Issuance.ConsecutivesAreUnique: takes the security code as part of the key text only; a collision of random keys is a failure like any other.
- IssuanceService.FiscalDocumentService.CreateDocument: others commit only while its insert waits; after that, interleavings are those of the transition system.
- IssuanceService.FiscalDocumentService.ConfigureSequence: the check and the upsert are one step; in the code another transaction can start the row between them.
- LocalStorage.LocalStorageAdapter.Upload: has the paths without a failing file-system call, one missing winner aside; other failures and crashes are steps of the transition system.
- FiscalStorage.StepIsPut: deletions stay outside, because the code deletes logos and rendered PDF files alone, never the XML objects or the response of a document.
- FiscalEvidenceService.FiscalDocumentCase.Prepare: a call that throws after the last transaction is left out; the code then answers a failure for a document that is ready.
- FiscalEvidence.RecordedHashesAreForever: one document at a time, because documents share no rows and no object keys; a late result without a response may write back an older response hash, which is still the hash of the stored bytes.
- FiscalEvidence.VerdictsAgree: a document that an operator supersedes keeps its submission's verdict apart.
- Controllers, guards, data transfer, readiness, audit, notifications, tenant context, API keys and certificate upload.
- Real cryptography, XML signing, schema validation and DOM parsing; the XML tree is the input of the traversals.
- PDF rendering, message texts and the SMTP transport.
- S3 and parameter-store adapters, which overwrite.
- Power failures: a completed write is durable.
- The non-terminal submission graph under races, and conformance of worker writes to the delivery transition table, which the code does not keep.
- Reference normalization and the directory layout of the secret store by fingerprint prefix.
- The locale order of object entries before they are rebuilt in the normalizer, which the canonical printer sorts again.
- File permissions and redaction.
