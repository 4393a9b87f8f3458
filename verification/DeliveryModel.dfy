/**
 The e-mail delivery protocol: rows, worker processes, recovery scans and operator re-queues as
 one transition system. Every database statement, and the SMTP call, is one step; any step may
 follow any other. A step that is not enabled leaves the state unchanged, so every sequence of
 steps is a run.
 */
module DeliveryModel {
  import opened Common
  import opened RetryClassifier

  type DeliveryId = nat
  type WorkerId = nat
  type AttemptId = nat
  type RequestId = nat
  type Millis = int

  datatype Row = Row(
    status: DeliveryStatus,
    attemptCount: nat,
    createdAt: Millis,
    lastAttemptAt: Option<Millis>,
    nextAttemptAt: Option<Millis>,
    deliveredAt: Option<Millis>)

  datatype Attempt = Attempt(delivery: DeliveryId, number: nat, status: DeliveryStatus, completed: bool)

  /** The classes a worker can map a failure to; none of them re-queues the row by itself. */
  type WorkerErrorClass = c: ErrorClass | c !in {DuplicateTrigger, ManualResendAfterDelivered, WorkerCrashStaleSending}
    witness UnknownProviderResponse

  /** What a worker has done so far. `caught` says that it runs inside the catch block. */
  datatype Phase =
    | Loaded
    | Claimed
    | Preparing(attempt: AttemptId)
    | Sent(attempt: AttemptId)
    | Failing(attempt: AttemptId, accepted: bool, errorClass: WorkerErrorClass, caught: bool)
    | Closing(attempt: AttemptId, accepted: bool, result: DeliveryStatus, caught: bool)

  /** `attemptCount` is the value read by the first query, before the claim. */
  datatype Worker = Worker(delivery: DeliveryId, attemptCount: nat, startedAt: Millis, phase: Phase)

  /** The services that put an existing row back to work. Each reads the row first, and writes later. */
  datatype RequeueKind =
    | EnsurePackage
    | PdfPrerequisite(errorClass: ErrorClass)
    | ManualResend
    | AcceptedPackage

  datatype Request = Request(delivery: DeliveryId, kind: RequeueKind, attemptCount: nat)

  /** What an exception thrown before the send was: a PDF policy error with its code, or anything else. */
  datatype Thrown = Policy(code: string) | Other

  /**
   `mails` logs the messages SMTP accepted and `claims` the claims won. `requeues`, `faults` and
   `staleClaims` count the known weak spots: re-queues by a service, exceptions caught after the
   outcome of a send was already known, and claims made on an outdated `attemptCount`.
   */
  datatype State = State(
    rows: map<DeliveryId, Row>,
    attempts: map<AttemptId, Attempt>,
    workers: map<WorkerId, Worker>,
    requests: map<RequestId, Request>,
    mails: multiset<DeliveryId>,
    claims: multiset<DeliveryId>,
    requeues: multiset<DeliveryId>,
    faults: multiset<DeliveryId>,
    staleClaims: multiset<DeliveryId>)

  datatype Step =
    | CreateQueued(d: DeliveryId, now: Millis)
    | CreatePdfFailure(d: DeliveryId, errorClass: ErrorClass, now: Millis, jitter: Jitter)
    | Load(w: WorkerId, d: DeliveryId, now: Millis)
    | Claim(w: WorkerId)
    | RecordAttempt(w: WorkerId, a: AttemptId)
    | PrepareFails(w: WorkerId, thrown: Thrown)
    | Send(w: WorkerId, accepted: bool, outcome: Outcome, code: Option<string>)
    | WriteDelivered(w: WorkerId, now: Millis)
    | WriteFailure(w: WorkerId, now: Millis, jitter: Jitter)
    | CloseAttempt(w: WorkerId)
    | Throw(w: WorkerId)
    | Crash(w: WorkerId)
    | QuarantineStale(scopeStart: Millis, staleBefore: Millis)
    | RequeueDue(scopeStart: Millis, now: Millis)
    | RequestRead(r: RequestId, kind: RequeueKind, d: DeliveryId, requestedAt: Millis, cooldown: nat)
    | RequestWrite(r: RequestId, now: Millis, jitter: Jitter)

  function Init(): State {
    State(map[], map[], map[], map[], multiset{}, multiset{}, multiset{}, multiset{}, multiset{})
  }

  predicate ClaimableStatus(status: DeliveryStatus) {
    status == Queued || status == RetryPending
  }

  // -- Row creation ------------------------------------------------------------------------

  function DoCreate(s: State, d: DeliveryId, row: Row): State {
    if d in s.rows then s else s.(rows := s.rows[d := row])
  }

  predicate PdfPrerequisiteClass(c: ErrorClass) {
    c in {HistoricalMock, ArtifactCorrupt, ArtifactHashMismatch, ArtifactMissing, ArtifactWrongVersion,
          PdfNotYetGenerated}
  }

  function DueAt(now: Millis, delay: Option<nat>): Option<Millis> {
    if delay.Some? then Some(now + delay.value * 1000) else None
  }

  function PdfFailureRow(errorClass: ErrorClass, now: Millis, jitter: Jitter): Row {
    var c := Classify(errorClass, 0, MAX_DELIVERY_RETRIES, jitter);
    Row(c.nextStatus, 1, now, None, DueAt(now, c.retryDelaySeconds), None)
  }

  // -- Worker ------------------------------------------------------------------------------

  function DoLoad(s: State, w: WorkerId, d: DeliveryId, now: Millis): State {
    if w in s.workers || d !in s.rows || s.rows[d].status == Delivered then s
    else s.(workers := s.workers[w := Worker(d, s.rows[d].attemptCount, now, Loaded)])
  }

  predicate At(s: State, w: WorkerId) {
    w in s.workers && s.workers[w].delivery in s.rows
  }

  function SetPhase(s: State, w: WorkerId, phase: Phase): State
    requires w in s.workers
  {
    s.(workers := s.workers[w := s.workers[w].(phase := phase)])
  }

  function DoClaim(s: State, w: WorkerId): State {
    if !At(s, w) || s.workers[w].phase != Loaded then s
    else
      var d := s.workers[w].delivery;
      if !ClaimableStatus(s.rows[d].status) then s.(workers := s.workers - {w})
      else
        var row := s.rows[d];
        SetPhase(s, w, Claimed).(
          rows := s.rows[d := row.(status := Sending, lastAttemptAt := Some(s.workers[w].startedAt))],
          claims := s.claims + multiset{d},
          staleClaims := if row.attemptCount == s.workers[w].attemptCount then s.staleClaims
                         else s.staleClaims + multiset{d})
  }

  function DoRecordAttempt(s: State, w: WorkerId, a: AttemptId): State {
    if !At(s, w) || s.workers[w].phase != Claimed || a in s.attempts then s
    else
      var worker := s.workers[w];
      SetPhase(s, w, Preparing(a)).(
        attempts := s.attempts[a := Attempt(worker.delivery, worker.attemptCount + 1, Sending, false)])
  }

  /** The catch block keeps a policy code; any other message ends up with provider outcome UNKNOWN. */
  function CaughtClass(thrown: Thrown): WorkerErrorClass {
    MapOutcomeToErrorClass(OutcomeUnknown, if thrown.Policy? then Some(thrown.code) else None)
  }

  /** The policy exception's closed set of codes. */
  predicate PolicyCode(code: string) {
    code in {"ARTIFACT_MISSING", "ARTIFACT_HASH_MISMATCH", "ARTIFACT_WRONG_VERSION", "LEGACY_PDF_UNAVAILABLE",
             "PDF_INVALID_STRUCTURE", "PDF_OVERSIZED"}
  }

  function DoPrepareFails(s: State, w: WorkerId, thrown: Thrown): State {
    if !At(s, w) || !s.workers[w].phase.Preparing? || (thrown.Policy? && !PolicyCode(thrown.code)) then s
    else SetPhase(s, w, Failing(s.workers[w].phase.attempt, false, CaughtClass(thrown), true))
  }

  /** The e-mail port: DELIVERED only for an accepted mail, and an accepted mail is never reported as refused. */
  predicate PortContract(accepted: bool, outcome: Outcome) {
    && (outcome == MailDelivered ==> accepted)
    && (accepted ==> outcome == MailDelivered || outcome == OutcomeUnknown)
  }

  function FailureCode(outcome: Outcome, code: Option<string>): Option<string> {
    if outcome == OutcomeUnknown then Some("UNKNOWN_EXTERNAL_OUTCOME") else code
  }

  function DoSend(s: State, w: WorkerId, accepted: bool, outcome: Outcome, code: Option<string>): State {
    if !At(s, w) || !s.workers[w].phase.Preparing? || !PortContract(accepted, outcome) then s
    else
      var worker := s.workers[w];
      var a := worker.phase.attempt;
      var next :=
        if outcome == MailDelivered then Sent(a)
        else Failing(a, accepted, MapOutcomeToErrorClass(outcome, FailureCode(outcome, code)), false);
      SetPhase(s, w, next).(mails := if accepted then s.mails + multiset{worker.delivery} else s.mails)
  }

  function DoWriteDelivered(s: State, w: WorkerId, now: Millis): State {
    if !At(s, w) || !s.workers[w].phase.Sent? then s
    else
      var worker := s.workers[w];
      var d := worker.delivery;
      var row := s.rows[d];
      SetPhase(s, w, Closing(worker.phase.attempt, true, Delivered, false)).(
        rows := if row.status == Delivered then s.rows
                else s.rows[d := row.(status := Delivered, deliveredAt := Some(now),
                                      attemptCount := worker.attemptCount + 1, lastAttemptAt := Some(now))])
  }

  function DoWriteFailure(s: State, w: WorkerId, now: Millis, jitter: Jitter): State {
    if !At(s, w) || !s.workers[w].phase.Failing? then s
    else
      var worker := s.workers[w];
      var d := worker.delivery;
      var row := s.rows[d];
      var c := Classify(worker.phase.errorClass, worker.attemptCount, MAX_DELIVERY_RETRIES, jitter);
      SetPhase(s, w, Closing(worker.phase.attempt, worker.phase.accepted, c.nextStatus, worker.phase.caught)).(
        rows := if row.status == Delivered then s.rows
                else s.rows[d := row.(status := c.nextStatus, nextAttemptAt := DueAt(now, c.retryDelaySeconds),
                                      attemptCount := worker.attemptCount + 1, lastAttemptAt := Some(now))])
  }

  function DoCloseAttempt(s: State, w: WorkerId): State {
    if !At(s, w) || !s.workers[w].phase.Closing? || s.workers[w].phase.attempt !in s.attempts then s
    else
      var phase := s.workers[w].phase;
      var attempt := s.attempts[phase.attempt];
      s.(workers := s.workers - {w},
         attempts := s.attempts[phase.attempt := attempt.(status := phase.result, completed := true)])
  }

  /** A worker that has accounted for its claim, by an accepted mail or a row write, starts to fail again. */
  predicate Settled(phase: Phase) {
    phase.Sent? || phase.Closing? || (phase.Failing? && phase.accepted && phase.errorClass == UnknownExternalOutcome)
  }

  function Faulted(s: State, w: WorkerId, a: AttemptId, accepted: bool): State
    requires w in s.workers
  {
    SetPhase(s, w, Failing(a, accepted, CaughtClass(Other), true)).(
      faults := if Settled(s.workers[w].phase) then s.faults + multiset{s.workers[w].delivery} else s.faults)
  }

  /**
   A database write of the try block throws after the send: the catch block starts over with an
   unknown provider response. Inside the catch block the exception ends the worker.
   */
  function DoThrow(s: State, w: WorkerId): State {
    if !At(s, w) then s
    else
      var worker := s.workers[w];
      match worker.phase
      case Sent(a) => Faulted(s, w, a, true)
      case Failing(a, accepted, c, caught) =>
        if caught then s.(workers := s.workers - {w}) else Faulted(s, w, a, accepted)
      case Closing(a, accepted, _, caught) =>
        if caught then s.(workers := s.workers - {w}) else Faulted(s, w, a, accepted)
      case _ => s
  }

  function DoCrash(s: State, w: WorkerId): State {
    s.(workers := s.workers - {w})
  }

  // -- Recovery scan -----------------------------------------------------------------------

  predicate IsStale(row: Row, scopeStart: Millis, staleBefore: Millis) {
    row.status == Sending && row.createdAt >= scopeStart
    && row.lastAttemptAt.Some? && row.lastAttemptAt.value < staleBefore
  }

  predicate IsDue(row: Row, scopeStart: Millis, now: Millis) {
    row.status == RetryPending && row.createdAt >= scopeStart
    && row.nextAttemptAt.Some? && row.nextAttemptAt.value <= now
  }

  function DoQuarantine(s: State, scopeStart: Millis, staleBefore: Millis): State {
    s.(rows := map d | d in s.rows ::
         if IsStale(s.rows[d], scopeStart, staleBefore) then s.rows[d].(status := ManualReview) else s.rows[d])
  }

  function DoRequeueDue(s: State, scopeStart: Millis, now: Millis): State {
    s.(rows := map d | d in s.rows ::
         if IsDue(s.rows[d], scopeStart, now) then s.rows[d].(status := Queued, nextAttemptAt := None) else s.rows[d])
  }

  // -- Re-queues ---------------------------------------------------------------------------

  /** The check each service makes on the row it has read. */
  predicate ReadAllows(kind: RequeueKind, row: Row, requestedAt: Millis, cooldown: nat) {
    match kind
    case EnsurePackage => row.status !in {Delivered, Queued, Sending}
    case PdfPrerequisite(c) =>
      PdfPrerequisiteClass(c) && row.status !in {Delivered, Cancelled, Queued, Sending}
    case ManualResend => row.status != Cancelled
    case AcceptedPackage =>
      && row.status !in {Queued, Sending, RetryPending, Cancelled}
      && !(row.status == Delivered && row.deliveredAt.Some?
           && row.deliveredAt.value > requestedAt - cooldown * 1000)
  }

  function DoRequestRead(s: State, r: RequestId, kind: RequeueKind, d: DeliveryId, requestedAt: Millis,
      cooldown: nat): State {
    if r in s.requests || d !in s.rows || !ReadAllows(kind, s.rows[d], requestedAt, cooldown) then s
    else s.(requests := s.requests[r := Request(d, kind, s.rows[d].attemptCount)])
  }

  /** Only the accepted-package service guards its write. */
  predicate WriteAllowed(kind: RequeueKind, status: DeliveryStatus) {
    kind == AcceptedPackage ==> status in {Delivered, Failed, ManualReview, Pending}
  }

  function Requeued(row: Row, request: Request, now: Millis, jitter: Jitter): Row {
    match request.kind
    case EnsurePackage => row.(status := Queued)
    case PdfPrerequisite(c) =>
      var r := Classify(c, request.attemptCount, MAX_DELIVERY_RETRIES, jitter);
      row.(status := r.nextStatus, nextAttemptAt := DueAt(now, r.retryDelaySeconds),
           attemptCount := request.attemptCount + 1)
    case ManualResend => row.(status := Queued, nextAttemptAt := None, attemptCount := request.attemptCount + 1)
    case AcceptedPackage => row.(status := Queued, nextAttemptAt := None)
  }

  function DoRequestWrite(s: State, r: RequestId, now: Millis, jitter: Jitter): State {
    if r !in s.requests || s.requests[r].delivery !in s.rows then s
    else
      var request := s.requests[r];
      var d := request.delivery;
      if !WriteAllowed(request.kind, s.rows[d].status) then s.(requests := s.requests - {r})
      else s.(requests := s.requests - {r},
              rows := s.rows[d := Requeued(s.rows[d], request, now, jitter)],
              requeues := s.requeues + multiset{d})
  }

  // -- Runs --------------------------------------------------------------------------------

  function Apply(s: State, step: Step): State {
    match step
    case CreateQueued(d, now) => DoCreate(s, d, Row(Queued, 0, now, None, None, None))
    case CreatePdfFailure(d, c, now, jitter) =>
      if PdfPrerequisiteClass(c) then DoCreate(s, d, PdfFailureRow(c, now, jitter)) else s
    case Load(w, d, now) => DoLoad(s, w, d, now)
    case Claim(w) => DoClaim(s, w)
    case RecordAttempt(w, a) => DoRecordAttempt(s, w, a)
    case PrepareFails(w, thrown) => DoPrepareFails(s, w, thrown)
    case Send(w, accepted, outcome, code) => DoSend(s, w, accepted, outcome, code)
    case WriteDelivered(w, now) => DoWriteDelivered(s, w, now)
    case WriteFailure(w, now, jitter) => DoWriteFailure(s, w, now, jitter)
    case CloseAttempt(w) => DoCloseAttempt(s, w)
    case Throw(w) => DoThrow(s, w)
    case Crash(w) => DoCrash(s, w)
    case QuarantineStale(scopeStart, staleBefore) => DoQuarantine(s, scopeStart, staleBefore)
    case RequeueDue(scopeStart, now) => DoRequeueDue(s, scopeStart, now)
    case RequestRead(r, kind, d, requestedAt, cooldown) => DoRequestRead(s, r, kind, d, requestedAt, cooldown)
    case RequestWrite(r, now, jitter) => DoRequestWrite(s, r, now, jitter)
  }

  function Run(s: State, steps: seq<Step>): State
    decreases |steps|
  {
    if steps == [] then s else Run(Apply(s, steps[0]), steps[1..])
  }

  lemma {:induction false} RunAppend(s: State, first: seq<Step>, second: seq<Step>)
    ensures Run(s, first + second) == Run(Run(s, first), second)
    decreases |first|
  {
    if first == [] {
      assert first + second == second;
    } else {
      assert (first + second)[1..] == first[1..] + second;
      RunAppend(Apply(s, first[0]), first[1..], second);
    }
  }
}
