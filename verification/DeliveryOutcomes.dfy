/**
 What the operations leave, field by field: an undisturbed execution of processDelivery, a re-queue
 by each of the services, and the creation of a row.
 */
module DeliveryOutcomes {
  import opened Common
  import opened RetryClassifier
  import opened DeliveryModel
  import opened DeliverySafety
  import opened DeliveryServices

  // -- processDelivery ---------------------------------------------------------------------

  /** The code that the failure handler receives: of the policy, of an unknown outcome, or of the provider. */
  ghost function CodeSeen(io: Answers): Option<string> {
    match io.prepare
    case Some(Policy(code)) => Some(code)
    case Some(Other) => None
    case None => if io.outcome == OutcomeUnknown then Some("UNKNOWN_EXTERNAL_OUTCOME") else io.code
  }

  /** An exception before the send has outcome UNKNOWN, whatever the provider would have said. */
  ghost function OutcomeSeen(io: Answers): Outcome {
    if io.prepare.Some? then OutcomeUnknown else io.outcome
  }

  /** The status and the wait in seconds after a failed attempt on a row that had `count` attempts. */
  ghost predicate FailsWith(io: Answers, count: nat, status: DeliveryStatus, wait: Option<nat>) {
    var missing := CodeSeen(io) == Some("ARTIFACT_MISSING");
    if CodeSeen(io) == Some("UNKNOWN_EXTERNAL_OUTCOME") then
      status == ManualReview && wait == None
    else if BlockingCode(CodeSeen(io)) || (!missing && OutcomeSeen(io) == PermanentFailure) then
      status == Failed && wait == None
    else if count < 8 then
      && status == RetryPending
      && wait == Some(if missing then 30
                      else if count < 6 then [60, 120, 240, 480, 960, 1920][count] + io.jitter
                      else 3600)
    else
      && wait == None
      && status == if missing || OutcomeSeen(io) in {TransientFailure, RateLimited} then Failed else ManualReview
  }

  lemma FailureIsClassified(io: Answers, count: nat)
    requires OutcomeSeen(io) != MailDelivered
    ensures
      var c := Classify(MapOutcomeToErrorClass(OutcomeSeen(io), CodeSeen(io)), count, MAX_DELIVERY_RETRIES, io.jitter);
      FailsWith(io, count, c.nextStatus, c.retryDelaySeconds)
  {
    BackoffSeconds(count, io.jitter);
  }

  /** After the claim and the attempt row of an undisturbed worker. */
  ghost function Begun(s: State, w: WorkerId, d: DeliveryId, io: Answers): State
    requires d in s.rows
  {
    var n := s.rows[d].attemptCount;
    s.(rows := s.rows[d := s.rows[d].(status := Sending, lastAttemptAt := Some(io.startedAt))],
       attempts := s.attempts[io.attempt := Attempt(d, n + 1, Sending, false)],
       workers := s.workers[w := Worker(d, n, io.startedAt, Preparing(io.attempt))],
       claims := s.claims + multiset{d})
  }

  ghost predicate Answered(io: Answers) {
    && PortContract(io.accepted, io.outcome)
    && (io.prepare.Some? && io.prepare.value.Policy? ==> PolicyCode(io.prepare.value.code))
  }

  lemma Turn(s: State, w: WorkerId, io: Answers, rest: seq<seq<Step>>)
    requires w in s.workers
    ensures Play(s, w, io, [[]] + rest) == Play(Apply(s, NextStep(s.workers[w].phase, w, io)), w, io, rest)
  {
    PlayTurn(s, w, io, [], rest);
  }

  lemma NoTurn(s: State, w: WorkerId, io: Answers, others: seq<seq<Step>>)
    requires w !in s.workers
    ensures Play(s, w, io, others) == s
  {}

  lemma BeginsSo(s: State, w: WorkerId, d: DeliveryId, io: Answers)
    requires w !in s.workers && io.attempt !in s.attempts && Claimable(s, d)
    ensures Apply(Apply(Apply(s, Load(w, d, io.startedAt)), Claim(w)), RecordAttempt(w, io.attempt))
         == Begun(s, w, d, io)
  {
    var loaded := Apply(s, Load(w, d, io.startedAt));
    var claimed := Apply(loaded, Claim(w));
    assert claimed.rows == Begun(s, w, d, io).rows;
    assert Apply(claimed, RecordAttempt(w, io.attempt)).workers == Begun(s, w, d, io).workers;
  }

  /** Four empty waits, for the claim, the attempt row, the try block and the writes. */
  lemma BeginningPlays(s: State, w: WorkerId, d: DeliveryId, io: Answers, rest: seq<seq<Step>>)
    requires w !in s.workers && io.attempt !in s.attempts && Claimable(s, d)
    ensures Processed(s, w, d, io, [[]] + ([[]] + ([[]] + rest))) == Play(Begun(s, w, d, io), w, io, rest)
  {
    var loaded := Apply(s, Load(w, d, io.startedAt));
    BeginsSo(s, w, d, io);
    assert ([[]] + ([[]] + ([[]] + rest)))[1..] == [[]] + ([[]] + rest);
    Turn(loaded, w, io, [[]] + rest);
    Turn(Apply(loaded, Claim(w)), w, io, rest);
  }

  /** The ends of an execution: what the mail, the row, the attempt and the worker are left as. */
  ghost predicate EndsAs(s: State, s': State, w: WorkerId, d: DeliveryId, io: Answers, row: Row)
    requires d in s.rows
  {
    && s'.rows == s.rows[d := row]
    && s'.attempts == s.attempts[io.attempt := Attempt(d, s.rows[d].attemptCount + 1, row.status, true)]
    && s'.workers == s.workers && s'.requests == s.requests
    && s'.mails == (if io.prepare.None? && io.accepted then s.mails + multiset{d} else s.mails)
    && s'.claims == s.claims + multiset{d}
    && s'.requeues == s.requeues && s'.faults == s.faults && s'.staleClaims == s.staleClaims
  }

  ghost function RowDelivered(row: Row, now: Millis): Row {
    Row(Delivered, row.attemptCount + 1, row.createdAt, Some(now), row.nextAttemptAt, Some(now))
  }

  ghost function RowFailed(row: Row, status: DeliveryStatus, wait: Option<nat>, now: Millis): Row {
    Row(status, row.attemptCount + 1, row.createdAt, Some(now),
        if wait == None then None else Some(now + 1000 * wait.value), row.deliveredAt)
  }

  ghost predicate Working(t: State, w: WorkerId, worker: Worker) {
    && w in t.workers && t.workers[w] == worker && worker.delivery in t.rows
    && t.rows[worker.delivery].status == Sending && t.rows[worker.delivery].attemptCount == worker.attemptCount
  }

  lemma DeliveredIsWritten(t: State, w: WorkerId, worker: Worker, now: Millis)
    requires Working(t, w, worker) && worker.phase.Sent?
    ensures
      var d := worker.delivery;
      Apply(t, WriteDelivered(w, now))
      == t.(rows := t.rows[d := RowDelivered(t.rows[d], now)],
            workers := t.workers[w := worker.(phase := Closing(worker.phase.attempt, true, Delivered, false))])
  {}

  lemma FailureIsWritten(t: State, w: WorkerId, worker: Worker, now: Millis, jitter: Jitter)
    requires Working(t, w, worker) && worker.phase.Failing?
    ensures
      var d, p := worker.delivery, worker.phase;
      var c := Classify(p.errorClass, worker.attemptCount, 8, jitter);
      Apply(t, WriteFailure(w, now, jitter))
      == t.(rows := t.rows[d := RowFailed(t.rows[d], c.nextStatus, c.retryDelaySeconds, now)],
            workers := t.workers[w := worker.(phase := Closing(p.attempt, p.accepted, c.nextStatus, p.caught))])
  {}

  lemma AttemptIsClosed(t: State, w: WorkerId, worker: Worker)
    requires w in t.workers && t.workers[w] == worker && worker.phase.Closing? && worker.delivery in t.rows
    requires worker.phase.attempt in t.attempts
    ensures
      var a := worker.phase.attempt;
      Apply(t, CloseAttempt(w))
      == t.(workers := t.workers - {w},
            attempts := t.attempts[a := t.attempts[a].(status := worker.phase.result, completed := true)])
  {}

  lemma SendSucceeds(t: State, w: WorkerId, worker: Worker, io: Answers)
    requires Working(t, w, worker) && worker.phase.Preparing? && Answered(io)
    requires io.prepare.None? && io.outcome == MailDelivered
    ensures Apply(t, NextStep(worker.phase, w, io))
         == t.(workers := t.workers[w := worker.(phase := Sent(worker.phase.attempt))],
               mails := t.mails + multiset{worker.delivery})
  {}

  lemma SendFails(t: State, w: WorkerId, worker: Worker, io: Answers) returns (phase: Phase)
    requires Working(t, w, worker) && worker.phase.Preparing? && Answered(io)
    requires io.prepare.Some? || io.outcome != MailDelivered
    ensures phase.Failing? && phase.attempt == worker.phase.attempt
    ensures phase.errorClass == MapOutcomeToErrorClass(OutcomeSeen(io), CodeSeen(io))
    ensures Apply(t, NextStep(worker.phase, w, io))
         == t.(workers := t.workers[w := worker.(phase := phase)],
               mails := if io.prepare.None? && io.accepted then t.mails + multiset{worker.delivery} else t.mails)
  {
    phase := Apply(t, NextStep(worker.phase, w, io)).workers[w].phase;
  }

  lemma DeliveredRest(t: State, w: WorkerId, worker: Worker, io: Answers)
    requires Working(t, w, worker) && worker.phase.Sent? && worker.phase.attempt in t.attempts
    ensures
      var d, a := worker.delivery, worker.phase.attempt;
      Play(t, w, io, [[]] + ([[]] + []))
      == t.(rows := t.rows[d := RowDelivered(t.rows[d], io.now)], workers := t.workers - {w},
            attempts := t.attempts[a := t.attempts[a].(status := Delivered, completed := true)])
  {
    Turn(t, w, io, [[]] + []);
    DeliveredIsWritten(t, w, worker, io.now);
    var written := Apply(t, WriteDelivered(w, io.now));
    Turn(written, w, io, []);
    AttemptIsClosed(written, w, written.workers[w]);
    assert written.workers - {w} == t.workers - {w};
  }

  lemma FailedRest(t: State, w: WorkerId, worker: Worker, io: Answers)
    requires Working(t, w, worker) && worker.phase.Failing? && worker.phase.attempt in t.attempts
    ensures
      var d, a := worker.delivery, worker.phase.attempt;
      var c := Classify(worker.phase.errorClass, worker.attemptCount, 8, io.jitter);
      Play(t, w, io, [[]] + ([[]] + []))
      == t.(rows := t.rows[d := RowFailed(t.rows[d], c.nextStatus, c.retryDelaySeconds, io.now)],
            workers := t.workers - {w},
            attempts := t.attempts[a := t.attempts[a].(status := c.nextStatus, completed := true)])
  {
    Turn(t, w, io, [[]] + []);
    FailureIsWritten(t, w, worker, io.now, io.jitter);
    var written := Apply(t, WriteFailure(w, io.now, io.jitter));
    Turn(written, w, io, []);
    AttemptIsClosed(written, w, written.workers[w]);
    assert written.workers - {w} == t.workers - {w};
  }

  lemma WorkerIsGone(s: State, w: WorkerId, x: Worker, y: Worker)
    requires w !in s.workers
    ensures s.workers[w := x][w := y] - {w} == s.workers
  {}

  /** The last state of an execution, from the one after its send. */
  lemma EndsSo(s: State, sent: State, end: State, w: WorkerId, d: DeliveryId, io: Answers, x: Worker, row: Row)
    requires w !in s.workers && d in s.rows
    requires
      var b := Begun(s, w, d, io);
      sent == b.(workers := b.workers[w := x],
                 mails := if io.prepare.None? && io.accepted then s.mails + multiset{d} else s.mails)
    requires
      end == sent.(rows := sent.rows[d := row], workers := sent.workers - {w},
                   attempts := sent.attempts[io.attempt := sent.attempts[io.attempt].(status := row.status,
                                                                                      completed := true)])
    ensures EndsAs(s, end, w, d, io, row)
  {
    WorkerIsGone(s, w, Begun(s, w, d, io).workers[w], x);
  }

  /** A failed row is the same from before the claim and from after it. */
  lemma FailsAlike(s: State, w: WorkerId, d: DeliveryId, io: Answers, status: DeliveryStatus, wait: Option<nat>)
    requires d in s.rows
    ensures RowFailed(Begun(s, w, d, io).rows[d], status, wait, io.now) == RowFailed(s.rows[d], status, wait, io.now)
  {}

  lemma DeliveredPlays(s: State, w: WorkerId, d: DeliveryId, io: Answers)
    requires w !in s.workers && io.attempt !in s.attempts && Claimable(s, d) && Answered(io)
    requires io.prepare.None? && io.outcome == MailDelivered
    ensures EndsAs(s, Play(Begun(s, w, d, io), w, io, [[]] + ([[]] + ([[]] + []))), w, d, io,
                   RowDelivered(s.rows[d], io.now))
  {
    var b := Begun(s, w, d, io);
    var worker := b.workers[w];
    Turn(b, w, io, [[]] + ([[]] + []));
    SendSucceeds(b, w, worker, io);
    var sent := Apply(b, NextStep(worker.phase, w, io));
    DeliveredRest(sent, w, sent.workers[w], io);
    EndsSo(s, sent, Play(sent, w, io, [[]] + ([[]] + [])), w, d, io, sent.workers[w], RowDelivered(s.rows[d], io.now));
  }

  /** The turn of the send, when nothing is delivered. */
  lemma SendTurnFails(s: State, w: WorkerId, d: DeliveryId, io: Answers) returns (x: Worker, sent: State)
    requires w !in s.workers && Claimable(s, d) && Answered(io)
    requires io.prepare.Some? || io.outcome != MailDelivered
    ensures x.delivery == d && x.attemptCount == s.rows[d].attemptCount
    ensures x.phase.Failing? && x.phase.attempt == io.attempt
    ensures x.phase.errorClass == MapOutcomeToErrorClass(OutcomeSeen(io), CodeSeen(io))
    ensures
      var b := Begun(s, w, d, io);
      && Play(b, w, io, [[]] + ([[]] + ([[]] + []))) == Play(sent, w, io, [[]] + ([[]] + []))
      && sent == b.(workers := b.workers[w := x],
                    mails := if io.prepare.None? && io.accepted then s.mails + multiset{d} else s.mails)
  {
    var b := Begun(s, w, d, io);
    Turn(b, w, io, [[]] + ([[]] + []));
    var phase := SendFails(b, w, b.workers[w], io);
    sent := Apply(b, NextStep(b.workers[w].phase, w, io));
    x := sent.workers[w];
  }

  lemma FailedPlays(s: State, w: WorkerId, d: DeliveryId, io: Answers)
    requires w !in s.workers && io.attempt !in s.attempts && Claimable(s, d) && Answered(io)
    requires io.prepare.Some? || io.outcome != MailDelivered
    ensures
      var c := Classify(MapOutcomeToErrorClass(OutcomeSeen(io), CodeSeen(io)), s.rows[d].attemptCount, 8, io.jitter);
      EndsAs(s, Play(Begun(s, w, d, io), w, io, [[]] + ([[]] + ([[]] + []))), w, d, io,
             RowFailed(s.rows[d], c.nextStatus, c.retryDelaySeconds, io.now))
  {
    var x, sent := SendTurnFails(s, w, d, io);
    FailedRest(sent, w, x, io);
    var c := Classify(x.phase.errorClass, x.attemptCount, 8, io.jitter);
    FailsAlike(s, w, d, io, c.nextStatus, c.retryDelaySeconds);
    EndsSo(s, sent, Play(sent, w, io, [[]] + ([[]] + [])), w, d, io, x,
           RowFailed(s.rows[d], c.nextStatus, c.retryDelaySeconds, io.now));
  }

  /**
   An undisturbed processDelivery on a claimable row sends at most one mail and leaves a completed
   attempt with the next number. The row is DELIVERED now, or has the status and the due time that
   the answers and the attempts so far decide.
   */
  lemma LoneProcessing(s: State, w: WorkerId, d: DeliveryId, io: Answers)
    returns (status: DeliveryStatus, wait: Option<nat>)
    requires w !in s.workers && io.attempt !in s.attempts && Claimable(s, d) && Answered(io)
    ensures
      EndsAs(s, Processed(s, w, d, io, [[], [], [], [], [], []]), w, d, io,
             if io.prepare.None? && io.outcome == MailDelivered then RowDelivered(s.rows[d], io.now)
             else RowFailed(s.rows[d], status, wait, io.now))
    ensures io.prepare.Some? || io.outcome != MailDelivered ==> FailsWith(io, s.rows[d].attemptCount, status, wait)
  {
    var rest: seq<seq<Step>> := [[]] + ([[]] + ([[]] + []));
    assert [[], [], [], [], [], []] == [[]] + ([[]] + ([[]] + rest));
    BeginningPlays(s, w, d, io, rest);
    status, wait := Delivered, None;
    if io.prepare.None? && io.outcome == MailDelivered {
      DeliveredPlays(s, w, d, io);
    } else {
      var c := Classify(MapOutcomeToErrorClass(OutcomeSeen(io), CodeSeen(io)), s.rows[d].attemptCount, 8, io.jitter);
      status, wait := c.nextStatus, c.retryDelaySeconds;
      FailedPlays(s, w, d, io);
      FailureIsClassified(io, s.rows[d].attemptCount);
    }
  }

  lemma LoadOnly(s: State, w: WorkerId, d: DeliveryId, at: Millis)
    requires w !in s.workers && d in s.rows && s.rows[d].status != Delivered && !ClaimableStatus(s.rows[d].status)
    ensures w in Apply(s, Load(w, d, at)).workers && Apply(s, Load(w, d, at)).workers[w].phase == Loaded
    ensures Apply(Apply(s, Load(w, d, at)), Claim(w)) == s
  {
    assert Apply(s, Load(w, d, at)).workers - {w} == s.workers;
  }

  /** A row that is missing, delivered, or not waiting to be sent is left alone. */
  lemma NothingToProcess(s: State, w: WorkerId, d: DeliveryId, io: Answers)
    requires w !in s.workers && !(d in s.rows && s.rows[d].status in {Queued, RetryPending})
    ensures Processed(s, w, d, io, [[], [], [], [], [], []]) == s
  {
    var waits: seq<seq<Step>> := [[], [], [], [], [], []];
    assert waits[1..] == [[]] + [[], [], [], []];
    if d in s.rows && s.rows[d].status != Delivered {
      LoadOnly(s, w, d, io.startedAt);
      Turn(Apply(s, Load(w, d, io.startedAt)), w, io, [[], [], [], []]);
      NoTurn(s, w, io, [[], [], [], []]);
    } else {
      NoTurn(s, w, io, waits[1..]);
    }
  }

  /** An exception in the try block after the send is handled as an unknown response; one in the catch block ends it. */
  lemma ThrownIsHandled(s: State, w: WorkerId)
    requires At(s, w) && (s.workers[w].phase.Sent? || s.workers[w].phase.Failing? || s.workers[w].phase.Closing?)
    ensures
      var s', phase := Apply(s, Throw(w)), s.workers[w].phase;
      && s'.rows == s.rows && s'.mails == s.mails
      && (w !in s'.workers <==> !phase.Sent? && phase.caught)
      && (w in s'.workers ==>
            var p := s'.workers[w].phase;
            p.Failing? && p.attempt == phase.attempt && p.errorClass == UnknownProviderResponse && p.caught)
  {}

  // -- Re-queues ---------------------------------------------------------------------------

  /** A row in one of these statuses may be put back to work by the service. */
  ghost predicate MayRequeue(kind: RequeueKind, row: Row, at: Millis, cooldown: nat) {
    match kind
    case EnsurePackage => row.status in {Pending, RetryPending, Failed, ManualReview, Cancelled}
    case PdfPrerequisite(c) =>
      && row.status in {Pending, RetryPending, Failed, ManualReview}
      && c in {HistoricalMock, ArtifactCorrupt, ArtifactHashMismatch, ArtifactMissing, ArtifactWrongVersion,
               PdfNotYetGenerated}
    case ManualResend => row.status in {Pending, Queued, Sending, Delivered, RetryPending, Failed, ManualReview}
    case AcceptedPackage =>
      || row.status in {Pending, Failed, ManualReview}
      || (row.status == Delivered && (row.deliveredAt == None || row.deliveredAt.value + 1000 * cooldown <= at))
  }

  /** What is left of the row: the ensure service keeps the due time, the manual ones count an attempt. */
  ghost predicate RequeuedAs(kind: RequeueKind, before: Row, after: Row, count: nat, now: Millis) {
    && after.createdAt == before.createdAt && after.lastAttemptAt == before.lastAttemptAt
    && after.deliveredAt == before.deliveredAt
    && match kind
       case EnsurePackage =>
         after.status == Queued && after.attemptCount == before.attemptCount
         && after.nextAttemptAt == before.nextAttemptAt
       case ManualResend =>
         after.status == Queued && after.attemptCount == count + 1 && after.nextAttemptAt == None
       case AcceptedPackage =>
         after.status == Queued && after.attemptCount == before.attemptCount && after.nextAttemptAt == None
       case PdfPrerequisite(c) =>
         && after.attemptCount == count + 1
         && if c in {ArtifactMissing, PdfNotYetGenerated} && count < 8
            then after.status == RetryPending && after.nextAttemptAt == Some(now + 30000)
            else after.status == Failed && after.nextAttemptAt == None
  }

  lemma RequeuedSo(row: Row, request: Request, now: Millis, jitter: Jitter)
    requires request.kind.PdfPrerequisite? ==> PdfPrerequisiteClass(request.kind.errorClass)
    ensures RequeuedAs(request.kind, row, Requeued(row, request, now, jitter), request.attemptCount, now)
  {}

  /**
   The write of a service comes after its read, and the row may be another by then: the accepted-package
   service looks again at the status, the others do not.
   */
  lemma LateWrite(s: State, r: RequestId, now: Millis, jitter: Jitter)
    requires r in s.requests && s.requests[r].delivery in s.rows
    requires s.requests[r].kind.PdfPrerequisite? ==> PdfPrerequisiteClass(s.requests[r].kind.errorClass)
    ensures
      var s', d, kind := Apply(s, RequestWrite(r, now, jitter)), s.requests[r].delivery, s.requests[r].kind;
      if kind == AcceptedPackage && s.rows[d].status in {Queued, Sending, RetryPending, Cancelled} then
        s' == s.(requests := s.requests - {r})
      else
        && d in s'.rows && RequeuedAs(kind, s.rows[d], s'.rows[d], s.requests[r].attemptCount, now)
        && s' == s.(requests := s.requests - {r}, rows := s.rows[d := s'.rows[d]],
                    requeues := s.requeues + multiset{d})
  {
    RequeuedSo(s.rows[s.requests[r].delivery], s.requests[r], now, jitter);
  }

  lemma AllowsWhatMay(kind: RequeueKind, row: Row, at: Millis, cooldown: nat)
    ensures ReadAllows(kind, row, at, cooldown) <==> MayRequeue(kind, row, at, cooldown)
  {
    match row.status
    case Pending =>
    case Queued =>
    case Sending =>
    case Delivered =>
    case RetryPending =>
    case Failed =>
    case ManualReview =>
    case Cancelled =>
  }

  lemma ReadDecides(s: State, r: RequestId, kind: RequeueKind, d: DeliveryId, at: Millis, cooldown: nat)
    requires r !in s.requests && d in s.rows
    ensures
      Apply(s, RequestRead(r, kind, d, at, cooldown)) ==
        if MayRequeue(kind, s.rows[d], at, cooldown)
        then s.(requests := s.requests[r := Request(d, kind, s.rows[d].attemptCount)]) else s
  {
    AllowsWhatMay(kind, s.rows[d], at, cooldown);
  }

  /** A service that is not overtaken re-queues exactly the rows that it may. */
  lemma LoneRequeue(s: State, r: RequestId, kind: RequeueKind, d: DeliveryId, at: Millis, cooldown: nat, now: Millis,
                    jitter: Jitter)
    requires r !in s.requests && d in s.rows
    ensures
      var s' := Apply(Apply(s, RequestRead(r, kind, d, at, cooldown)), RequestWrite(r, now, jitter));
      if MayRequeue(kind, s.rows[d], at, cooldown) then
        && d in s'.rows && s' == s.(rows := s.rows[d := s'.rows[d]], requeues := s.requeues + multiset{d})
        && RequeuedAs(kind, s.rows[d], s'.rows[d], s.rows[d].attemptCount, now)
      else s' == s
  {
    ReadDecides(s, r, kind, d, at, cooldown);
    if MayRequeue(kind, s.rows[d], at, cooldown) {
      var read := Apply(s, RequestRead(r, kind, d, at, cooldown));
      LateWrite(read, r, now, jitter);
      assert read.requests - {r} == s.requests;
    }
  }

  // -- Creation ----------------------------------------------------------------------------

  /** A new row waits to be sent; one made for a PDF that is not there waits half a minute for it, or has failed. */
  lemma RowsBegin(s: State, d: DeliveryId, c: ErrorClass, now: Millis, jitter: Jitter)
    ensures d in s.rows ==>
      Apply(s, CreateQueued(d, now)) == s && Apply(s, CreatePdfFailure(d, c, now, jitter)) == s
    ensures d !in s.rows ==>
      && Apply(s, CreateQueued(d, now)) == s.(rows := s.rows[d := Row(Queued, 0, now, None, None, None)])
      && Apply(s, CreatePdfFailure(d, c, now, jitter)) ==
           if c in {ArtifactMissing, PdfNotYetGenerated} then
             s.(rows := s.rows[d := Row(RetryPending, 1, now, None, Some(now + 30000), None)])
           else if c in {HistoricalMock, ArtifactCorrupt, ArtifactHashMismatch, ArtifactWrongVersion} then
             s.(rows := s.rows[d := Row(Failed, 1, now, None, None, None)])
           else s
  {}
}
