/** What every run of the delivery protocol keeps. */
module DeliverySafety {
  import opened Common
  import opened RetryClassifier
  import opened DeliveryModel

  // -- The accounting ----------------------------------------------------------------------

  /** A worker between its claim and its first write of the row. */
  predicate InFlight(phase: Phase) {
    phase.Claimed? || phase.Preparing? || phase.Sent? || phase.Failing?
  }

  /** A worker that can still send, or still put the row back to work. */
  predicate Open(phase: Phase) {
    InFlight(phase) && !Settled(phase)
  }

  predicate Claimable(s: State, d: DeliveryId) {
    d in s.rows && ClaimableStatus(s.rows[d].status)
  }

  ghost function OpenWorkers(s: State, d: DeliveryId): set<WorkerId> {
    set w | w in s.workers && s.workers[w].delivery == d && Open(s.workers[w].phase)
  }

  /** In flight with a mail already accepted. */
  ghost function SpentWorkers(s: State, d: DeliveryId): set<WorkerId> {
    set w | w in s.workers && s.workers[w].delivery == d
         && InFlight(s.workers[w].phase) && Settled(s.workers[w].phase)
  }

  ghost function InFlightWorkers(s: State, d: DeliveryId): set<WorkerId> {
    set w | w in s.workers && s.workers[w].delivery == d && InFlight(s.workers[w].phase)
  }

  function One(b: bool): nat {
    if b then 1 else 0
  }

  /** Mails sent, plus mails that could still be sent without a further re-queue. */
  ghost function Exposure(s: State, d: DeliveryId): nat {
    s.mails[d] + |OpenWorkers(s, d)| + One(Claimable(s, d))
  }

  ghost function Allowance(s: State, d: DeliveryId): nat {
    One(d in s.rows) + s.requeues[d] + s.faults[d]
  }

  ghost predicate Accounted(s: State, d: DeliveryId) {
    && Exposure(s, d) <= Allowance(s, d)
    && |SpentWorkers(s, d)| <= s.mails[d]
    && (d in s.rows && s.rows[d].status == Delivered ==> 1 <= s.mails[d])
  }

  // -- One worker changes at a time --------------------------------------------------------

  predicate SameWorker(s: State, s': State, v: WorkerId) {
    && (v in s.workers <==> v in s'.workers)
    && (v in s.workers ==> s'.workers[v] == s.workers[v])
  }

  ghost predicate OnlyWorker(s: State, s': State, w: WorkerId) {
    forall v :: v != w ==> SameWorker(s, s', v)
  }

  predicate OpenAt(s: State, d: DeliveryId, w: WorkerId) {
    w in s.workers && s.workers[w].delivery == d && Open(s.workers[w].phase)
  }

  predicate SpentAt(s: State, d: DeliveryId, w: WorkerId) {
    w in s.workers && s.workers[w].delivery == d && InFlight(s.workers[w].phase) && Settled(s.workers[w].phase)
  }

  lemma CountWithout(all: set<WorkerId>, rest: set<WorkerId>, w: WorkerId)
    requires rest == all - {w}
    ensures |all| == |rest| + One(w in all)
  {
    if w in all {
      assert all == rest + {w};
    } else {
      assert all == rest;
    }
  }

  lemma CountsFollow(before: set<WorkerId>, after: set<WorkerId>, w: WorkerId)
    requires before - {w} == after - {w}
    ensures |after| + One(w in before) == |before| + One(w in after)
  {
    CountWithout(before, before - {w}, w);
    CountWithout(after, after - {w}, w);
  }

  lemma OpenFollows(s: State, s': State, w: WorkerId, d: DeliveryId)
    requires OnlyWorker(s, s', w)
    ensures |OpenWorkers(s', d)| + One(OpenAt(s, d, w)) == |OpenWorkers(s, d)| + One(OpenAt(s', d, w))
  {
    forall v | v != w ensures v in OpenWorkers(s, d) <==> v in OpenWorkers(s', d) {
      assert SameWorker(s, s', v);
    }
    assert OpenWorkers(s, d) - {w} == OpenWorkers(s', d) - {w};
    CountsFollow(OpenWorkers(s, d), OpenWorkers(s', d), w);
  }

  lemma SpentFollows(s: State, s': State, w: WorkerId, d: DeliveryId)
    requires OnlyWorker(s, s', w)
    ensures |SpentWorkers(s', d)| + One(SpentAt(s, d, w)) == |SpentWorkers(s, d)| + One(SpentAt(s', d, w))
  {
    forall v | v != w ensures v in SpentWorkers(s, d) <==> v in SpentWorkers(s', d) {
      assert SameWorker(s, s', v);
    }
    assert SpentWorkers(s, d) - {w} == SpentWorkers(s', d) - {w};
    CountsFollow(SpentWorkers(s, d), SpentWorkers(s', d), w);
  }

  /** What one worker's own step has to show for the account to survive. */
  lemma WorkerStepKeeps(s: State, s': State, w: WorkerId, d: DeliveryId)
    requires Accounted(s, d) && OnlyWorker(s, s', w)
    requires d in s'.rows <==> d in s.rows
    requires s.mails[d] <= s'.mails[d]
    requires
      s'.mails[d] + One(OpenAt(s', d, w)) + One(Claimable(s', d)) + s.requeues[d] + s.faults[d]
      <= s.mails[d] + One(OpenAt(s, d, w)) + One(Claimable(s, d)) + s'.requeues[d] + s'.faults[d]
    requires One(SpentAt(s', d, w)) + s.mails[d] <= One(SpentAt(s, d, w)) + s'.mails[d]
    requires d in s'.rows && s'.rows[d].status == Delivered
             ==> s.rows[d].status == Delivered || SpentAt(s, d, w)
    ensures Accounted(s', d)
  {
    OpenFollows(s, s', w, d);
    SpentFollows(s, s', w, d);
    if SpentAt(s, d, w) {
      CountWithout(SpentWorkers(s, d), SpentWorkers(s, d) - {w}, w);
    }
  }

  // -- Every step keeps the account --------------------------------------------------------

  lemma LoadKeeps(s: State, w: WorkerId, e: DeliveryId, now: Millis, d: DeliveryId)
    requires Accounted(s, d)
    ensures Accounted(DoLoad(s, w, e, now), d)
  {
    WorkerStepKeeps(s, DoLoad(s, w, e, now), w, d);
  }

  lemma ClaimKeeps(s: State, w: WorkerId, d: DeliveryId)
    requires Accounted(s, d)
    ensures Accounted(DoClaim(s, w), d)
  {
    WorkerStepKeeps(s, DoClaim(s, w), w, d);
  }

  lemma RecordKeeps(s: State, w: WorkerId, a: AttemptId, d: DeliveryId)
    requires Accounted(s, d)
    ensures Accounted(DoRecordAttempt(s, w, a), d)
  {
    WorkerStepKeeps(s, DoRecordAttempt(s, w, a), w, d);
  }

  lemma PrepareFailsKeeps(s: State, w: WorkerId, thrown: Thrown, d: DeliveryId)
    requires Accounted(s, d)
    ensures Accounted(DoPrepareFails(s, w, thrown), d)
  {
    WorkerStepKeeps(s, DoPrepareFails(s, w, thrown), w, d);
  }

  lemma SendKeeps(s: State, w: WorkerId, accepted: bool, outcome: Outcome, code: Option<string>, d: DeliveryId)
    requires Accounted(s, d)
    ensures Accounted(DoSend(s, w, accepted, outcome, code), d)
  {
    WorkerStepKeeps(s, DoSend(s, w, accepted, outcome, code), w, d);
  }

  lemma WriteDeliveredKeeps(s: State, w: WorkerId, now: Millis, d: DeliveryId)
    requires Accounted(s, d)
    ensures Accounted(DoWriteDelivered(s, w, now), d)
  {
    WorkerStepKeeps(s, DoWriteDelivered(s, w, now), w, d);
  }

  lemma WriteFailureKeeps(s: State, w: WorkerId, now: Millis, jitter: Jitter, d: DeliveryId)
    requires Accounted(s, d)
    ensures Accounted(DoWriteFailure(s, w, now, jitter), d)
  {
    WorkerStepKeeps(s, DoWriteFailure(s, w, now, jitter), w, d);
  }

  lemma CloseKeeps(s: State, w: WorkerId, d: DeliveryId)
    requires Accounted(s, d)
    ensures Accounted(DoCloseAttempt(s, w), d)
  {
    WorkerStepKeeps(s, DoCloseAttempt(s, w), w, d);
  }

  lemma FaultKeeps(s: State, w: WorkerId, a: AttemptId, accepted: bool, d: DeliveryId)
    requires Accounted(s, d) && At(s, w)
    requires s.workers[w].phase.Sent? || s.workers[w].phase.Failing? || s.workers[w].phase.Closing?
    ensures Accounted(Faulted(s, w, a, accepted), d)
  {
    WorkerStepKeeps(s, Faulted(s, w, a, accepted), w, d);
  }

  lemma CrashKeeps(s: State, w: WorkerId, d: DeliveryId)
    requires Accounted(s, d)
    ensures Accounted(DoCrash(s, w), d)
  {
    WorkerStepKeeps(s, DoCrash(s, w), w, d);
  }

  lemma ThrowKeeps(s: State, w: WorkerId, d: DeliveryId)
    requires Accounted(s, d)
    ensures Accounted(DoThrow(s, w), d)
  {
    if At(s, w) {
      CrashKeeps(s, w, d);
      match s.workers[w].phase
      case Sent(a) => FaultKeeps(s, w, a, true, d);
      case Failing(a, accepted, _, _) => FaultKeeps(s, w, a, accepted, d);
      case Closing(a, accepted, _, _) => FaultKeeps(s, w, a, accepted, d);
      case _ =>
    }
  }

  /** Steps that touch no worker. */
  lemma RowStepKeeps(s: State, s': State, d: DeliveryId)
    requires Accounted(s, d)
    requires s'.workers == s.workers && s'.mails == s.mails && s'.faults == s.faults
    requires d in s.rows ==> d in s'.rows
    requires One(Claimable(s', d)) + Allowance(s, d) <= One(Claimable(s, d)) + Allowance(s', d)
    requires d in s'.rows && s'.rows[d].status == Delivered ==> d in s.rows && s.rows[d].status == Delivered
    ensures Accounted(s', d)
  {
    assert OpenWorkers(s', d) == OpenWorkers(s, d);
    assert SpentWorkers(s', d) == SpentWorkers(s, d);
    assert InFlightWorkers(s', d) == InFlightWorkers(s, d);
  }

  lemma CreateKeeps(s: State, e: DeliveryId, row: Row, d: DeliveryId)
    requires Accounted(s, d) && row.status != Delivered
    ensures Accounted(DoCreate(s, e, row), d)
  {
    RowStepKeeps(s, DoCreate(s, e, row), d);
  }

  lemma QuarantineKeeps(s: State, scopeStart: Millis, staleBefore: Millis, d: DeliveryId)
    requires Accounted(s, d)
    ensures Accounted(DoQuarantine(s, scopeStart, staleBefore), d)
  {
    RowStepKeeps(s, DoQuarantine(s, scopeStart, staleBefore), d);
  }

  lemma RequeueDueKeeps(s: State, scopeStart: Millis, now: Millis, d: DeliveryId)
    requires Accounted(s, d)
    ensures Accounted(DoRequeueDue(s, scopeStart, now), d)
  {
    RowStepKeeps(s, DoRequeueDue(s, scopeStart, now), d);
  }

  lemma RequestReadKeeps(s: State, r: RequestId, kind: RequeueKind, e: DeliveryId, at: Millis, cooldown: nat,
      d: DeliveryId)
    requires Accounted(s, d)
    ensures Accounted(DoRequestRead(s, r, kind, e, at, cooldown), d)
  {
    RowStepKeeps(s, DoRequestRead(s, r, kind, e, at, cooldown), d);
  }

  lemma RequestWriteKeeps(s: State, r: RequestId, now: Millis, jitter: Jitter, d: DeliveryId)
    requires Accounted(s, d)
    ensures Accounted(DoRequestWrite(s, r, now, jitter), d)
  {
    RowStepKeeps(s, DoRequestWrite(s, r, now, jitter), d);
  }

  lemma StepKeepsAccount(s: State, step: Step, d: DeliveryId)
    requires Accounted(s, d)
    ensures Accounted(Apply(s, step), d)
  {
    match step
    case Load(w, e, now) => LoadKeeps(s, w, e, now, d);
    case Claim(w) => ClaimKeeps(s, w, d);
    case RecordAttempt(w, a) => RecordKeeps(s, w, a, d);
    case PrepareFails(w, thrown) => PrepareFailsKeeps(s, w, thrown, d);
    case Send(w, accepted, outcome, code) => SendKeeps(s, w, accepted, outcome, code, d);
    case WriteDelivered(w, now) => WriteDeliveredKeeps(s, w, now, d);
    case WriteFailure(w, now, jitter) => WriteFailureKeeps(s, w, now, jitter, d);
    case CloseAttempt(w) => CloseKeeps(s, w, d);
    case Throw(w) => ThrowKeeps(s, w, d);
    case Crash(w) => CrashKeeps(s, w, d);
    case CreateQueued(e, now) => CreateKeeps(s, e, Row(Queued, 0, now, None, None, None), d);
    case CreatePdfFailure(e, c, now, jitter) =>
      if PdfPrerequisiteClass(c) {
        CreateKeeps(s, e, PdfFailureRow(c, now, jitter), d);
      }
    case QuarantineStale(scopeStart, staleBefore) => QuarantineKeeps(s, scopeStart, staleBefore, d);
    case RequeueDue(scopeStart, now) => RequeueDueKeeps(s, scopeStart, now, d);
    case RequestRead(r, kind, e, at, cooldown) => RequestReadKeeps(s, r, kind, e, at, cooldown, d);
    case RequestWrite(r, now, jitter) => RequestWriteKeeps(s, r, now, jitter, d);
  }

  lemma {:induction false} RunKeepsAccount(s: State, steps: seq<Step>, d: DeliveryId)
    requires Accounted(s, d)
    ensures Accounted(Run(s, steps), d)
    decreases |steps|
  {
    if steps == [] {
    } else {
      StepKeepsAccount(s, steps[0], d);
      RunKeepsAccount(Apply(s, steps[0]), steps[1..], d);
    }
  }

  // -- Safety over whole runs --------------------------------------------------------------

  /**
   Whatever workers, crashes, duplicated messages, recovery scans, operator re-queues and late
   exceptions do, SMTP accepts at most one mail, plus one for each re-queue and each late exception.
   */
  lemma MailsNeverExceedAllowance(steps: seq<Step>, d: DeliveryId)
    ensures var s := Run(Init(), steps); s.mails[d] <= 1 + s.requeues[d] + s.faults[d]
  {
    assert OpenWorkers(Init(), d) == {} && SpentWorkers(Init(), d) == {};
    RunKeepsAccount(Init(), steps, d);
  }

  /** Without re-queues and late exceptions: one mail, one worker, and no worker behind a claimable row. */
  lemma UndisturbedDelivery(steps: seq<Step>, d: DeliveryId)
    requires Run(Init(), steps).requeues[d] == 0 && Run(Init(), steps).faults[d] == 0
    ensures
      var s := Run(Init(), steps);
      && s.mails[d] <= 1
      && |InFlightWorkers(s, d)| <= 1
      && (Claimable(s, d) ==> InFlightWorkers(s, d) == {} && s.mails[d] == 0)
      && (d in s.rows && s.rows[d].status == Delivered ==> s.mails[d] == 1 && OpenWorkers(s, d) == {})
  {
    var s := Run(Init(), steps);
    assert OpenWorkers(Init(), d) == {} && SpentWorkers(Init(), d) == {};
    RunKeepsAccount(Init(), steps, d);
    assert InFlightWorkers(s, d) == OpenWorkers(s, d) + SpentWorkers(s, d);
  }

  /** The step writes a re-queue of this delivery. */
  predicate WritesRequeue(s: State, step: Step, d: DeliveryId) {
    step.RequestWrite? && step.r in s.requests && s.requests[step.r].delivery == d
  }

  lemma RequeueLeavesDelivered(s: State, r: RequestId, now: Millis, jitter: Jitter, d: DeliveryId)
    requires d in s.rows && s.rows[d].status == Delivered && r in s.requests && s.requests[r].delivery == d
    ensures
      var s' := DoRequestWrite(s, r, now, jitter);
      d in s'.rows && s'.rows[d].status != Delivered && s'.requeues == s.requeues + multiset{d}
  {}

  lemma OthersLeaveDelivered(s: State, step: Step, d: DeliveryId)
    requires d in s.rows && s.rows[d].status == Delivered && !WritesRequeue(s, step, d)
    ensures d in Apply(s, step).rows && Apply(s, step).rows[d] == s.rows[d]
  {
    if step.RequestWrite? && step.r in s.requests {
      assert s.requests[step.r].delivery != d;
    }
  }

  /**
   A delivered row is left exactly by the write of a re-queue of it, and by each such write: none
   stops at a row that was delivered since its read.
   */
  lemma DeliveredIsLeftByRequeue(s: State, step: Step, d: DeliveryId)
    requires d in s.rows && s.rows[d].status == Delivered
    ensures
      var s' := Apply(s, step);
      && d in s'.rows
      && (s'.rows[d].status != Delivered <==> WritesRequeue(s, step, d))
      && (s'.rows[d] != s.rows[d] <==> WritesRequeue(s, step, d))
      && (WritesRequeue(s, step, d) ==> s'.requeues == s.requeues + multiset{d})
  {
    if WritesRequeue(s, step, d) {
      RequeueLeavesDelivered(s, step.r, step.now, step.jitter, d);
    } else {
      OthersLeaveDelivered(s, step, d);
    }
  }

  /** The row it leaves can be claimed again, unless a missing PDF turns out to be beyond a retry. */
  lemma RequeueReopensDelivered(s: State, step: Step, d: DeliveryId)
    requires d in s.rows && s.rows[d].status == Delivered && WritesRequeue(s, step, d)
    ensures
      var request := s.requests[step.r];
      Claimable(Apply(s, step), d) <==>
        (request.kind.PdfPrerequisite? ==>
           ClaimableStatus(Classify(request.kind.errorClass, request.attemptCount, MAX_DELIVERY_RETRIES,
                                    step.jitter).nextStatus))
  {}

  lemma {:induction false} RequeuesOnlyGrow(s: State, steps: seq<Step>, d: DeliveryId)
    ensures s.requeues[d] <= Run(s, steps).requeues[d]
    decreases |steps|
  {
    if steps == [] {
    } else {
      RequeuesOnlyGrow(Apply(s, steps[0]), steps[1..], d);
    }
  }

  /** Between two re-queues a delivered row is immutable, whatever stale workers still write. */
  lemma {:induction false} DeliveredIsFinal(s: State, steps: seq<Step>, d: DeliveryId)
    requires d in s.rows && s.rows[d].status == Delivered
    requires Run(s, steps).requeues[d] == s.requeues[d]
    ensures d in Run(s, steps).rows && Run(s, steps).rows[d] == s.rows[d]
    decreases |steps|
  {
    if steps == [] {
    } else {
      DeliveredIsLeftByRequeue(s, steps[0], d);
      RequeuesOnlyGrow(Apply(s, steps[0]), steps[1..], d);
      RequeuesOnlyGrow(s, [steps[0]], d);
      assert [steps[0]][1..] == [];
      DeliveredIsFinal(Apply(s, steps[0]), steps[1..], d);
    }
  }
}
