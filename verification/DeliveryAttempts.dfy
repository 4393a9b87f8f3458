/**
 How often a delivery is claimed: for every price of a late exception a bound over all runs, and for
 all numbers of re-queues, stale claims and late exceptions a run that attains one of the bounds.
 */
module DeliveryAttempts {
  import opened Common
  import opened RetryClassifier
  import opened DeliveryModel
  import opened DeliverySafety

  // -- What a count is worth ---------------------------------------------------------------

  /** What a late exception costs, and what the retry of a worker with each count can still bring. */
  datatype Tariff = Tariff(price: nat, retries: seq<nat>)

  function Retried(t: Tariff, attemptCount: nat): nat {
    if attemptCount < |t.retries| then t.retries[attemptCount] else 0
  }

  /** What a late exception adds beyond its price: the row goes back to the worker's count. */
  function Excess(price: nat, retried: nat): nat {
    if retried > price then retried - price else 0
  }

  /** What a claim leaves to come. */
  function Gain(t: Tariff, attemptCount: nat): nat {
    Retried(t, attemptCount) + Excess(t.price, Retried(t, attemptCount))
  }

  /** What a claim leaves to come that n retries can follow. */
  function Left(price: nat, n: nat): nat {
    if n == 0 then 0 else 1 + Left(price, n - 1) + Excess(price, 1 + Left(price, n - 1))
  }

  function TariffOf(price: nat): Tariff {
    Tariff(price, seq(MAX_DELIVERY_RETRIES, i requires 0 <= i < MAX_DELIVERY_RETRIES =>
      1 + Left(price, MAX_DELIVERY_RETRIES - 1 - i)))
  }

  lemma GainIsLeft(price: nat, attemptCount: nat)
    ensures Gain(TariffOf(price), attemptCount) ==
              if attemptCount < MAX_DELIVERY_RETRIES then Left(price, MAX_DELIVERY_RETRIES - attemptCount) else 0
  {}

  /** A retry is a claim at the next count; the limit allows none. */
  predicate FairAt(t: Tariff, attemptCount: nat) {
    && (attemptCount < MAX_DELIVERY_RETRIES ==> Retried(t, attemptCount) == 1 + Gain(t, attemptCount + 1))
    && (attemptCount >= MAX_DELIVERY_RETRIES ==> Retried(t, attemptCount) == 0)
  }

  lemma TariffIsFair(price: nat, attemptCount: nat)
    ensures FairAt(TariffOf(price), attemptCount)
  {
    if attemptCount < MAX_DELIVERY_RETRIES {
      assert Retried(TariffOf(price), attemptCount) == 1 + Left(price, MAX_DELIVERY_RETRIES - 1 - attemptCount);
      GainIsLeft(price, attemptCount + 1);
    }
  }

  lemma {:induction false} LeftGrows(price: nat, n: nat, more: nat)
    requires n <= more
    ensures Left(price, n) <= Left(price, more)
    decreases more
  {
    if n == more {
    } else {
      LeftGrows(price, n, more - 1);
    }
  }

  lemma GainFalls(price: nat, attemptCount: nat)
    ensures Gain(TariffOf(price), attemptCount) <= Gain(TariffOf(price), 0)
  {
    GainIsLeft(price, 0);
    GainIsLeft(price, attemptCount);
    if attemptCount < MAX_DELIVERY_RETRIES {
      LeftGrows(price, MAX_DELIVERY_RETRIES - attemptCount, MAX_DELIVERY_RETRIES);
    }
  }

  function WorkerWorth(t: Tariff, worker: Worker): nat {
    var retried := Retried(t, worker.attemptCount);
    var again := Excess(t.price, retried);
    match worker.phase
    case Loaded => 0
    case Claimed | Preparing(_) => retried + again
    case Sent(_) => again
    case Failing(_, _, _, caught) => (if Settled(worker.phase) then 0 else retried) + (if caught then 0 else again)
    case Closing(_, _, _, caught) => if caught then 0 else again
  }

  function WorthAt(t: Tariff, s: State, d: DeliveryId, w: WorkerId): nat {
    if w in s.workers && s.workers[w].delivery == d then WorkerWorth(t, s.workers[w]) else 0
  }

  /** What the workers can still bring, one pair for each claim. */
  ghost function Tokens(t: Tariff, s: State, d: DeliveryId): set<(WorkerId, nat)> {
    set w, i | w in s.workers && 0 <= i < WorthAt(t, s, d, w) :: (w, i)
  }

  function RowWorth(t: Tariff, s: State, d: DeliveryId): nat {
    if Claimable(s, d) then 1 + Gain(t, s.rows[d].attemptCount) else 0
  }

  /** The claims that can still come without a further re-queue or stale claim, late exceptions paid. */
  ghost function Remaining(t: Tariff, s: State, d: DeliveryId): nat {
    |Tokens(t, s, d)| + RowWorth(t, s, d)
  }

  /**
   What a step may add: a creation or re-queue is worth a claim at count zero, a stale claim what that
   leaves to come, and a late exception its price.
   */
  function Income(t: Tariff, s: State, s': State, d: DeliveryId): nat {
    (if s'.requeues[d] != s.requeues[d] || (d in s.rows) != (d in s'.rows) then 1 + Gain(t, 0) else 0)
    + (if s'.staleClaims[d] != s.staleClaims[d] then Gain(t, 0) else 0)
    + (if s'.faults[d] != s.faults[d] then t.price else 0)
  }

  ghost predicate Spends(t: Tariff, s: State, s': State, d: DeliveryId) {
    s'.claims[d] + Remaining(t, s', d) <= s.claims[d] + Remaining(t, s, d) + Income(t, s, s', d)
  }

  // -- Counting ----------------------------------------------------------------------------

  function Own(w: WorkerId, n: nat): set<(WorkerId, nat)> {
    set i | 0 <= i < n :: (w, i)
  }

  lemma {:induction false} OwnCount(w: WorkerId, n: nat)
    ensures |Own(w, n)| == n
  {
    if n == 0 {
      assert Own(w, 0) == {};
    } else {
      OwnCount(w, n - 1);
      assert Own(w, n) == Own(w, n - 1) + {(w, n - 1)};
    }
  }

  ghost function OthersTokens(t: Tariff, s: State, d: DeliveryId, w: WorkerId): set<(WorkerId, nat)> {
    set token | token in Tokens(t, s, d) && token.0 != w
  }

  lemma TokensCount(t: Tariff, s: State, d: DeliveryId, w: WorkerId)
    ensures |Tokens(t, s, d)| == |OthersTokens(t, s, d, w)| + WorthAt(t, s, d, w)
  {
    OwnCount(w, WorthAt(t, s, d, w));
    assert Tokens(t, s, d) == OthersTokens(t, s, d, w) + Own(w, WorthAt(t, s, d, w));
  }

  lemma TokensFollow(t: Tariff, s: State, s': State, w: WorkerId, d: DeliveryId)
    requires OnlyWorker(s, s', w)
    ensures |Tokens(t, s', d)| + WorthAt(t, s, d, w) == |Tokens(t, s, d)| + WorthAt(t, s', d, w)
  {
    TokensCount(t, s, d, w);
    TokensCount(t, s', d, w);
    forall token: (WorkerId, nat)
      ensures token in OthersTokens(t, s', d, w) <==> token in OthersTokens(t, s, d, w)
    {
      if token.0 != w {
        assert SameWorker(s, s', token.0);
      }
    }
    assert OthersTokens(t, s', d, w) == OthersTokens(t, s, d, w);
  }

  // -- Every step spends -------------------------------------------------------------------

  lemma WorkerSpends(t: Tariff, s: State, s': State, w: WorkerId, d: DeliveryId)
    requires OnlyWorker(s, s', w)
    requires s'.claims[d] + WorthAt(t, s', d, w) + RowWorth(t, s', d)
             <= s.claims[d] + WorthAt(t, s, d, w) + RowWorth(t, s, d) + Income(t, s, s', d)
    ensures Spends(t, s, s', d)
  {
    TokensFollow(t, s, s', w, d);
  }

  lemma RowSpends(t: Tariff, s: State, s': State, d: DeliveryId)
    requires s'.workers == s.workers && s'.claims == s.claims
    requires RowWorth(t, s', d) <= RowWorth(t, s, d) + Income(t, s, s', d)
    ensures Spends(t, s, s', d)
  {
    assert Tokens(t, s', d) == Tokens(t, s, d);
  }

  /** A stale claim trades the row's count for the worker's. */
  lemma ClaimSpends(t: Tariff, s: State, w: WorkerId, d: DeliveryId)
    requires At(s, w) ==> Gain(t, s.workers[w].attemptCount) <= Gain(t, 0)
    ensures Spends(t, s, DoClaim(s, w), d)
  {
    WorkerSpends(t, s, DoClaim(s, w), w, d);
  }

  /** A class that puts the row back to work does so below the limit, and after no accepted mail. */
  lemma RetryLeavesFewer(errorClass: WorkerErrorClass, attemptCount: nat, jitter: Jitter)
    ensures
      ClaimableStatus(Classify(errorClass, attemptCount, MAX_DELIVERY_RETRIES, jitter).nextStatus) ==>
        attemptCount < MAX_DELIVERY_RETRIES && errorClass != UnknownExternalOutcome
  {}

  lemma WriteFailureSpends(t: Tariff, s: State, w: WorkerId, now: Millis, jitter: Jitter, d: DeliveryId)
    requires At(s, w) ==> FairAt(t, s.workers[w].attemptCount)
    ensures Spends(t, s, DoWriteFailure(s, w, now, jitter), d)
  {
    if At(s, w) && s.workers[w].phase.Failing? {
      RetryLeavesFewer(s.workers[w].phase.errorClass, s.workers[w].attemptCount, jitter);
    }
    WorkerSpends(t, s, DoWriteFailure(s, w, now, jitter), w, d);
  }

  lemma FaultSpends(t: Tariff, s: State, w: WorkerId, a: AttemptId, accepted: bool, d: DeliveryId)
    requires At(s, w)
    requires
      match s.workers[w].phase
      case Sent(_) => true
      case Failing(_, _, _, caught) => !caught
      case Closing(_, _, _, caught) => !caught
      case _ => false
    ensures Spends(t, s, Faulted(s, w, a, accepted), d)
  {
    WorkerSpends(t, s, Faulted(s, w, a, accepted), w, d);
  }

  lemma CrashSpends(t: Tariff, s: State, w: WorkerId, d: DeliveryId)
    ensures Spends(t, s, DoCrash(s, w), d)
  {
    WorkerSpends(t, s, DoCrash(s, w), w, d);
  }

  lemma ThrowSpends(t: Tariff, s: State, w: WorkerId, d: DeliveryId)
    ensures Spends(t, s, DoThrow(s, w), d)
  {
    if At(s, w) {
      match s.workers[w].phase
      case Sent(a) => FaultSpends(t, s, w, a, true, d);
      case Failing(a, accepted, _, caught) =>
        if caught { CrashSpends(t, s, w, d); } else { FaultSpends(t, s, w, a, accepted, d); }
      case Closing(a, accepted, _, caught) =>
        if caught { CrashSpends(t, s, w, d); } else { FaultSpends(t, s, w, a, accepted, d); }
      case _ =>
    }
  }

  lemma SendSpends(t: Tariff, s: State, w: WorkerId, accepted: bool, outcome: Outcome, code: Option<string>,
                   d: DeliveryId)
    ensures Spends(t, s, DoSend(s, w, accepted, outcome, code), d)
  {
    WorkerSpends(t, s, DoSend(s, w, accepted, outcome, code), w, d);
  }

  lemma WriteDeliveredSpends(t: Tariff, s: State, w: WorkerId, now: Millis, d: DeliveryId)
    ensures Spends(t, s, DoWriteDelivered(s, w, now), d)
  {
    WorkerSpends(t, s, DoWriteDelivered(s, w, now), w, d);
  }

  /** Steps of a worker that claim nothing and write no row. */
  lemma QuietSpends(t: Tariff, s: State, step: Step, d: DeliveryId)
    requires step.Load? || step.RecordAttempt? || step.PrepareFails? || step.CloseAttempt?
    ensures Spends(t, s, Apply(s, step), d)
  {
    WorkerSpends(t, s, Apply(s, step), step.w, d);
  }

  lemma CreationSpends(t: Tariff, s: State, step: Step, d: DeliveryId)
    requires step.CreateQueued? || step.CreatePdfFailure?
    requires d in Apply(s, step).rows ==> Gain(t, Apply(s, step).rows[d].attemptCount) <= Gain(t, 0)
    ensures Spends(t, s, Apply(s, step), d)
  {
    RowSpends(t, s, Apply(s, step), d);
  }

  lemma RequeueSpends(t: Tariff, s: State, r: RequestId, now: Millis, jitter: Jitter, d: DeliveryId)
    requires
      var s' := DoRequestWrite(s, r, now, jitter);
      d in s'.rows ==> Gain(t, s'.rows[d].attemptCount) <= Gain(t, 0)
    ensures Spends(t, s, DoRequestWrite(s, r, now, jitter), d)
  {
    RowSpends(t, s, DoRequestWrite(s, r, now, jitter), d);
  }

  lemma ScanSpends(t: Tariff, s: State, step: Step, d: DeliveryId)
    requires step.QuarantineStale? || step.RequeueDue? || step.RequestRead?
    ensures Spends(t, s, Apply(s, step), d)
  {
    RowSpends(t, s, Apply(s, step), d);
  }

  /** Whatever counts a step meets, the tariff is fair there. */
  lemma StepMeetsFairCounts(price: nat, s: State, step: Step, d: DeliveryId)
    ensures d in Apply(s, step).rows ==>
              Gain(TariffOf(price), Apply(s, step).rows[d].attemptCount) <= Gain(TariffOf(price), 0)
    ensures forall w :: w in s.workers ==>
              && FairAt(TariffOf(price), s.workers[w].attemptCount)
              && Gain(TariffOf(price), s.workers[w].attemptCount) <= Gain(TariffOf(price), 0)
  {
    if d in Apply(s, step).rows {
      GainFalls(price, Apply(s, step).rows[d].attemptCount);
    }
    forall w | w in s.workers
      ensures FairAt(TariffOf(price), s.workers[w].attemptCount)
      ensures Gain(TariffOf(price), s.workers[w].attemptCount) <= Gain(TariffOf(price), 0)
    {
      TariffIsFair(price, s.workers[w].attemptCount);
      GainFalls(price, s.workers[w].attemptCount);
    }
  }

  /**
   No step raises what is claimed and can still be claimed by more than it adds to the budget; so a
   claim uses up remaining ones, and nothing but a creation, a re-queue, a stale claim or a late
   exception gives new ones.
   */
  lemma StepSpends(price: nat, s: State, step: Step, d: DeliveryId)
    ensures Spends(TariffOf(price), s, Apply(s, step), d)
  {
    StepMeetsFairCounts(price, s, step, d);
    var t := TariffOf(price);
    match step
    case CreateQueued(_, _) => CreationSpends(t, s, step, d);
    case CreatePdfFailure(_, _, _, _) => CreationSpends(t, s, step, d);
    case Claim(w) => ClaimSpends(t, s, w, d);
    case WriteFailure(w, now, jitter) => WriteFailureSpends(t, s, w, now, jitter, d);
    case WriteDelivered(w, now) => WriteDeliveredSpends(t, s, w, now, d);
    case Throw(w) => ThrowSpends(t, s, w, d);
    case Send(w, accepted, outcome, code) => SendSpends(t, s, w, accepted, outcome, code, d);
    case Crash(w) => CrashSpends(t, s, w, d);
    case RequestWrite(r, now, jitter) => RequeueSpends(t, s, r, now, jitter, d);
    case QuarantineStale(_, _) => ScanSpends(t, s, step, d);
    case RequeueDue(_, _) => ScanSpends(t, s, step, d);
    case RequestRead(_, _, _, _, _) => ScanSpends(t, s, step, d);
    case _ => QuietSpends(t, s, step, d);
  }

  // -- The bounds --------------------------------------------------------------------------

  /** The claims that n creations and re-queues, m stale claims and k late exceptions allow. */
  function Budget(t: Tariff, n: nat, m: nat, k: nat): nat {
    n * (1 + Gain(t, 0)) + m * Gain(t, 0) + k * t.price
  }

  function Allowed(t: Tariff, s: State, d: DeliveryId): nat {
    Budget(t, One(d in s.rows) + s.requeues[d], s.staleClaims[d], s.faults[d])
  }

  lemma OneMore(n: nat, each: nat)
    ensures (n + 1) * each == n * each + each
  {}

  lemma BudgetGrows(t: Tariff, n: nat, m: nat, k: nat, dn: nat, dm: nat, dk: nat)
    requires dn <= 1 && dm <= 1 && dk <= 1
    ensures Budget(t, n + dn, m + dm, k + dk)
         == Budget(t, n, m, k) + (if dn == 1 then 1 + Gain(t, 0) else 0) + (if dm == 1 then Gain(t, 0) else 0)
            + (if dk == 1 then t.price else 0)
  {
    OneMore(n, 1 + Gain(t, 0));
    OneMore(m, Gain(t, 0));
    OneMore(k, t.price);
  }

  /** At most one event of each kind. */
  predicate OneEvent(s: State, s': State, d: DeliveryId) {
    && (d in s.rows ==> d in s'.rows)
    && s.requeues[d] <= s'.requeues[d]
    && s'.requeues[d] + One(d in s'.rows) <= s.requeues[d] + One(d in s.rows) + 1
    && s.staleClaims[d] <= s'.staleClaims[d] <= s.staleClaims[d] + 1
    && s.faults[d] <= s'.faults[d] <= s.faults[d] + 1
  }

  lemma ClaimHasOneEvent(s: State, w: WorkerId, d: DeliveryId)
    ensures OneEvent(s, DoClaim(s, w), d)
  {}

  lemma ThrowHasOneEvent(s: State, w: WorkerId, d: DeliveryId)
    ensures OneEvent(s, DoThrow(s, w), d)
  {}

  lemma StepHasOneEvent(s: State, step: Step, d: DeliveryId)
    ensures OneEvent(s, Apply(s, step), d)
  {
    if step.Claim? {
      ClaimHasOneEvent(s, step.w, d);
    } else if step.Throw? {
      ThrowHasOneEvent(s, step.w, d);
    }
  }

  lemma IncomeIsAllowed(t: Tariff, s: State, s': State, d: DeliveryId)
    requires OneEvent(s, s', d)
    ensures Income(t, s, s', d) + Allowed(t, s, d) == Allowed(t, s', d)
  {
    var n, m, k := One(d in s.rows) + s.requeues[d], s.staleClaims[d], s.faults[d];
    var dn, dm, dk := One(d in s'.rows) + s'.requeues[d] - n, s'.staleClaims[d] - m, s'.faults[d] - k;
    BudgetGrows(t, n, m, k, dn, dm, dk);
  }

  lemma {:induction false} RunSpends(price: nat, s: State, steps: seq<Step>, d: DeliveryId)
    ensures
      var s', t := Run(s, steps), TariffOf(price);
      s'.claims[d] + Remaining(t, s', d) + Allowed(t, s, d) <= s.claims[d] + Remaining(t, s, d) + Allowed(t, s', d)
    decreases |steps|
  {
    if steps == [] {
    } else {
      StepSpends(price, s, steps[0], d);
      StepHasOneEvent(s, steps[0], d);
      IncomeIsAllowed(TariffOf(price), s, Apply(s, steps[0]), d);
      RunSpends(price, Apply(s, steps[0]), steps[1..], d);
    }
  }

  lemma AllowedWithRow(t: Tariff, s: State, d: DeliveryId)
    ensures Allowed(t, s, d) <= Budget(t, 1 + s.requeues[d], s.staleClaims[d], s.faults[d])
  {
    BudgetGrows(t, s.requeues[d], s.staleClaims[d], s.faults[d], 1, 0, 0);
  }

  lemma NothingRemains(t: Tariff, d: DeliveryId)
    ensures Remaining(t, Init(), d) == 0 && Allowed(t, Init(), d) == 0
  {
    assert Tokens(t, Init(), d) == {};
  }

  /**
   Over every run and for every price: a delivery is claimed, and can still be claimed without a
   further event, at most as often as its re-queues, stale claims and late exceptions allow.
   */
  lemma AttemptsAreBounded(price: nat, steps: seq<Step>, d: DeliveryId)
    ensures
      var s, t := Run(Init(), steps), TariffOf(price);
      s.claims[d] + Remaining(t, s, d) <= Budget(t, 1 + s.requeues[d], s.staleClaims[d], s.faults[d])
  {
    NothingRemains(TariffOf(price), d);
    RunSpends(price, Init(), steps, d);
    AllowedWithRow(TariffOf(price), Run(Init(), steps), d);
  }

  /** At a price of eight, n retries leave n claims to come; at a price of one or none, each doubles them. */
  lemma {:induction false} LeftInNumbers(n: nat)
    ensures n <= MAX_DELIVERY_RETRIES ==> Left(8, n) == n
    ensures Left(1, n) == Pow2(n) - 1
    ensures Left(0, n) == 2 * (Pow2(n) - 1)
  {
    if n == 0 {
    } else {
      LeftInNumbers(n - 1);
    }
  }

  lemma Pow2OfEight()
    ensures Pow2(8) == 256
  {
    assert Pow2(4) == 16;
  }

  lemma GainInNumbers()
    ensures Gain(TariffOf(8), 0) == 8 && Gain(TariffOf(1), 0) == 255 && Gain(TariffOf(0), 0) == 510
  {
    forall price: nat ensures Gain(TariffOf(price), 0) == Left(price, MAX_DELIVERY_RETRIES) {
      GainIsLeft(price, 0);
    }
    LeftInNumbers(MAX_DELIVERY_RETRIES);
    Pow2OfEight();
  }

  lemma BudgetWith(t: Tariff, gain: nat, n: nat, m: nat, k: nat)
    requires Gain(t, 0) == gain
    ensures Budget(t, n, m, k) == n * (1 + gain) + m * gain + k * t.price
  {}

  /**
   Nine attempts for the creation and for each re-queue, and eight for each stale claim and each late
   exception; and, whatever the number of late exceptions, 511 and 510 for the others alone.
   */
  lemma AttemptsInNumbers(steps: seq<Step>, d: DeliveryId)
    ensures
      var s := Run(Init(), steps);
      && s.claims[d] <= 9 * (1 + s.requeues[d]) + 8 * (s.staleClaims[d] + s.faults[d])
      && s.claims[d] <= 511 * (1 + s.requeues[d]) + 510 * s.staleClaims[d]
  {
    var s := Run(Init(), steps);
    AttemptsAreBounded(8, steps, d);
    AttemptsAreBounded(0, steps, d);
    GainInNumbers();
    BudgetWith(TariffOf(8), 8, 1 + s.requeues[d], s.staleClaims[d], s.faults[d]);
    BudgetWith(TariffOf(0), 510, 1 + s.requeues[d], s.staleClaims[d], s.faults[d]);
  }

  // -- Late exceptions ---------------------------------------------------------------------

  /** A worker that has claimed, and not been in its catch block. */
  predicate MayThrow(phase: Phase) {
    match phase
    case Loaded => false
    case Failing(_, _, _, caught) => !caught
    case Closing(_, _, _, caught) => !caught
    case _ => true
  }

  predicate MayThrowAt(s: State, d: DeliveryId, w: WorkerId) {
    w in s.workers && s.workers[w].delivery == d && MayThrow(s.workers[w].phase)
  }

  ghost function Throwers(s: State, d: DeliveryId): set<WorkerId> {
    set w | w in s.workers && s.workers[w].delivery == d && MayThrow(s.workers[w].phase)
  }

  lemma ThrowersFollow(s: State, s': State, w: WorkerId, d: DeliveryId)
    requires OnlyWorker(s, s', w)
    ensures |Throwers(s', d)| + One(MayThrowAt(s, d, w)) == |Throwers(s, d)| + One(MayThrowAt(s', d, w))
  {
    forall v | v != w ensures v in Throwers(s, d) <==> v in Throwers(s', d) {
      assert SameWorker(s, s', v);
    }
    assert Throwers(s, d) - {w} == Throwers(s', d) - {w};
    CountsFollow(Throwers(s, d), Throwers(s', d), w);
  }

  /** A claim makes one late exception possible. */
  ghost predicate Answers(s: State, s': State, d: DeliveryId) {
    s'.faults[d] + |Throwers(s', d)| + s.claims[d] <= s.faults[d] + |Throwers(s, d)| + s'.claims[d]
  }

  lemma WorkerAnswers(s: State, s': State, w: WorkerId, d: DeliveryId)
    requires OnlyWorker(s, s', w)
    requires s'.faults[d] + One(MayThrowAt(s', d, w)) + s.claims[d]
             <= s.faults[d] + One(MayThrowAt(s, d, w)) + s'.claims[d]
    ensures Answers(s, s', d)
  {
    ThrowersFollow(s, s', w, d);
  }

  lemma ThrowAnswers(s: State, w: WorkerId, d: DeliveryId)
    ensures Answers(s, DoThrow(s, w), d)
  {
    WorkerAnswers(s, DoThrow(s, w), w, d);
  }

  lemma ClaimAnswers(s: State, w: WorkerId, d: DeliveryId)
    ensures Answers(s, DoClaim(s, w), d)
  {
    WorkerAnswers(s, DoClaim(s, w), w, d);
  }

  lemma SendAnswers(s: State, w: WorkerId, accepted: bool, outcome: Outcome, code: Option<string>, d: DeliveryId)
    ensures Answers(s, DoSend(s, w, accepted, outcome, code), d)
  {
    WorkerAnswers(s, DoSend(s, w, accepted, outcome, code), w, d);
  }

  /** The other steps of a worker: each writes and goes on, or ends. */
  lemma QuietAnswers(s: State, step: Step, d: DeliveryId)
    requires step.Load? || step.RecordAttempt? || step.PrepareFails? || step.CloseAttempt? || step.Crash?
             || step.WriteDelivered? || step.WriteFailure?
    ensures Answers(s, Apply(s, step), d)
  {
    WorkerAnswers(s, Apply(s, step), step.w, d);
  }

  lemma RowAnswers(s: State, step: Step, d: DeliveryId)
    requires step.CreateQueued? || step.CreatePdfFailure? || step.QuarantineStale? || step.RequeueDue?
             || step.RequestRead? || step.RequestWrite?
    ensures Answers(s, Apply(s, step), d)
  {
    assert Throwers(Apply(s, step), d) == Throwers(s, d);
  }

  lemma StepAnswers(s: State, step: Step, d: DeliveryId)
    ensures Answers(s, Apply(s, step), d)
  {
    match step
    case Claim(w) => ClaimAnswers(s, w, d);
    case Throw(w) => ThrowAnswers(s, w, d);
    case Send(w, accepted, outcome, code) => SendAnswers(s, w, accepted, outcome, code, d);
    case Load(_, _, _) => QuietAnswers(s, step, d);
    case RecordAttempt(_, _) => QuietAnswers(s, step, d);
    case PrepareFails(_, _) => QuietAnswers(s, step, d);
    case CloseAttempt(_) => QuietAnswers(s, step, d);
    case Crash(_) => QuietAnswers(s, step, d);
    case WriteDelivered(_, _) => QuietAnswers(s, step, d);
    case WriteFailure(_, _, _) => QuietAnswers(s, step, d);
    case _ => RowAnswers(s, step, d);
  }

  lemma {:induction false} RunAnswers(s: State, steps: seq<Step>, d: DeliveryId)
    ensures Answers(s, Run(s, steps), d)
    decreases |steps|
  {
    if steps == [] {
    } else {
      StepAnswers(s, steps[0], d);
      RunAnswers(Apply(s, steps[0]), steps[1..], d);
    }
  }

  /** Over every run, each claim leads to one late exception at most. */
  lemma LateExceptionsAreClaims(steps: seq<Step>, d: DeliveryId)
    ensures
      var s := Run(Init(), steps);
      s.faults[d] + |Throwers(s, d)| <= s.claims[d]
  {
    assert Throwers(Init(), d) == {};
    RunAnswers(Init(), steps, d);
  }
}
