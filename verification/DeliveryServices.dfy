/**
 The worker and the recovery scan in the form of the code: methods over the tables, awaiting one
 database statement after the other. Each is shown to be a path of the transition system.
 */
module DeliveryServices {
  import opened Common
  import opened RetryClassifier
  import opened DeliveryModel

  /** The worker a step belongs to. */
  function Actor(step: Step): Option<WorkerId> {
    match step
    case Load(w, _, _) => Some(w)
    case Claim(w) => Some(w)
    case RecordAttempt(w, _) => Some(w)
    case PrepareFails(w, _) => Some(w)
    case Send(w, _, _, _) => Some(w)
    case WriteDelivered(w, _) => Some(w)
    case WriteFailure(w, _, _) => Some(w)
    case CloseAttempt(w) => Some(w)
    case Throw(w) => Some(w)
    case Crash(w) => Some(w)
    case _ => None
  }

  predicate Foreign(steps: seq<Step>, w: WorkerId) {
    forall i :: 0 <= i < |steps| ==> Actor(steps[i]) != Some(w)
  }

  predicate HasAttempt(phase: Phase) {
    !phase.Loaded? && !phase.Claimed?
  }

  ghost predicate Holds(s: State, w: WorkerId, worker: Worker) {
    && w in s.workers && s.workers[w] == worker && worker.delivery in s.rows
    && (HasAttempt(worker.phase) ==> worker.phase.attempt in s.attempts)
  }

  /** Attempt identifiers are random and used by one worker only. */
  predicate SparesAttempt(steps: seq<Step>, a: AttemptId) {
    forall i :: 0 <= i < |steps| ==> steps[i].RecordAttempt? ==> steps[i].a != a
  }

  lemma OtherStepKeepsWorker(s: State, step: Step, w: WorkerId, worker: Worker)
    requires Holds(s, w, worker) && Actor(step) != Some(w)
    ensures Holds(Apply(s, step), w, worker)
  {
  }

  lemma OtherStepSparesAttempt(s: State, step: Step, a: AttemptId)
    requires step.RecordAttempt? ==> step.a != a
    ensures a in Apply(s, step).attempts <==> a in s.attempts
  {
  }

  lemma {:induction false} OthersKeepWorker(s: State, steps: seq<Step>, w: WorkerId, worker: Worker)
    requires Holds(s, w, worker) && Foreign(steps, w)
    ensures Holds(Run(s, steps), w, worker)
    decreases |steps|
  {
    if steps == [] {
    } else {
      OtherStepKeepsWorker(s, steps[0], w, worker);
      OthersKeepWorker(Apply(s, steps[0]), steps[1..], w, worker);
    }
  }

  lemma {:induction false} OthersSpareAttempt(s: State, steps: seq<Step>, a: AttemptId)
    requires SparesAttempt(steps, a)
    ensures a in Run(s, steps).attempts <==> a in s.attempts
    decreases |steps|
  {
    if steps == [] {
    } else {
      OtherStepSparesAttempt(s, steps[0], a);
      OthersSpareAttempt(Apply(s, steps[0]), steps[1..], a);
    }
  }

  lemma OtherStepStartsNoWorker(s: State, step: Step, w: WorkerId)
    requires w !in s.workers && Actor(step) != Some(w)
    ensures w !in Apply(s, step).workers
  {
  }

  lemma {:induction false} OthersStartNoWorker(s: State, steps: seq<Step>, w: WorkerId)
    requires w !in s.workers && Foreign(steps, w)
    ensures w !in Run(s, steps).workers
    decreases |steps|
  {
    if steps == [] {
    } else {
      OtherStepStartsNoWorker(s, steps[0], w);
      OthersStartNoWorker(Apply(s, steps[0]), steps[1..], w);
    }
  }

  /** The later of the activation time and the oldest age allowed. */
  function ScopeStart(now: Millis, startAt: Millis, maxAgeHours: nat): (start: Millis)
    ensures startAt <= start && now - maxAgeHours * 3600000 <= start
    ensures start == startAt || start == now - maxAgeHours * 3600000
  {
    var oldestAllowed := now - maxAgeHours * 60 * 60 * 1000;
    if startAt > oldestAllowed then startAt else oldestAllowed
  }

  function StaleCount(rows: map<DeliveryId, Row>, scopeStart: Millis, staleBefore: Millis): nat {
    |set d | d in rows && IsStale(rows[d], scopeStart, staleBefore)|
  }

  function DueCount(rows: map<DeliveryId, Row>, scopeStart: Millis, now: Millis): nat {
    |set d | d in rows && IsDue(rows[d], scopeStart, now)|
  }

  function Scanned(s: State, scopeStart: Millis, staleBefore: Millis, now: Millis): State {
    DoRequeueDue(DoQuarantine(s, scopeStart, staleBefore), scopeStart, now)
  }

  /** A claim is abandoned when its last attempt began before the lease. */
  ghost predicate Abandoned(row: Row, scopeStart: Millis, staleBefore: Millis) {
    && row.status == Sending && scopeStart <= row.createdAt
    && match row.lastAttemptAt case None => false case Some(at) => at < staleBefore
  }

  ghost predicate DueForRetry(row: Row, scopeStart: Millis, now: Millis) {
    && row.status == RetryPending && scopeStart <= row.createdAt
    && match row.nextAttemptAt case None => false case Some(at) => at <= now
  }

  /** Queued and in scope: what a scan publishes. */
  ghost predicate InScope(rows: map<DeliveryId, Row>, d: DeliveryId, scopeStart: Millis) {
    d in rows && rows[d].status == Queued && scopeStart <= rows[d].createdAt
  }

  /** The row after a scan. */
  ghost function After(row: Row, scopeStart: Millis, staleBefore: Millis, now: Millis): Row {
    if Abandoned(row, scopeStart, staleBefore) then row.(status := ManualReview)
    else if DueForRetry(row, scopeStart, now) then row.(status := Queued, nextAttemptAt := None)
    else row
  }

  ghost predicate Recovered(before: map<DeliveryId, Row>, after: map<DeliveryId, Row>, scopeStart: Millis,
      staleBefore: Millis, now: Millis)
  {
    && after.Keys == before.Keys
    && forall d :: d in after ==> after[d] == After(before[d], scopeStart, staleBefore, now)
  }

  /** Everything offered is queued, in scope, and could be claimed before; nothing is skipped below the limit. */
  ghost predicate Offered(before: map<DeliveryId, Row>, after: map<DeliveryId, Row>, offered: seq<DeliveryId>,
      scopeStart: Millis, most: nat)
  {
    && (forall d :: d in offered ==>
          InScope(after, d, scopeStart) && d in before && before[d].status in {Queued, RetryPending})
    && (|offered| < most ==> forall d :: InScope(after, d, scopeStart) ==> d in offered)
  }

  /**
   A scan puts a row in manual review exactly if it was being sent since before the lease, queues it
   exactly if its retry is due, both in scope only, and touches nothing else of any row or worker.
   */
  lemma ScanDecides(s: State, scopeStart: Millis, staleBefore: Millis, now: Millis)
    ensures
      var s' := Scanned(s, scopeStart, staleBefore, now);
      && s' == s.(rows := s'.rows) && Recovered(s.rows, s'.rows, scopeStart, staleBefore, now)
      && forall d :: d in s.rows ==>
           && (s'.rows[d].status == ManualReview <==>
                 s.rows[d].status == ManualReview || Abandoned(s.rows[d], scopeStart, staleBefore))
           && (s'.rows[d].status == Queued <==>
                 s.rows[d].status == Queued || DueForRetry(s.rows[d], scopeStart, now))
  {}

  /** How many rows went from one status to another. */
  ghost function Moves(before: map<DeliveryId, Row>, after: map<DeliveryId, Row>, from: DeliveryStatus,
      to: DeliveryStatus): nat
  {
    |set d | d in before && d in after && before[d].status == from && after[d].status == to|
  }

  /** The counts of a scan are those of the rows that changed so. */
  lemma CountsAreChanges(s: State, scopeStart: Millis, staleBefore: Millis, now: Millis)
    ensures
      var s' := Scanned(s, scopeStart, staleBefore, now);
      && StaleCount(s.rows, scopeStart, staleBefore)
         == Moves(s.rows, s'.rows, Sending, ManualReview)
      && DueCount(s.rows, scopeStart, now)
         == Moves(s.rows, s'.rows, RetryPending, Queued)
  {
    var s' := Scanned(s, scopeStart, staleBefore, now);
    ScanDecides(s, scopeStart, staleBefore, now);
    assert (set d | d in s.rows && IsStale(s.rows[d], scopeStart, staleBefore))
        == (set d | d in s.rows && d in s'.rows && s.rows[d].status == Sending && s'.rows[d].status == ManualReview);
    assert (set d | d in s.rows && IsDue(s.rows[d], scopeStart, now))
        == (set d | d in s.rows && d in s'.rows && s.rows[d].status == RetryPending && s'.rows[d].status == Queued);
  }

  ghost predicate Distinct(ids: seq<DeliveryId>) {
    forall i, j :: 0 <= i < j < |ids| ==> ids[i] != ids[j]
  }

  /** The candidates whose message the queue accepts, in order. */
  function Accepted(candidates: seq<DeliveryId>, publishes: DeliveryId -> bool): seq<DeliveryId> {
    if candidates == [] then []
    else
      var n := |candidates| - 1;
      Accepted(candidates[..n], publishes) + if publishes(candidates[n]) then [candidates[n]] else []
  }

  predicate Candidate(rows: map<DeliveryId, Row>, d: DeliveryId, scopeStart: Millis) {
    d in rows && rows[d].status == Queued && rows[d].createdAt >= scopeStart
  }

  /** The candidates of a scan, in the order of the query. */
  function Eligible(rows: map<DeliveryId, Row>, order: seq<DeliveryId>, scopeStart: Millis): seq<DeliveryId> {
    if order == [] then []
    else
      var n := |order| - 1;
      Eligible(rows, order[..n], scopeStart) + if Candidate(rows, order[n], scopeStart) then [order[n]] else []
  }

  function Take(ids: seq<DeliveryId>, most: nat): seq<DeliveryId> {
    if |ids| <= most then ids else ids[..most]
  }

  lemma {:induction false} EligibleGrows(
    rows: map<DeliveryId, Row>, order: seq<DeliveryId>, i: nat, scopeStart: Millis)
    requires i <= |order|
    ensures Eligible(rows, order[..i], scopeStart) <= Eligible(rows, order, scopeStart)
    decreases |order|
  {
    if i == |order| {
      assert order[..i] == order;
    } else {
      var n := |order| - 1;
      assert order[..n][..i] == order[..i];
      EligibleGrows(rows, order[..n], i, scopeStart);
    }
  }

  /** What the two bulk updates leave alone. */
  lemma SettledRows(s: State, scopeStart: Millis, staleBefore: Millis, now: Millis)
    ensures
      var s1 := DoQuarantine(s, scopeStart, staleBefore);
      var s2 := DoRequeueDue(s1, scopeStart, now);
      && s2.rows.Keys == s.rows.Keys
      && (forall d :: d in s2.rows && s2.rows[d].status == Queued ==> d in s.rows && ClaimableStatus(s.rows[d].status))
      && DueCount(s1.rows, scopeStart, now) == DueCount(s.rows, scopeStart, now)
  {
    var s1 := DoQuarantine(s, scopeStart, staleBefore);
    var s2 := DoRequeueDue(s1, scopeStart, now);
    assert s1.rows.Keys == s.rows.Keys && s2.rows.Keys == s1.rows.Keys;
    assert (set d | d in s1.rows && IsDue(s1.rows[d], scopeStart, now))
        == (set d | d in s.rows && IsDue(s.rows[d], scopeStart, now));
  }

  lemma AcceptedSingle(d: DeliveryId, publishes: DeliveryId -> bool)
    ensures Accepted([d], publishes) == if publishes(d) then [d] else []
  {
    assert [d][..0] == [];
  }

  /** The published messages are those that the queue accepts, as often and in the order of the candidates. */
  lemma {:induction false} AcceptedKeepsOrder(
    first: seq<DeliveryId>, second: seq<DeliveryId>, publishes: DeliveryId -> bool)
    ensures Accepted(first + second, publishes) == Accepted(first, publishes) + Accepted(second, publishes)
  {
    if second == [] {
      assert first + second == first;
    } else {
      var n := |second| - 1;
      assert (first + second)[..|first| + n] == first + second[..n];
      AcceptedKeepsOrder(first, second[..n], publishes);
      assert Accepted(first + second, publishes)
          == Accepted(first + second[..n], publishes) + if publishes(second[n]) then [second[n]] else [];
    }
  }

  lemma EligibleSingle(rows: map<DeliveryId, Row>, d: DeliveryId, scopeStart: Millis)
    ensures Eligible(rows, [d], scopeStart)
         == if d in rows && rows[d].status == Queued && scopeStart <= rows[d].createdAt then [d] else []
  {
    assert [d][..0] == [];
  }

  /** The candidates are the queued rows in scope, in the order of the query. */
  lemma {:induction false} EligibleKeepsOrder(
    rows: map<DeliveryId, Row>, first: seq<DeliveryId>, second: seq<DeliveryId>, scopeStart: Millis)
    ensures Eligible(rows, first + second, scopeStart)
         == Eligible(rows, first, scopeStart) + Eligible(rows, second, scopeStart)
  {
    if second == [] {
      assert first + second == first;
    } else {
      var n := |second| - 1;
      assert (first + second)[..|first| + n] == first + second[..n];
      EligibleKeepsOrder(rows, first, second[..n], scopeStart);
      assert Eligible(rows, first + second, scopeStart) == Eligible(rows, first + second[..n], scopeStart)
          + if Candidate(rows, second[n], scopeStart) then [second[n]] else [];
    }
  }

  /** Everything the environment answers to one execution of processDelivery. */
  datatype Answers = Answers(
    startedAt: Millis,
    attempt: AttemptId,
    prepare: Option<Thrown>,
    accepted: bool,
    outcome: Outcome,
    code: Option<string>,
    now: Millis,
    jitter: Jitter)

  /** The statement a worker issues next, given the answers it gets. */
  function NextStep(phase: Phase, w: WorkerId, io: Answers): Step {
    match phase
    case Loaded => Claim(w)
    case Claimed => RecordAttempt(w, io.attempt)
    case Preparing(_) =>
      if io.prepare.Some? then PrepareFails(w, io.prepare.value) else Send(w, io.accepted, io.outcome, io.code)
    case Sent(_) => WriteDelivered(w, io.now)
    case Failing(_, _, _, _) => WriteFailure(w, io.now, io.jitter)
    case Closing(_, _, _, _) => CloseAttempt(w)
  }

  /** A worker alternates between waiting and its next statement until it is gone. */
  function Play(s: State, w: WorkerId, io: Answers, others: seq<seq<Step>>): State
    decreases |others|
  {
    if others == [] || w !in s.workers then s
    else Play(Apply(Run(s, others[0]), NextStep(s.workers[w].phase, w, io)), w, io, others[1..])
  }

  /** One execution of processDelivery: a wait, the query that loads the row, and what follows from it. */
  function Processed(s: State, w: WorkerId, d: DeliveryId, io: Answers, others: seq<seq<Step>>): State
    requires others != []
  {
    Play(Apply(Run(s, others[0]), Load(w, d, io.startedAt)), w, io, others[1..])
  }

  function PlayedSteps(s: State, w: WorkerId, io: Answers, others: seq<seq<Step>>): seq<Step>
    decreases |others|
  {
    if others == [] || w !in s.workers then []
    else
      var step := NextStep(s.workers[w].phase, w, io);
      others[0] + [step] + PlayedSteps(Apply(Run(s, others[0]), step), w, io, others[1..])
  }

  lemma RunTurn(s: State, others: seq<Step>, step: Step, rest: seq<Step>)
    ensures Run(s, others + [step] + rest) == Run(Apply(Run(s, others), step), rest)
  {
    RunAppend(s, others + [step], rest);
    RunAppend(s, others, [step]);
    assert [step][1..] == [];
    assert Run(Run(s, others), [step]) == Apply(Run(s, others), step);
  }

  lemma {:induction false} PlayIsRun(s: State, w: WorkerId, io: Answers, others: seq<seq<Step>>)
    ensures Play(s, w, io, others) == Run(s, PlayedSteps(s, w, io, others))
    decreases |others|
  {
    if others != [] && w in s.workers {
      var step := NextStep(s.workers[w].phase, w, io);
      var s' := Apply(Run(s, others[0]), step);
      PlayIsRun(s', w, io, others[1..]);
      RunTurn(s, others[0], step, PlayedSteps(s', w, io, others[1..]));
    }
  }

  /**
   Every execution of processDelivery, whatever happens between its statements, is a run of the
   transition system; so what holds over every run holds around it.
   */
  lemma ProcessedIsRun(s: State, w: WorkerId, d: DeliveryId, io: Answers, others: seq<seq<Step>>)
    requires others != []
    ensures
      var load := Load(w, d, io.startedAt);
      var loaded := Apply(Run(s, others[0]), load);
      Processed(s, w, d, io, others) == Run(s, others[0] + [load] + PlayedSteps(loaded, w, io, others[1..]))
  {
    var load := Load(w, d, io.startedAt);
    var loaded := Apply(Run(s, others[0]), load);
    PlayIsRun(loaded, w, io, others[1..]);
    RunTurn(s, others[0], load, PlayedSteps(loaded, w, io, others[1..]));
  }

  lemma PlayTurn(s: State, w: WorkerId, io: Answers, others: seq<Step>, rest: seq<seq<Step>>)
    requires w in s.workers
    ensures Play(s, w, io, [others] + rest)
         == Play(Apply(Run(s, others), NextStep(s.workers[w].phase, w, io)), w, io, rest)
  {
    assert ([others] + rest)[1..] == rest;
  }

  datatype Summary = Summary(
    discovered: nat,
    republished: nat,
    dueRetriesQueued: nat,
    staleClaimsEscalated: nat,
    publicationFailures: nat)

  class DeliveryServer {
    var rows: map<DeliveryId, Row>
    var attempts: map<AttemptId, Attempt>
    var published: seq<DeliveryId>
    /** The whole system: these tables, the other processes, and the logs. */
    var state: State

    ghost predicate Valid()
      reads this
    {
      rows == state.rows && attempts == state.attempts
    }

    constructor ()
      ensures Valid() && state == Init() && published == []
    {
      rows, attempts, published, state := map[], map[], [], Init();
    }

    /** While one worker awaits, everybody else may take any number of steps. */
    method Await(others: seq<Step>)
      requires Valid()
      modifies this`rows, this`attempts, this`state
      ensures Valid() && state == Run(old(state), others)
    {
      state := Run(state, others);
      rows, attempts := state.rows, state.attempts;
    }

    /** An await after which worker w still holds what it held. */
    method Hold(w: WorkerId, worker: Worker, others: seq<Step>)
      requires Valid() && Holds(state, w, worker) && Foreign(others, w)
      modifies this`rows, this`attempts, this`state
      ensures Valid() && Holds(state, w, worker) && state == Run(old(state), others)
    {
      OthersKeepWorker(state, others, w, worker);
      Await(others);
    }

    /** The same, before the attempt identifier is used. */
    method Pause(w: WorkerId, worker: Worker, a: AttemptId, others: seq<Step>)
      requires Valid() && Holds(state, w, worker) && Foreign(others, w)
      requires SparesAttempt(others, a) && a !in attempts
      modifies this`rows, this`attempts, this`state
      ensures Valid() && Holds(state, w, worker) && a !in attempts && state == Run(old(state), others)
    {
      OthersSpareAttempt(state, others, a);
      Hold(w, worker, others);
    }

    /** findUnique, and the early exits for a missing or delivered row. */
    method LoadDelivery(w: WorkerId, d: DeliveryId, startedAt: Millis) returns (attemptCount: nat, loaded: bool)
      requires Valid() && w !in state.workers
      modifies this`state
      ensures Valid() && state == Apply(old(state), Load(w, d, startedAt))
      ensures loaded == (d in rows && rows[d].status != Delivered)
      ensures if loaded then Holds(state, w, Worker(d, attemptCount, startedAt, Loaded)) else w !in state.workers
    {
      attemptCount := 0;
      loaded := d in rows && rows[d].status != Delivered;
      if loaded {
        attemptCount := rows[d].attemptCount;
      }
      state := Apply(state, Load(w, d, startedAt));
    }

    /** The guarded update that claims the row; count 0 ends the worker. */
    method ClaimDelivery(w: WorkerId, worker: Worker) returns (claimed: bool)
      requires Valid() && Holds(state, w, worker) && worker.phase == Loaded
      modifies this`rows, this`state
      ensures Valid() && state == Apply(old(state), Claim(w))
      ensures claimed == ClaimableStatus(old(rows)[worker.delivery].status)
      ensures if claimed then Holds(state, w, worker.(phase := Claimed)) else w !in state.workers
    {
      var d := worker.delivery;
      claimed := ClaimableStatus(rows[d].status);
      if claimed {
        rows := rows[d := rows[d].(status := Sending, lastAttemptAt := Some(worker.startedAt))];
      }
      state := Apply(state, Claim(w));
    }

    method CreateAttempt(w: WorkerId, worker: Worker, a: AttemptId)
      requires Valid() && Holds(state, w, worker) && worker.phase == Claimed && a !in attempts
      modifies this`attempts, this`state
      ensures Valid() && state == Apply(old(state), RecordAttempt(w, a))
      ensures Holds(state, w, worker.(phase := Preparing(a)))
    {
      attempts := attempts[a := Attempt(worker.delivery, worker.attemptCount + 1, Sending, false)];
      state := Apply(state, RecordAttempt(w, a));
    }

    /**
     processDelivery, with arbitrary interference at every await: the tables it leaves are the ones
     the transition system gives for these answers and this interference.
     */
    method ProcessDelivery(w: WorkerId, d: DeliveryId, io: Answers, others: seq<seq<Step>>)
      requires Valid() && w !in state.workers && io.attempt !in attempts && Answerable(io)
      requires |others| == 6
      requires forall i :: 0 <= i < 6 ==> Foreign(others[i], w) && SparesAttempt(others[i], io.attempt)
      modifies this`rows, this`attempts, this`state
      ensures Valid() && state == Processed(old(state), w, d, io, others) && w !in state.workers
    {
      OthersStartNoWorker(state, others[0], w);
      OthersSpareAttempt(state, others[0], io.attempt);
      Await(others[0]);
      var attemptCount, loaded := LoadDelivery(w, d, io.startedAt);
      if loaded {
        ProcessLoaded(w, Worker(d, attemptCount, io.startedAt, Loaded), io, others[1..]);
      }
    }

    /** From the claim on. */
    method ProcessLoaded(w: WorkerId, worker: Worker, io: Answers, others: seq<seq<Step>>)
      requires Valid() && Holds(state, w, worker) && worker.phase == Loaded
      requires io.attempt !in attempts && Answerable(io) && |others| == 5
      requires forall i :: 0 <= i < 5 ==> Foreign(others[i], w) && SparesAttempt(others[i], io.attempt)
      modifies this`rows, this`attempts, this`state
      ensures Valid() && state == Play(old(state), w, io, others) && w !in state.workers
    {
      PlayTurn(state, w, io, others[0], others[1..]);
      assert others == [others[0]] + others[1..];
      Pause(w, worker, io.attempt, others[0]);
      var claimed := ClaimDelivery(w, worker);
      if claimed {
        ProcessClaimed(w, worker.(phase := Claimed), io, others[1..]);
      }
    }

    /** The attempt row, and the try block. */
    method ProcessClaimed(w: WorkerId, worker: Worker, io: Answers, others: seq<seq<Step>>)
      requires Valid() && Holds(state, w, worker) && worker.phase == Claimed
      requires io.attempt !in attempts && Answerable(io) && |others| == 4
      requires forall i :: 0 <= i < 4 ==> Foreign(others[i], w) && SparesAttempt(others[i], io.attempt)
      modifies this`rows, this`attempts, this`state
      ensures Valid() && state == Play(old(state), w, io, others) && w !in state.workers
    {
      PlayTurn(state, w, io, others[0], others[1..]);
      assert others == [others[0]] + others[1..];
      Pause(w, worker, io.attempt, others[0]);
      CreateAttempt(w, worker, io.attempt);
      var preparing := worker.(phase := Preparing(io.attempt));
      PlayTurn(state, w, io, others[1], others[2..]);
      assert others[1..] == [others[1]] + others[2..] && others[2..] == [others[2], others[3]];
      Hold(w, preparing, others[1]);
      Transmit(w, preparing, io, others[2], others[3]);
    }

    predicate Answerable(io: Answers) {
      && PortContract(io.accepted, io.outcome)
      && (io.prepare.Some? && io.prepare.value.Policy? ==> PolicyCode(io.prepare.value.code))
    }

    /** The try block: attachments, the mail, and the outcome. */
    method Transmit(w: WorkerId, worker: Worker, io: Answers, before: seq<Step>, after: seq<Step>)
      requires Valid() && Holds(state, w, worker) && worker.phase == Preparing(io.attempt) && Answerable(io)
      requires Foreign(before, w) && Foreign(after, w)
      modifies this`rows, this`attempts, this`state
      ensures Valid() && w !in state.workers
      ensures state == Play(Apply(old(state), NextStep(worker.phase, w, io)), w, io, [before, after])
    {
      if io.prepare.Some? {
        state := Apply(state, PrepareFails(w, io.prepare.value));
        var failing := Failing(io.attempt, false, CaughtClass(io.prepare.value), true);
        HandleFailure(w, worker.(phase := failing), io, before, after);
        return;
      }
      state := Apply(state, Send(w, io.accepted, io.outcome, io.code));
      if io.outcome == MailDelivered {
        HandleDelivered(w, worker.(phase := Sent(io.attempt)), io, before, after);
      } else {
        var errorClass := MapOutcomeToErrorClass(io.outcome, FailureCode(io.outcome, io.code));
        var failing := Failing(io.attempt, io.accepted, errorClass, false);
        HandleFailure(w, worker.(phase := failing), io, before, after);
      }
    }

    /** The guarded write of a delivered outcome: a row that is already delivered keeps its values. */
    method WriteDeliveredRow(w: WorkerId, worker: Worker, now: Millis)
      requires Valid() && Holds(state, w, worker) && worker.phase.Sent?
      modifies this`rows, this`state
      ensures Valid() && state == Apply(old(state), WriteDelivered(w, now))
      ensures Holds(state, w, worker.(phase := Closing(worker.phase.attempt, true, Delivered, false)))
    {
      var d := worker.delivery;
      if rows[d].status != Delivered {
        rows := rows[d := rows[d].(status := Delivered, deliveredAt := Some(now),
                                   attemptCount := worker.attemptCount + 1, lastAttemptAt := Some(now))];
      }
      state := Apply(state, WriteDelivered(w, now));
    }

    method HandleDelivered(w: WorkerId, worker: Worker, io: Answers, before: seq<Step>, after: seq<Step>)
      requires Valid() && Holds(state, w, worker) && worker.phase.Sent?
      requires Foreign(before, w) && Foreign(after, w)
      modifies this`rows, this`attempts, this`state
      ensures Valid() && w !in state.workers && state == Play(old(state), w, io, [before, after])
    {
      PlayTurn(state, w, io, before, [after]);
      assert [before] + [after] == [before, after];
      Hold(w, worker, before);
      WriteDeliveredRow(w, worker, io.now);
      Close(w, worker.(phase := Closing(worker.phase.attempt, true, Delivered, false)), io, after);
    }

    /** The guarded write of a failure, by the retry classifier. */
    method WriteFailureRow(w: WorkerId, worker: Worker, now: Millis, jitter: Jitter) returns (next: DeliveryStatus)
      requires Valid() && Holds(state, w, worker) && worker.phase.Failing?
      modifies this`rows, this`state
      ensures Valid() && state == Apply(old(state), WriteFailure(w, now, jitter))
      ensures var p := worker.phase; Holds(state, w, worker.(phase := Closing(p.attempt, p.accepted, next, p.caught)))
    {
      var d := worker.delivery;
      var c := Classify(worker.phase.errorClass, worker.attemptCount, MAX_DELIVERY_RETRIES, jitter);
      next := c.nextStatus;
      if rows[d].status != Delivered {
        rows := rows[d := rows[d].(status := next, nextAttemptAt := DueAt(now, c.retryDelaySeconds),
                                   attemptCount := worker.attemptCount + 1, lastAttemptAt := Some(now))];
      }
      state := Apply(state, WriteFailure(w, now, jitter));
    }

    method HandleFailure(w: WorkerId, worker: Worker, io: Answers, before: seq<Step>, after: seq<Step>)
      requires Valid() && Holds(state, w, worker) && worker.phase.Failing?
      requires Foreign(before, w) && Foreign(after, w)
      modifies this`rows, this`attempts, this`state
      ensures Valid() && w !in state.workers && state == Play(old(state), w, io, [before, after])
    {
      PlayTurn(state, w, io, before, [after]);
      assert [before] + [after] == [before, after];
      Hold(w, worker, before);
      var p := worker.phase;
      var next := WriteFailureRow(w, worker, io.now, io.jitter);
      Close(w, worker.(phase := Closing(p.attempt, p.accepted, next, p.caught)), io, after);
    }

    method Close(w: WorkerId, worker: Worker, io: Answers, others: seq<Step>)
      requires Valid() && Holds(state, w, worker) && worker.phase.Closing? && Foreign(others, w)
      modifies this`rows, this`attempts, this`state
      ensures Valid() && w !in state.workers && state == Play(old(state), w, io, [others])
    {
      PlayTurn(state, w, io, others, []);
      assert [others] + [] == [others];
      Hold(w, worker, others);
      var a := worker.phase.attempt;
      attempts := attempts[a := attempts[a].(status := worker.phase.result, completed := true)];
      state := Apply(state, CloseAttempt(w));
    }

    // -- Recovery scan ---------------------------------------------------------------------

    predicate IsCandidate(d: DeliveryId, scopeStart: Millis)
      reads this
    {
      Candidate(rows, d, scopeStart)
    }

    /** The candidate query: `order` lists the table in the order of the query. */
    method FindCandidates(order: seq<DeliveryId>, scopeStart: Millis, maxBatch: nat) returns (found: seq<DeliveryId>)
      requires Distinct(order)
      ensures found == Take(Eligible(rows, order, scopeStart), maxBatch)
      ensures |found| <= maxBatch
      ensures forall d :: d in found ==> d in order && IsCandidate(d, scopeStart)
      ensures Distinct(found)
      ensures |found| < maxBatch ==> forall d :: d in order && IsCandidate(d, scopeStart) ==> d in found
    {
      found := [];
      var i := 0;
      while i < |order| && |found| < maxBatch
        invariant 0 <= i <= |order| && |found| <= maxBatch
        invariant found == Eligible(rows, order[..i], scopeStart)
        invariant forall d :: d in found ==> d in order[..i] && IsCandidate(d, scopeStart)
        invariant Distinct(found)
        invariant forall d :: d in order[..i] && IsCandidate(d, scopeStart) ==> d in found
      {
        if IsCandidate(order[i], scopeStart) {
          assert order[i] !in order[..i];
          found := found + [order[i]];
        }
        assert order[..i + 1][..i] == order[..i];
        i := i + 1;
      }
      EligibleGrows(rows, order, i, scopeStart);
      assert order[..|order|] == order;
    }

    /** The first bulk update: stale SENDING rows wait for manual review. */
    method QuarantineStaleRows(scopeStart: Millis, staleBefore: Millis) returns (count: nat)
      requires Valid()
      modifies this`rows, this`state
      ensures Valid() && state == DoQuarantine(old(state), scopeStart, staleBefore)
      ensures count == StaleCount(old(rows), scopeStart, staleBefore)
    {
      count := StaleCount(rows, scopeStart, staleBefore);
      rows := map d | d in rows ::
        if IsStale(rows[d], scopeStart, staleBefore) then rows[d].(status := ManualReview) else rows[d];
      state := DoQuarantine(state, scopeStart, staleBefore);
    }

    /** The second bulk update: due retries are queued. */
    method QueueDueRetries(scopeStart: Millis, now: Millis) returns (count: nat)
      requires Valid()
      modifies this`rows, this`state
      ensures Valid() && state == DoRequeueDue(old(state), scopeStart, now)
      ensures count == DueCount(old(rows), scopeStart, now)
    {
      count := DueCount(rows, scopeStart, now);
      rows := map d | d in rows ::
        if IsDue(rows[d], scopeStart, now) then rows[d].(status := Queued, nextAttemptAt := None) else rows[d];
      state := DoRequeueDue(state, scopeStart, now);
    }

    /** The publication loop: `publishes` says for which deliveries the queue accepts the message. */
    method Publish(candidates: seq<DeliveryId>, publishes: DeliveryId -> bool)
      returns (republished: nat, failures: nat)
      modifies this`published
      ensures rows == old(rows) && state == old(state)
      ensures republished + failures == |candidates|
      ensures published == old(published) + Accepted(candidates, publishes)
      ensures republished == |Accepted(candidates, publishes)|
    {
      republished, failures := 0, 0;
      for i := 0 to |candidates|
        invariant republished + failures == i
        invariant published == old(published) + Accepted(candidates[..i], publishes)
        invariant republished == |Accepted(candidates[..i], publishes)|
      {
        assert candidates[..i + 1][..i] == candidates[..i];
        if publishes(candidates[i]) {
          published := published + [candidates[i]];
          republished := republished + 1;
        } else {
          failures := failures + 1;
        }
      }
      assert candidates[..|candidates|] == candidates;
    }

    /** The two bulk updates and the candidate query of a scan. */
    method Scan(now: Millis, scopeStart: Millis, maxBatch: nat, staleBefore: Millis, order: seq<DeliveryId>)
      returns (found: seq<DeliveryId>, stale: nat, due: nat)
      requires Valid() && Distinct(order)
      requires forall d :: d in order <==> d in rows
      modifies this`rows, this`state
      ensures Valid() && state == Scanned(old(state), scopeStart, staleBefore, now)
      ensures Recovered(old(rows), rows, scopeStart, staleBefore, now)
      ensures stale == Moves(old(rows), rows, Sending, ManualReview)
      ensures due == Moves(old(rows), rows, RetryPending, Queued)
      ensures found == Take(Eligible(rows, order, scopeStart), maxBatch) && |found| <= maxBatch
      ensures Offered(old(rows), rows, found, scopeStart, maxBatch)
    {
      SettledRows(state, scopeStart, staleBefore, now);
      ScanDecides(state, scopeStart, staleBefore, now);
      CountsAreChanges(state, scopeStart, staleBefore, now);
      stale := QuarantineStaleRows(scopeStart, staleBefore);
      due := QueueDueRetries(scopeStart, now);
      assert forall d :: d in rows <==> d in old(rows);
      found := FindCandidates(order, scopeStart, maxBatch);
    }

    /**
     One recovery scan over the rows created since the activation, and no older than the age limit. A
     claim whose lease is over goes to manual review and is never published, a retry that is due is
     queued, every published row is QUEUED, and no queued row is skipped unless the batch is full.
     */
    method RecoverOnce(now: Millis, startAt: Millis, maxAgeHours: nat, maxBatch: nat, leaseSeconds: nat,
                       order: seq<DeliveryId>, publishes: DeliveryId -> bool)
      returns (summary: Summary, ghost candidates: seq<DeliveryId>)
      requires Valid() && Distinct(order)
      requires forall d :: d in order <==> d in rows
      modifies this
      ensures Valid()
      ensures state == Scanned(old(state), ScopeStart(now, startAt, maxAgeHours), now - leaseSeconds * 1000, now)
      ensures Recovered(old(rows), rows, ScopeStart(now, startAt, maxAgeHours), now - leaseSeconds * 1000, now)
      ensures summary.staleClaimsEscalated == Moves(old(rows), rows, Sending, ManualReview)
      ensures summary.dueRetriesQueued == Moves(old(rows), rows, RetryPending, Queued)
      ensures summary.discovered == |candidates| <= maxBatch
      ensures summary.republished == |Accepted(candidates, publishes)|
      ensures summary.republished + summary.publicationFailures == |candidates|
      ensures candidates == Take(Eligible(rows, order, ScopeStart(now, startAt, maxAgeHours)), maxBatch)
      ensures published == old(published) + Accepted(candidates, publishes)
      ensures Offered(old(rows), rows, candidates, ScopeStart(now, startAt, maxAgeHours), maxBatch)
    {
      var scopeStart := ScopeStart(now, startAt, maxAgeHours);
      var staleBefore := now - leaseSeconds * 1000;
      var found, stale, due := Scan(now, scopeStart, maxBatch, staleBefore, order);
      var republished, failures := Publish(found, publishes);
      summary := Summary(|found|, republished, due, stale, failures);
      candidates := found;
    }
  }
}
