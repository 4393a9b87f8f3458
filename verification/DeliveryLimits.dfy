/** Runs that attain the bounds of DeliverySafety, and runs that leave its assumptions. */
module DeliveryLimits {
  import opened Common
  import opened RetryClassifier
  import opened DeliveryModel

  ghost predicate Reachable(s: State) {
    exists steps :: s == Run(Init(), steps)
  }

  lemma Extend(s: State, step: Step)
    requires Reachable(s)
    ensures Reachable(Apply(s, step))
  {
    var steps :| s == Run(Init(), steps);
    RunAppend(Init(), steps, [step]);
    assert [step][1..] == [];
    assert Run(s, [step]) == Apply(s, step);
  }

  // -- Single steps on delivery 0 ----------------------------------------------------------

  lemma Created() returns (s: State)
    ensures Reachable(s) && s == Init().(rows := map[0 := Row(Queued, 0, 0, None, None, None)])
  {
    assert Run(Init(), []) == Init();
    Extend(Init(), CreateQueued(0, 0));
    s := Apply(Init(), CreateQueued(0, 0));
  }

  lemma Loads(s: State, w: WorkerId) returns (s': State)
    requires Reachable(s) && w !in s.workers && 0 in s.rows && s.rows[0].status != Delivered
    ensures Reachable(s')
    ensures s' == s.(workers := s.workers[w := Worker(0, s.rows[0].attemptCount, 0, Loaded)])
  {
    Extend(s, Load(w, 0, 0));
    s' := Apply(s, Load(w, 0, 0));
  }

  predicate HasWorker(s: State, w: WorkerId, worker: Worker) {
    w in s.workers && s.workers[w] == worker && worker.delivery == 0 && 0 in s.rows
  }

  lemma Claims(s: State, w: WorkerId, c: nat) returns (s': State)
    requires Reachable(s) && HasWorker(s, w, Worker(0, c, 0, Loaded)) && ClaimableStatus(s.rows[0].status)
    ensures Reachable(s')
    ensures s'.workers == s.workers[w := Worker(0, c, 0, Claimed)]
    ensures s'.rows == s.rows[0 := s.rows[0].(status := Sending, lastAttemptAt := Some(0))]
    ensures s'.claims == s.claims + multiset{0}
    ensures s'.staleClaims == if s.rows[0].attemptCount == c then s.staleClaims else s.staleClaims + multiset{0}
    ensures s'.attempts == s.attempts && s'.requests == s.requests
    ensures s'.mails == s.mails && s'.requeues == s.requeues && s'.faults == s.faults
  {
    Extend(s, Claim(w));
    s' := Apply(s, Claim(w));
  }

  lemma Records(s: State, w: WorkerId, c: nat, a: AttemptId) returns (s': State)
    requires Reachable(s) && HasWorker(s, w, Worker(0, c, 0, Claimed)) && a !in s.attempts
    ensures Reachable(s')
    ensures s' == s.(workers := s.workers[w := Worker(0, c, 0, Preparing(a))],
                     attempts := s.attempts[a := Attempt(0, c + 1, Sending, false)])
  {
    Extend(s, RecordAttempt(w, a));
    s' := Apply(s, RecordAttempt(w, a));
  }

  function Answer(a: AttemptId, accepted: bool, outcome: Outcome): Phase {
    if outcome == MailDelivered then Sent(a)
    else Failing(a, accepted, MapOutcomeToErrorClass(outcome, FailureCode(outcome, None)), false)
  }

  lemma Sends(s: State, w: WorkerId, c: nat, a: AttemptId, accepted: bool, outcome: Outcome) returns (s': State)
    requires Reachable(s) && HasWorker(s, w, Worker(0, c, 0, Preparing(a))) && PortContract(accepted, outcome)
    ensures Reachable(s')
    ensures s' == s.(workers := s.workers[w := Worker(0, c, 0, Answer(a, accepted, outcome))],
                     mails := if accepted then s.mails + multiset{0} else s.mails)
  {
    Extend(s, Send(w, accepted, outcome, None));
    s' := Apply(s, Send(w, accepted, outcome, None));
  }

  lemma Delivers(s: State, w: WorkerId, c: nat, a: AttemptId) returns (s': State)
    requires Reachable(s) && HasWorker(s, w, Worker(0, c, 0, Sent(a))) && s.rows[0].status != Delivered
    ensures Reachable(s')
    ensures s' == s.(workers := s.workers[w := Worker(0, c, 0, Closing(a, true, Delivered, false))],
                     rows := s.rows[0 := s.rows[0].(status := Delivered, deliveredAt := Some(0),
                                                    attemptCount := c + 1, lastAttemptAt := Some(0))])
  {
    Extend(s, WriteDelivered(w, 0));
    s' := Apply(s, WriteDelivered(w, 0));
  }

  lemma Closes(s: State, w: WorkerId, c: nat, a: AttemptId) returns (s': State)
    requires Reachable(s) && HasWorker(s, w, Worker(0, c, 0, Closing(a, true, Delivered, false))) && a in s.attempts
    ensures Reachable(s')
    ensures s' == s.(workers := s.workers - {w},
                     attempts := s.attempts[a := s.attempts[a].(status := Delivered, completed := true)])
  {
    Extend(s, CloseAttempt(w));
    s' := Apply(s, CloseAttempt(w));
  }

  /** A failing worker writes the status its class asks for. */
  lemma Fails(s: State, w: WorkerId, c: nat, a: AttemptId, accepted: bool, errorClass: WorkerErrorClass, caught: bool)
    returns (s': State)
    requires Reachable(s) && HasWorker(s, w, Worker(0, c, 0, Failing(a, accepted, errorClass, caught)))
    requires s.rows[0].status != Delivered
    ensures Reachable(s')
    ensures 0 in s'.rows && s'.rows[0].status == Classify(errorClass, c, MAX_DELIVERY_RETRIES, 0).nextStatus
    ensures s'.rows[0].attemptCount == c + 1
    ensures s'.workers == s.workers[w := Worker(0, c, 0, Closing(a, accepted, s'.rows[0].status, caught))]
    ensures s' == s.(workers := s'.workers, rows := s'.rows)
  {
    Extend(s, WriteFailure(w, 0, 0));
    s' := Apply(s, WriteFailure(w, 0, 0));
  }

  lemma Throws(s: State, w: WorkerId, c: nat, a: AttemptId) returns (s': State)
    requires Reachable(s) && HasWorker(s, w, Worker(0, c, 0, Sent(a)))
    ensures Reachable(s')
    ensures s' == s.(workers := s.workers[w := Worker(0, c, 0, Failing(a, true, UnknownProviderResponse, true))],
                     faults := s.faults + multiset{0})
  {
    Extend(s, Throw(w));
    s' := Apply(s, Throw(w));
  }

  lemma Reads(s: State, kind: RequeueKind) returns (s': State)
    requires Reachable(s) && s.requests == map[] && 0 in s.rows && ReadAllows(kind, s.rows[0], 0, 0)
    ensures Reachable(s') && s' == s.(requests := map[0 := Request(0, kind, s.rows[0].attemptCount)])
  {
    Extend(s, RequestRead(0, kind, 0, 0, 0));
    s' := Apply(s, RequestRead(0, kind, 0, 0, 0));
  }

  lemma Requeues(s: State, kind: RequeueKind, c: nat) returns (s': State)
    requires Reachable(s) && s.requests == map[0 := Request(0, kind, c)] && 0 in s.rows
    requires kind == EnsurePackage || kind == ManualResend
    ensures Reachable(s') && s' == Apply(s, RequestWrite(0, 0, 0))
    ensures 0 in s'.rows && s'.rows[0].status == Queued
    ensures s' == s.(requests := map[], rows := s'.rows, requeues := s.requeues + multiset{0})
  {
    Extend(s, RequestWrite(0, 0, 0));
    s' := Apply(s, RequestWrite(0, 0, 0));
    assert s'.requests == map[];
  }

  // -- Rounds ------------------------------------------------------------------------------

  /** Worker w takes a claimable row up to the provider's answer. */
  lemma SendRound(s: State, w: WorkerId, a: AttemptId, accepted: bool, outcome: Outcome) returns (s': State)
    requires Reachable(s)
    requires 0 in s.rows && ClaimableStatus(s.rows[0].status) && w !in s.workers && a !in s.attempts
    requires PortContract(accepted, outcome)
    ensures Reachable(s')
    ensures s'.workers == s.workers[w := Worker(0, s.rows[0].attemptCount, 0, Answer(a, accepted, outcome))]
    ensures s'.rows == s.rows[0 := s.rows[0].(status := Sending, lastAttemptAt := Some(0))]
    ensures s'.attempts.Keys == s.attempts.Keys + {a}
    ensures s'.requests == s.requests && s'.requeues == s.requeues && s'.faults == s.faults
    ensures s'.claims == s.claims + multiset{0} && s'.staleClaims == s.staleClaims
    ensures s'.mails == if accepted then s.mails + multiset{0} else s.mails
  {
    var c := s.rows[0].attemptCount;
    var s1 := Loads(s, w);
    var s2 := Claims(s1, w, c);
    var s3 := Records(s2, w, c, a);
    s' := Sends(s3, w, c, a, accepted, outcome);
  }

  /** The ensure services re-queue a row that waits for manual review, although its mail was accepted. */
  lemma EnsureDuplicatesUnknownOutcome() returns (s: State)
    ensures Reachable(s) && s.mails[0] == 2 && s.requeues[0] == 1 && s.faults[0] == 0
  {
    var s0 := Created();
    var s1 := SendRound(s0, 0, 0, true, OutcomeUnknown);
    var s2 := Fails(s1, 0, 0, 0, true, UnknownExternalOutcome, false);
    var s3 := Reads(s2, EnsurePackage);
    var s4 := Requeues(s3, EnsurePackage, s2.rows[0].attemptCount);
    s := SendRound(s4, 1, 1, true, MailDelivered);
  }

  /** The ensure services read, then write without a guard: a delivered row can go back to QUEUED. */
  lemma EnsureOverwritesDelivered() returns (s: State, s': State)
    ensures Reachable(s) && 0 in s.rows && s.rows[0].status == Delivered
    ensures s' == Apply(s, RequestWrite(0, 0, 0)) && 0 in s'.rows && s'.rows[0].status == Queued
  {
    var s0 := Created();
    var s1 := SendRound(s0, 0, 0, false, TransientFailure);
    var s2 := Fails(s1, 0, 0, 0, false, TransientProviderFailure, false);
    var s3 := Reads(s2, EnsurePackage);
    var s4 := SendRound(s3, 1, 1, true, MailDelivered);
    s := Delivers(s4, 1, s3.rows[0].attemptCount, 1);
    s' := Requeues(s, EnsurePackage, s2.rows[0].attemptCount);
  }

  // -- Claims on an outdated count ---------------------------------------------------------

  /** Workers k, ..., n - 1 have read attemptCount 0 and not claimed yet; k claims were made. */
  ghost predicate Waiting(s: State, k: nat, n: nat) {
    && Reachable(s)
    && 0 in s.rows && ClaimableStatus(s.rows[0].status)
    && (forall w :: k <= w < n ==> HasWorker(s, w, Worker(0, 0, 0, Loaded)))
    && (forall a :: a in s.attempts ==> a < k)
    && s.claims[0] == k && s.requeues[0] == 0 && s.faults[0] == 0
  }

  lemma {:induction false} AllLoad(n: nat) returns (s: State)
    ensures Waiting(s, 0, n)
    ensures s.requests == map[] && s.attempts == map[] && s.mails[0] == 0
    ensures forall w :: w in s.workers ==> w < n && s.workers[w].phase == Loaded
    ensures s.rows == map[0 := Row(Queued, 0, 0, None, None, None)] && s.staleClaims == multiset{}
  {
    if n == 0 {
      s := Created();
    } else {
      var before := AllLoad(n - 1);
      s := Loads(before, n - 1);
      forall w | 0 <= w < n ensures HasWorker(s, w, Worker(0, 0, 0, Loaded)) {
        assert w < n - 1 ==> HasWorker(before, w, Worker(0, 0, 0, Loaded));
      }
    }
  }

  /** A worker that read attemptCount 0 claims and sends, as its attempt number k. */
  lemma EarlySend(s: State, k: nat, accepted: bool, outcome: Outcome) returns (s': State)
    requires Reachable(s) && HasWorker(s, k, Worker(0, 0, 0, Loaded)) && ClaimableStatus(s.rows[0].status)
    requires k !in s.attempts && PortContract(accepted, outcome)
    ensures Reachable(s') && HasWorker(s', k, Worker(0, 0, 0, Answer(k, accepted, outcome)))
    ensures s'.workers == s.workers[k := s'.workers[k]] && s'.attempts.Keys == s.attempts.Keys + {k}
    ensures 0 in s'.rows && s'.rows[0].status == Sending
    ensures s'.claims == s.claims + multiset{0} && s'.requests == s.requests
    ensures s'.mails == if accepted then s.mails + multiset{0} else s.mails
    ensures s'.requeues == s.requeues && s'.faults == s.faults
  {
    var s1 := Claims(s, k, 0);
    var s2 := Records(s1, k, 0, k);
    s' := Sends(s2, k, 0, k, accepted, outcome);
  }

  lemma StaleRound(s: State, k: nat, n: nat) returns (s': State)
    requires Waiting(s, k, n) && k < n
    ensures Waiting(s', k + 1, n)
  {
    assert HasWorker(s, k, Worker(0, 0, 0, Loaded));
    var s1 := EarlySend(s, k, false, TransientFailure);
    s' := Fails(s1, k, 0, k, false, TransientProviderFailure, false);
    forall w | k + 1 <= w < n ensures HasWorker(s', w, Worker(0, 0, 0, Loaded)) {
      assert HasWorker(s, w, Worker(0, 0, 0, Loaded));
    }
  }

  lemma {:induction false} StaleRounds(s: State, k: nat, n: nat) returns (s': State)
    requires Waiting(s, k, n) && k <= n
    ensures Waiting(s', n, n)
    decreases n - k
  {
    if k == n {
      s' := s;
    } else {
      var next := StaleRound(s, k, n);
      s' := StaleRounds(next, k + 1, n);
    }
  }

  /**
   The worker reads attemptCount before it claims, so no bound on attempts can leave stale claims
   out: n workers that read early claim n times, without a re-queue or a fault.
   */
  lemma StaleCountsUnboundAttempts(n: nat) returns (s: State)
    ensures Reachable(s) && s.claims[0] == n && s.requeues[0] == 0 && s.faults[0] == 0
  {
    var loaded := AllLoad(n);
    s := StaleRounds(loaded, 0, n);
  }

  // -- The bound is attained ---------------------------------------------------------------

  /** Nobody works on delivery 0 but workers below k that have written its row for the last time. */
  ghost predicate Idle(s: State, status: DeliveryStatus, rounds: nat, requeues: nat, k: nat) {
    && Reachable(s)
    && 0 in s.rows && s.rows[0].status == status
    && (forall w :: w in s.workers ==> w < k)
    && s.requests == map[]
    && (forall a :: a in s.attempts ==> a < rounds)
    && s.mails[0] == rounds && s.requeues[0] == requeues && s.faults[0] == k
  }

  lemma FullRound(s: State, rounds: nat, requeues: nat, k: nat) returns (s': State)
    requires 0 in s.rows && Idle(s, s.rows[0].status, rounds, requeues, k) && ClaimableStatus(s.rows[0].status)
    ensures Idle(s', Delivered, rounds + 1, requeues, k)
  {
    var s1 := SendRound(s, k, rounds, true, MailDelivered);
    var c := s.rows[0].attemptCount;
    var s2 := Delivers(s1, k, c, rounds);
    s' := Closes(s2, k, c, rounds);
  }

  /** Workers k, ..., n - 1 have read attemptCount 0; the others mailed, and failed to say so. */
  ghost predicate Faulting(s: State, k: nat, n: nat) {
    && Reachable(s)
    && 0 in s.rows && ClaimableStatus(s.rows[0].status) && s.requests == map[]
    && (forall w :: k <= w < n ==> HasWorker(s, w, Worker(0, 0, 0, Loaded)))
    && (forall w :: w in s.workers ==> w < n)
    && (forall a :: a in s.attempts ==> a < k)
    && s.mails[0] == k && s.requeues[0] == 0 && s.faults[0] == k
  }

  /** A worker with an early count mails, and its DELIVERED write throws: the row is retried. */
  lemma FaultRound(s: State, k: nat, n: nat) returns (s': State)
    requires Faulting(s, k, n) && k < n
    ensures Faulting(s', k + 1, n)
  {
    assert HasWorker(s, k, Worker(0, 0, 0, Loaded));
    var s1 := EarlySend(s, k, true, MailDelivered);
    var s2 := Throws(s1, k, 0, k);
    s' := Fails(s2, k, 0, k, true, UnknownProviderResponse, true);
    forall w | k + 1 <= w < n ensures HasWorker(s', w, Worker(0, 0, 0, Loaded)) {
      assert HasWorker(s, w, Worker(0, 0, 0, Loaded));
    }
  }

  lemma {:induction false} FaultRounds(s: State, k: nat, n: nat) returns (s': State)
    requires Faulting(s, k, n) && k <= n
    ensures Faulting(s', n, n)
    decreases n - k
  {
    if k == n {
      s' := s;
    } else {
      var next := FaultRound(s, k, n);
      s' := FaultRounds(next, k + 1, n);
    }
  }

  /**
   The bound of MailsNeverExceedAllowance is attained for every number of re-queues and of late
   exceptions.
   */
  lemma {:induction false} AllowanceIsAttained(n: nat, k: nat) returns (s: State)
    ensures Reachable(s) && s.requeues[0] == n && s.faults[0] == k && s.mails[0] == 1 + n + k
    ensures Idle(s, Delivered, 1 + n + k, n, k)
  {
    if n == 0 {
      var loaded := AllLoad(k);
      var faulted := FaultRounds(loaded, 0, k);
      s := FullRound(faulted, k, 0, k);
    } else {
      var before := AllowanceIsAttained(n - 1, k);
      var read := Reads(before, ManualResend);
      var queued := Requeues(read, ManualResend, before.rows[0].attemptCount);
      s := FullRound(queued, n + k, n, k);
    }
  }

  /**
   The catch block covers the writes after the send: when the DELIVERED write throws, the row goes
   back to RETRY_PENDING and the mail goes out twice, with no re-queue involved.
   */
  lemma LateExceptionDuplicatesMail() returns (s: State)
    ensures Reachable(s) && s.mails[0] == 2 && s.requeues[0] == 0 && s.faults[0] == 1
  {
    s := AllowanceIsAttained(0, 1);
  }
}
