/**
 What each reply, each report and each pass of the limiter does, on states, counts and times.
 */
module CircuitBreakerReports {
  import opened CircuitBreaker

  // -- Replies -----------------------------------------------------------------------------

  /** A 429 and a transient error are retried while their own budget lasts; nothing else is. */
  ghost predicate TriesAgain(cfg: Config, attempt: nat, reply: Reply) {
    || (reply == TooManyRequests && attempt < cfg.retry429Count)
    || (reply == Transient && attempt < cfg.retry5xxCount)
  }

  /**
   What the reply to an invocation does to its call: a 429 waits longer each time, a transient error
   always the same, and a reply that is not retried ends the call with its own outcome.
   */
  lemma ReplyMeans(s: System, c: CallId, reply: Reply)
    requires In(s, c, Calling)
    ensures
      var before, after := s.calls[c], Apply(s, Settle(c, reply)).calls[c];
      var s' := Apply(s, Settle(c, reply));
      && (TriesAgain(s.cfg, before.attempt, reply) ==>
            && after.attempt == before.attempt + 1
            && after.phase == Backoff(s.clock + if reply == TooManyRequests
                                                then s.cfg.retry429BaseMs * (before.attempt + 1)
                                                else s.cfg.retry5xxDelayMs)
            && s'.breaker == s.breaker && s'.outcomes == s.outcomes)
      && (!TriesAgain(s.cfg, before.attempt, reply) ==>
            && after.attempt == before.attempt
            && (reply == Success ==> after.phase == Done(Succeeded))
            && (reply == TooManyRequests ==> after.phase == Done(RateLimited))
            && (reply == Transient ==> after.phase == Done(ServerError))
            && (reply == Fatal ==> after.phase == Done(Rethrown))
            && s'.outcomes == s.outcomes + [reply == Success])
      && after.invocations == before.invocations
  {
    LinearDelayIsProduct(s.cfg.retry429BaseMs, s.calls[c].attempt + 1);
  }

  /** After its delay a call passes the limiter again, and not before. */
  lemma BackoffLasts(s: System, c: CallId, until: int)
    requires In(s, c, Backoff(until))
    ensures In(Apply(s, Resume(c)), c, Limiting) <==> until <= s.clock
    ensures s.clock < until ==> Apply(s, Resume(c)) == s
  {}

  // -- Reports -----------------------------------------------------------------------------

  /** The step is the end of an admitted call: `ok` for a value, otherwise a reply that is not retried. */
  ghost predicate Reports(s: System, step: Step, ok: bool) {
    && step.Settle? && In(s, step.c, Calling)
    && if ok then step.reply == Success
       else step.reply != Success && !TriesAgain(s.cfg, s.calls[step.c].attempt, step.reply)
  }

  ghost predicate SameCircuit(b: Breaker, b': Breaker) {
    b'.state == b.state && b'.failureCount == b.failureCount && b'.nextAttemptTime == b.nextAttemptTime
  }

  /**
   HALF_OPEN is left by reports alone: a failure opens the circuit again for one reset timeout from now,
   a success closes it with its failures forgotten.
   */
  lemma ProbeDecides(s: System, step: Step)
    requires s.breaker.state == HalfOpen
    ensures
      var b, b' := s.breaker, Apply(s, step).breaker;
      && (Reports(s, step, true) ==> b'.state == Closed && b'.failureCount == 0)
      && (Reports(s, step, false) ==>
            && b'.state == Open && b'.failureCount == b.failureCount + 1
            && b'.nextAttemptTime == s.clock + s.cfg.resetTimeoutMs)
      && (!Reports(s, step, true) && !Reports(s, step, false) ==> SameCircuit(b, b'))
  {}

  /** CLOSED counts failures, forgets them at a success, and opens at the threshold for one reset timeout. */
  lemma ClosedCounts(s: System, step: Step)
    requires s.breaker.state == Closed
    ensures
      var b, b' := s.breaker, Apply(s, step).breaker;
      && (Reports(s, step, true) ==> b'.state == Closed && b'.failureCount == 0)
      && (Reports(s, step, false) ==>
            && b'.failureCount == b.failureCount + 1
            && b'.state == (if s.cfg.failureThreshold <= b.failureCount + 1 then Open else Closed)
            && b'.nextAttemptTime == (if b'.state == Open then s.clock + s.cfg.resetTimeoutMs else b.nextAttemptTime))
      && (!Reports(s, step, true) && !Reports(s, step, false) ==> SameCircuit(b, b'))
  {}

  /**
   OPEN hears the calls still in flight and stays as it is; it is left by the first call begun at or
   after the deadline, which is let through as the probe, while a call begun before it is refused.
   */
  lemma OpenWaits(s: System, step: Step)
    requires s.breaker.state == Open
    ensures
      var b, s' := s.breaker, Apply(s, step);
      && s'.breaker.nextAttemptTime == b.nextAttemptTime
      && s'.breaker.state == (if step.Begin? && step.c !in s.calls && b.nextAttemptTime <= s.clock
                              then HalfOpen else Open)
      && (step.Begin? && step.c !in s.calls ==>
            s'.calls[step.c].phase == if s.clock < b.nextAttemptTime then Done(CircuitOpen) else Limiting)
      && s'.breaker.failureCount == (if Reports(s, step, true) then 0
                                     else if Reports(s, step, false) then b.failureCount + 1
                                     else b.failureCount)
  {}

  /** Unless the circuit is OPEN, every call is let through to the limiter. */
  lemma OthersAreLetThrough(s: System, c: CallId)
    requires s.breaker.state != Open && c !in s.calls
    ensures Apply(s, Begin(c)).calls == s.calls[c := Call(Limiting, 0, 0, s.clock)]
    ensures Apply(s, Begin(c)).breaker == s.breaker
  {}

  // -- Over runs ---------------------------------------------------------------------------

  lemma {:induction false} ReportsOnlyGrow(s: System, steps: seq<Step>)
    ensures |s.outcomes| <= |Run(s, steps).outcomes|
    decreases |steps|
  {
    if steps == [] {
    } else {
      ReportsOnlyGrow(Apply(s, steps[0]), steps[1..]);
    }
  }

  /** HALF_OPEN lasts until a report, whatever else happens. */
  lemma {:induction false} HalfOpenAwaitsReport(s: System, steps: seq<Step>)
    requires s.breaker.state == HalfOpen
    requires |Run(s, steps).outcomes| <= |s.outcomes|
    ensures SameCircuit(s.breaker, Run(s, steps).breaker)
    decreases |steps|
  {
    if steps == [] {
    } else {
      var s1 := Apply(s, steps[0]);
      ReportsOnlyGrow(s, steps[..1]);
      RunOne(s, steps[0]);
      assert steps[..1] == [steps[0]];
      ReportsOnlyGrow(s1, steps[1..]);
      ProbeDecides(s, steps[0]);
      HalfOpenAwaitsReport(s1, steps[1..]);
    }
  }

  /** A failed probe shuts everybody out for one more reset timeout, and the circuit opens as often as it takes. */
  lemma FailedProbeShutsOut(s: System, probe: Step, steps: seq<Step>, c: CallId)
    requires s.breaker.state == HalfOpen && Reports(s, probe, false)
    requires Run(Apply(s, probe), steps).clock < s.clock + s.cfg.resetTimeoutMs
    ensures
      var s' := Run(Apply(s, probe), steps);
      && s'.breaker.state == Open && s'.breaker.nextAttemptTime == s.clock + s.cfg.resetTimeoutMs
      && (c in s'.calls && c !in s.calls ==> s'.calls[c].phase == Done(CircuitOpen) && s'.calls[c].invocations == 0)
  {
    ProbeDecides(s, probe);
    OpenStaysOpen(Apply(s, probe), steps, c);
  }

  ghost predicate BegunEarly(s: System, steps: seq<Step>, deadline: int)
    decreases |steps|
  {
    steps == [] || ((steps[0].Begin? ==> s.clock < deadline) && BegunEarly(Apply(s, steps[0]), steps[1..], deadline))
  }

  /** An OPEN circuit is still OPEN at its deadline, and lets the first call begun from then on through. */
  lemma {:induction false} FirstCallProbes(s: System, steps: seq<Step>, c: CallId)
    requires s.breaker.state == Open && BegunEarly(s, steps, s.breaker.nextAttemptTime)
    requires c !in Run(s, steps).calls && s.breaker.nextAttemptTime <= Run(s, steps).clock
    ensures Run(s, steps).breaker.state == Open
    ensures
      var s' := Apply(Run(s, steps), Begin(c));
      s'.breaker.state == HalfOpen && In(s', c, Limiting)
    decreases |steps|
  {
    if steps == [] {
      OpenWaits(s, Begin(c));
    } else {
      OpenWaits(s, steps[0]);
      FirstCallProbes(Apply(s, steps[0]), steps[1..], c);
    }
  }

  // -- The limiter -------------------------------------------------------------------------

  /** Entries later than `after`. */
  ghost function CountAfter(times: seq<int>, after: int): nat {
    if times == [] then 0
    else CountAfter(times[..|times| - 1], after) + if after < times[|times| - 1] then 1 else 0
  }

  lemma {:induction false} NoneAfter(times: seq<int>, after: int)
    requires forall i :: 0 <= i < |times| ==> times[i] <= after
    ensures CountAfter(times, after) == 0
  {
    if times == [] {
    } else {
      NoneAfter(times[..|times| - 1], after);
    }
  }

  /** A sorted list splits at the limit. */
  lemma {:induction false} CountsTail(times: seq<int>, after: int, dropped: nat)
    requires dropped <= |times|
    requires forall i :: 0 <= i < dropped ==> times[i] <= after
    requires forall i :: dropped <= i < |times| ==> after < times[i]
    ensures CountAfter(times, after) == |times| - dropped
  {
    if dropped == |times| {
      NoneAfter(times, after);
    } else {
      CountsTail(times[..|times| - 1], after, dropped);
    }
  }

  /** The stamps after a trim are the admissions of the last second. */
  lemma KeptAreRecentAdmissions(admissions: seq<int>, stamps: seq<int>, clock: int)
    requires Sorted(admissions) && Kept(admissions, stamps, clock)
    ensures
      var kept := Recent(stamps, clock - WINDOW_MS);
      |kept| == CountAfter(admissions, clock - 1000) <= |admissions| && kept == admissions[|admissions| - |kept|..]
  {
    TrimKeepsKept(admissions, stamps, clock);
    RecentIsSuffix(stamps, clock - WINDOW_MS);
    var kept := Recent(stamps, clock - WINDOW_MS);
    forall i | |admissions| - |kept| <= i < |admissions| ensures clock - 1000 < admissions[i] {
      assert admissions[i] == kept[i - (|admissions| - |kept|)];
    }
    CountsTail(admissions, clock - 1000, |admissions| - |kept|);
  }

  lemma LimitMeans(s: System, c: CallId, pushDelay: nat)
    requires s.cfg.maxPerSecond > 0 && In(s, c, Limiting)
    ensures
      var s' := DoLimit(s, c, pushDelay);
      var kept := Recent(s.breaker.stamps, s.clock - WINDOW_MS);
      if |kept| < s.cfg.maxPerSecond then
        && s'.calls[c] == s.calls[c].(phase := Calling, invocations := s.calls[c].invocations + 1)
        && s'.admissions == s.admissions + [s.clock + pushDelay] && s'.clock == s.clock + pushDelay
      else
        && s'.calls[c] == s.calls[c].(phase := Waiting(kept[0] + 1000 + 10))
        && s'.admissions == s.admissions && s'.clock == s.clock
  {}

  /**
   A pass of the limiter on the log of admissions: admitted exactly if the last 1000 ms hold fewer than
   the configured number, otherwise asleep until 10 ms after the oldest of them leaves the window.
   */
  lemma LimiterDecides(s: System, c: CallId, pushDelay: nat)
    requires Windowed(s) && s.cfg.maxPerSecond > 0 && In(s, c, Limiting)
    ensures
      var s' := Apply(s, Limit(c, pushDelay));
      var recent := CountAfter(s.admissions, s.clock - 1000);
      && recent <= |s.admissions|
      && (recent < s.cfg.maxPerSecond ==>
            && s'.calls[c] == s.calls[c].(phase := Calling, invocations := s.calls[c].invocations + 1)
            && s'.admissions == s.admissions + [s.clock + pushDelay] && s'.clock == s.clock + pushDelay)
      && (s.cfg.maxPerSecond <= recent ==>
            && s'.calls[c] == s.calls[c].(phase := Waiting(s.admissions[|s.admissions| - recent] + 1000 + 10))
            && s'.admissions == s.admissions && s'.clock == s.clock)
  {
    KeptAreRecentAdmissions(s.admissions, s.breaker.stamps, s.clock);
    LimitMeans(s, c, pushDelay);
  }

  /** Every run, and a caller at the limiter in its last state. */
  lemma LimiterDecidesInRuns(cfg: Config, clock: int, steps: seq<Step>, c: CallId, pushDelay: nat)
    requires ValidConfig(cfg) && In(Run(Init(cfg, clock), steps), c, Limiting)
    ensures
      var s := Run(Init(cfg, clock), steps);
      In(Apply(s, Limit(c, pushDelay)), c, Calling) <==> CountAfter(s.admissions, s.clock - 1000) < cfg.maxPerSecond
  {
    RunKeepsWindow(Init(cfg, clock), steps);
    LimiterDecides(Run(Init(cfg, clock), steps), c, pushDelay);
  }
}
