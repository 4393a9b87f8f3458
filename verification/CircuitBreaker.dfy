/**
 The outbound protection of the Hacienda client: sliding-window limiter, circuit breaker and
 retry, shared by concurrent callers. The stretches of code between two awaits are the steps.
 */
module CircuitBreaker {
  import opened Common

  datatype CircuitState = Closed | Open | HalfOpen

  datatype Config = Config(
    failureThreshold: nat,
    resetTimeoutMs: nat,
    maxPerSecond: nat,
    retry429Count: nat,
    retry429BaseMs: nat,
    retry5xxCount: nat,
    retry5xxDelayMs: nat)

  /** The configuration schema admits positive values only. */
  ghost predicate ValidConfig(cfg: Config) {
    1 <= cfg.failureThreshold && 1 <= cfg.maxPerSecond
  }

  const WINDOW_MS: nat := 1000
  const SAFETY_MS: nat := 10

  datatype Breaker = Breaker(state: CircuitState, failureCount: nat, nextAttemptTime: int, stamps: seq<int>)

  /** What the protected call answers: a value, HTTP 429, a 5xx or network error, or another error. */
  datatype Reply = Success | TooManyRequests | Transient | Fatal

  datatype Outcome = Succeeded | CircuitOpen | RateLimited | ServerError | Rethrown

  // -- Stretches of the code ---------------------------------------------------------------

  predicate Refuses(b: Breaker, now: int) {
    b.state == Open && now < b.nextAttemptTime
  }

  function Gate(b: Breaker, now: int): Breaker {
    if b.state == Open && !Refuses(b, now) then b.(state := HalfOpen) else b
  }

  function Recent(stamps: seq<int>, windowStart: int): (r: seq<int>)
    ensures |r| <= |stamps|
  {
    if stamps == [] then []
    else
      var rest := Recent(stamps[..|stamps| - 1], windowStart);
      if stamps[|stamps| - 1] > windowStart then rest + [stamps[|stamps| - 1]] else rest
  }

  function Trimmed(b: Breaker, now: int): Breaker {
    b.(stamps := Recent(b.stamps, now - WINDOW_MS))
  }

  predicate Admits(cfg: Config, b: Breaker, now: int) {
    |Trimmed(b, now).stamps| < cfg.maxPerSecond
  }

  /** The clock is read again for the stamp, `pushedAt` >= `now`. */
  function Admit(b: Breaker, now: int, pushedAt: int): Breaker {
    Trimmed(b, now).(stamps := Trimmed(b, now).stamps + [pushedAt])
  }

  function WaitMs(b: Breaker, now: int): int
    requires Trimmed(b, now).stamps != []
  {
    WINDOW_MS - (now - Trimmed(b, now).stamps[0]) + SAFETY_MS
  }

  function OnSuccess(b: Breaker): Breaker {
    b.(failureCount := 0, state := if b.state == HalfOpen then Closed else b.state)
  }

  function OnFailure(cfg: Config, b: Breaker, now: int): Breaker {
    var count := b.failureCount + 1;
    if b.state == HalfOpen || (count >= cfg.failureThreshold && b.state == Closed)
    then b.(failureCount := count, state := Open, nextAttemptTime := now + cfg.resetTimeoutMs)
    else b.(failureCount := count)
  }

  /** Whether a reply is retried after `attempt` retries. */
  predicate Retries(cfg: Config, reply: Reply, attempt: nat) {
    match reply
    case TooManyRequests => attempt < cfg.retry429Count
    case Transient => attempt < cfg.retry5xxCount
    case _ => false
  }

  /** base * n, as the sum that it is. */
  function LinearDelay(base: nat, n: nat): nat {
    if n == 0 then 0 else LinearDelay(base, n - 1) + base
  }

  lemma {:induction false} LinearDelayIsProduct(base: nat, n: nat)
    ensures LinearDelay(base, n) == base * n
  {
    if n == 0 {
    } else {
      LinearDelayIsProduct(base, n - 1);
      assert base * n == base * (n - 1) + base;
    }
  }

  function RetryDelay(cfg: Config, reply: Reply, attempt: nat): nat {
    if reply == TooManyRequests then LinearDelay(cfg.retry429BaseMs, attempt + 1) else cfg.retry5xxDelayMs
  }

  function FinalOutcome(reply: Reply): Outcome {
    match reply
    case Success => Succeeded
    case TooManyRequests => RateLimited
    case Transient => ServerError
    case Fatal => Rethrown
  }

  function MaxInvocations(cfg: Config): nat {
    1 + Max(cfg.retry429Count, cfg.retry5xxCount)
  }

  // -- Concurrent callers ------------------------------------------------------------------

  type CallId = nat

  datatype Phase =
    | Limiting
    | Waiting(until: int)
    | Calling
    | Backoff(until: int)
    | Done(outcome: Outcome)

  datatype Call = Call(phase: Phase, attempt: nat, invocations: nat, begunAt: int)

  /**
   `admissions` logs every stamp, `outcomes` every report to the breaker (true for a success), and
   `reporters` the calls that made them.
   */
  datatype System = System(
    cfg: Config,
    clock: int,
    breaker: Breaker,
    calls: map<CallId, Call>,
    admissions: seq<int>,
    outcomes: seq<bool>,
    reporters: seq<CallId>)

  datatype Step =
    | Tick(ms: nat)
    | Begin(c: CallId)
    | Limit(c: CallId, pushDelay: nat)
    | Wake(c: CallId)
    | Settle(c: CallId, reply: Reply)
    | Resume(c: CallId)

  function Init(cfg: Config, clock: int): System {
    System(cfg, clock, Breaker(Closed, 0, 0, []), map[], [], [], [])
  }

  predicate In(s: System, c: CallId, phase: Phase) {
    c in s.calls && s.calls[c].phase == phase
  }

  function SetCall(s: System, c: CallId, call: Call): System {
    s.(calls := s.calls[c := call])
  }

  function DoBegin(s: System, c: CallId): System {
    if c in s.calls then s
    else if Refuses(s.breaker, s.clock) then SetCall(s, c, Call(Done(CircuitOpen), 0, 0, s.clock))
    else SetCall(s, c, Call(Limiting, 0, 0, s.clock)).(breaker := Gate(s.breaker, s.clock))
  }

  function DoLimit(s: System, c: CallId, pushDelay: nat): System {
    if !In(s, c, Limiting) || s.cfg.maxPerSecond == 0 then s
    else if Admits(s.cfg, s.breaker, s.clock) then
      var pushedAt := s.clock + pushDelay;
      SetCall(s, c, s.calls[c].(phase := Calling, invocations := s.calls[c].invocations + 1)).(
        clock := pushedAt,
        breaker := Admit(s.breaker, s.clock, pushedAt),
        admissions := s.admissions + [pushedAt])
    else
      SetCall(s, c, s.calls[c].(phase := Waiting(s.clock + WaitMs(s.breaker, s.clock)))).(
        breaker := Trimmed(s.breaker, s.clock))
  }

  /** Timers may fire early, up to the safety buffer. */
  function DoWake(s: System, c: CallId): System {
    if c in s.calls && s.calls[c].phase.Waiting? && s.clock + SAFETY_MS >= s.calls[c].phase.until
    then SetCall(s, c, s.calls[c].(phase := Limiting)) else s
  }

  function DoSettle(s: System, c: CallId, reply: Reply): System {
    if !In(s, c, Calling) then s
    else
      var call := s.calls[c];
      if reply == Success then
        SetCall(s, c, call.(phase := Done(Succeeded))).(
          breaker := OnSuccess(s.breaker), outcomes := s.outcomes + [true], reporters := s.reporters + [c])
      else if Retries(s.cfg, reply, call.attempt) then
        SetCall(s, c, call.(phase := Backoff(s.clock + RetryDelay(s.cfg, reply, call.attempt)),
                            attempt := call.attempt + 1))
      else
        SetCall(s, c, call.(phase := Done(FinalOutcome(reply)))).(
          breaker := OnFailure(s.cfg, s.breaker, s.clock), outcomes := s.outcomes + [false],
          reporters := s.reporters + [c])
  }

  function DoResume(s: System, c: CallId): System {
    if c in s.calls && s.calls[c].phase.Backoff? && s.clock >= s.calls[c].phase.until
    then SetCall(s, c, s.calls[c].(phase := Limiting)) else s
  }

  function Apply(s: System, step: Step): System {
    match step
    case Tick(ms) => s.(clock := s.clock + ms)
    case Begin(c) => DoBegin(s, c)
    case Limit(c, pushDelay) => DoLimit(s, c, pushDelay)
    case Wake(c) => DoWake(s, c)
    case Settle(c, reply) => DoSettle(s, c, reply)
    case Resume(c) => DoResume(s, c)
  }

  function Run(s: System, steps: seq<Step>): System
    decreases |steps|
  {
    if steps == [] then s else Run(Apply(s, steps[0]), steps[1..])
  }

  // -- The breaker -------------------------------------------------------------------------

  /** Length of the run of failures at the end of the log. */
  function TrailingFailures(outcomes: seq<bool>): nat {
    if outcomes == [] || outcomes[|outcomes| - 1] then 0
    else 1 + TrailingFailures(outcomes[..|outcomes| - 1])
  }

  ghost predicate HealthyBreaker(cfg: Config, b: Breaker, outcomes: seq<bool>) {
    && b.failureCount == TrailingFailures(outcomes)
    && (b.state == Closed ==> b.failureCount < cfg.failureThreshold)
    && (b.state != Closed ==> outcomes != [])
  }

  ghost predicate Healthy(s: System) {
    HealthyBreaker(s.cfg, s.breaker, s.outcomes)
  }

  lemma SuccessKeepsHealthy(cfg: Config, b: Breaker, outcomes: seq<bool>)
    requires ValidConfig(cfg) && HealthyBreaker(cfg, b, outcomes)
    ensures HealthyBreaker(cfg, OnSuccess(b), outcomes + [true])
  {}

  lemma FailureKeepsHealthy(cfg: Config, b: Breaker, outcomes: seq<bool>, now: int)
    requires ValidConfig(cfg) && HealthyBreaker(cfg, b, outcomes)
    ensures HealthyBreaker(cfg, OnFailure(cfg, b, now), outcomes + [false])
  {
    assert (outcomes + [false])[..|outcomes|] == outcomes;
  }

  lemma SettleKeepsHealthy(s: System, c: CallId, reply: Reply)
    requires ValidConfig(s.cfg) && Healthy(s)
    ensures Healthy(DoSettle(s, c, reply)) && DoSettle(s, c, reply).cfg == s.cfg
  {
    SuccessKeepsHealthy(s.cfg, s.breaker, s.outcomes);
    FailureKeepsHealthy(s.cfg, s.breaker, s.outcomes, s.clock);
  }

  /** Only Begin and Settle touch what Healthy speaks of. */
  lemma LimitLeavesBreaker(s: System, c: CallId, pushDelay: nat)
    ensures
      var s' := DoLimit(s, c, pushDelay);
      s'.cfg == s.cfg && s'.outcomes == s.outcomes && s'.breaker.(stamps := s.breaker.stamps) == s.breaker
  {}

  lemma StepKeepsHealthy(s: System, step: Step)
    requires ValidConfig(s.cfg) && Healthy(s)
    ensures Healthy(Apply(s, step)) && Apply(s, step).cfg == s.cfg
  {
    match step
    case Settle(c, reply) => SettleKeepsHealthy(s, c, reply);
    case Limit(c, pushDelay) => LimitLeavesBreaker(s, c, pushDelay);
    case Begin(c) => assert DoBegin(s, c).outcomes == s.outcomes;
    case _ =>
  }

  lemma {:induction false} RunKeepsHealthy(s: System, steps: seq<Step>)
    requires ValidConfig(s.cfg) && Healthy(s)
    ensures Healthy(Run(s, steps)) && Run(s, steps).cfg == s.cfg
    decreases |steps|
  {
    if steps == [] {
    } else {
      StepKeepsHealthy(s, steps[0]);
      RunKeepsHealthy(Apply(s, steps[0]), steps[1..]);
    }
  }

  /** The failure count is the trailing run of failed calls; a closed breaker is below its threshold. */
  lemma FailureCountIsTrailingRun(cfg: Config, clock: int, steps: seq<Step>)
    requires ValidConfig(cfg)
    ensures
      var s := Run(Init(cfg, clock), steps);
      && s.breaker.failureCount == TrailingFailures(s.outcomes)
      && (s.breaker.state == Closed ==> s.breaker.failureCount < cfg.failureThreshold)
  {
    RunKeepsHealthy(Init(cfg, clock), steps);
  }

  lemma {:induction false} TrailingFit(outcomes: seq<bool>)
    ensures TrailingFailures(outcomes) <= |outcomes|
  {
    if outcomes == [] {
    } else {
      TrailingFit(outcomes[..|outcomes| - 1]);
    }
  }

  lemma {:induction false} TrailingAreFailures(outcomes: seq<bool>, i: nat)
    requires TrailingFailures(outcomes) <= |outcomes|
    requires |outcomes| - TrailingFailures(outcomes) <= i < |outcomes|
    ensures !outcomes[i]
  {
    var n := |outcomes| - 1;
    if i < n {
      TrailingFit(outcomes[..n]);
      TrailingAreFailures(outcomes[..n], i);
    }
  }

  /** The last failures of a log, if there are that many. */
  lemma LastAreFailures(outcomes: seq<bool>, most: nat)
    requires most <= TrailingFailures(outcomes)
    ensures most <= |outcomes|
    ensures forall i :: |outcomes| - most <= i < |outcomes| ==> !outcomes[i]
  {
    TrailingFit(outcomes);
    forall i | |outcomes| - most <= i < |outcomes| ensures !outcomes[i] {
      TrailingAreFailures(outcomes, i);
    }
  }

  lemma ClosedLeavesFor(s: System, step: Step)
    requires s.breaker.state == Closed
    ensures
      var b := Apply(s, step).breaker;
      && b.state != HalfOpen
      && (b.state == Open ==>
            b.failureCount >= s.cfg.failureThreshold && b.nextAttemptTime == s.clock + s.cfg.resetTimeoutMs)
  {}

  /** CLOSED is left for OPEN exactly when a report completes a run of `failureThreshold` failures. */
  lemma OpensAfterThresholdFailures(s: System, step: Step)
    requires ValidConfig(s.cfg) && Healthy(s) && s.breaker.state == Closed
    ensures
      var s' := Apply(s, step);
      && s'.breaker.state != HalfOpen
      && (s'.breaker.state == Open <==> TrailingFailures(s'.outcomes) >= s.cfg.failureThreshold)
      && (s'.breaker.state == Open ==>
            && s.cfg.failureThreshold <= |s'.outcomes|
            && (forall i :: |s'.outcomes| - s.cfg.failureThreshold <= i < |s'.outcomes| ==> !s'.outcomes[i])
            && s'.breaker.nextAttemptTime == s.clock + s.cfg.resetTimeoutMs)
  {
    StepKeepsHealthy(s, step);
    ClosedLeavesFor(s, step);
    if Apply(s, step).breaker.state == Open {
      LastAreFailures(Apply(s, step).outcomes, s.cfg.failureThreshold);
    }
  }

  lemma {:induction false} ClockOnlyAdvances(s: System, steps: seq<Step>)
    ensures s.clock <= Run(s, steps).clock
    decreases |steps|
  {
    if steps == [] {
    } else {
      ClockOnlyAdvances(Apply(s, steps[0]), steps[1..]);
    }
  }

  lemma {:induction false} CallsRemain(s: System, steps: seq<Step>, c: CallId)
    requires c in s.calls
    ensures c in Run(s, steps).calls
    ensures s.calls[c].phase.Done? ==> Run(s, steps).calls[c] == s.calls[c]
    decreases |steps|
  {
    if steps == [] {
    } else {
      CallsRemain(Apply(s, steps[0]), steps[1..], c);
    }
  }

  /**
   Once open, the breaker stays open until its reset time, whatever the calls already in flight
   report, and every call begun before that is refused without being invoked.
   */
  lemma {:induction false} OpenStaysOpen(s: System, steps: seq<Step>, c: CallId)
    requires s.breaker.state == Open
    requires Run(s, steps).clock < s.breaker.nextAttemptTime
    ensures
      var s' := Run(s, steps);
      && s'.breaker.state == Open
      && s'.breaker.nextAttemptTime == s.breaker.nextAttemptTime
      && (c in s'.calls && c !in s.calls ==>
            s'.calls[c].phase == Done(CircuitOpen) && s'.calls[c].invocations == 0)
    decreases |steps|
  {
    if steps == [] {
    } else {
      ClockOnlyAdvances(s, steps);
      var s1 := Apply(s, steps[0]);
      ClockOnlyAdvances(s1, steps[1..]);
      OpenStaysOpen(s1, steps[1..], c);
      if c in s1.calls && c !in s.calls {
        CallsRemain(s1, steps[1..], c);
      }
    }
  }

  // -- One report per call -----------------------------------------------------------------

  predicate Reported(call: Call) {
    call.phase.Done? && call.phase.outcome != CircuitOpen
  }

  /** Retries used, plus the invocation that is still to come or under way. */
  predicate WithinBudget(cfg: Config, call: Call) {
    && call.attempt <= Max(cfg.retry429Count, cfg.retry5xxCount)
    && match call.phase
       case Limiting => call.invocations == call.attempt
       case Waiting(_) => call.invocations == call.attempt
       case Backoff(_) => call.invocations == call.attempt
       case Calling => call.invocations == call.attempt + 1
       case Done(CircuitOpen) => call.invocations == 0
       case Done(_) => call.invocations == call.attempt + 1
  }

  /** The report is that of a call that has ended, and says how. */
  predicate ReportOk(calls: map<CallId, Call>, c: CallId, ok: bool) {
    c in calls && Reported(calls[c]) && (ok <==> calls[c].phase.outcome == Succeeded)
  }

  ghost predicate Balanced(s: System) {
    && (forall c :: c in s.calls ==> WithinBudget(s.cfg, s.calls[c]))
    && |s.reporters| == |s.outcomes|
    && (forall i :: 0 <= i < |s.reporters| ==> ReportOk(s.calls, s.reporters[i], s.outcomes[i]))
    && (forall i, j :: 0 <= i < j < |s.reporters| ==> s.reporters[i] != s.reporters[j])
    && (forall c :: c in s.calls && Reported(s.calls[c]) ==> c in s.reporters)
  }

  /** A call that moves and does not end reports nothing. */
  lemma CallKeepsBalance(s: System, s': System, c: CallId, call: Call)
    requires Balanced(s) && s'.cfg == s.cfg && s'.calls == s.calls[c := call]
    requires WithinBudget(s.cfg, call) && !Reported(call)
    requires !(c in s.calls && Reported(s.calls[c]))
    requires s'.outcomes == s.outcomes && s'.reporters == s.reporters
    ensures Balanced(s')
  {
    forall i | 0 <= i < |s'.reporters| ensures ReportOk(s'.calls, s'.reporters[i], s'.outcomes[i]) {
      assert ReportOk(s.calls, s.reporters[i], s.outcomes[i]);
    }
  }

  /** A call that ends reports once. */
  lemma ReportKeepsBalance(s: System, s': System, c: CallId, call: Call, ok: bool)
    requires Balanced(s) && s'.cfg == s.cfg && s'.calls == s.calls[c := call]
    requires WithinBudget(s.cfg, call) && ReportOk(s'.calls, c, ok)
    requires !(c in s.calls && Reported(s.calls[c]))
    requires s'.outcomes == s.outcomes + [ok] && s'.reporters == s.reporters + [c]
    ensures Balanced(s')
  {
    forall i | 0 <= i < |s.reporters| ensures s.reporters[i] != c
      ensures ReportOk(s'.calls, s.reporters[i], s.outcomes[i])
    {
      assert ReportOk(s.calls, s.reporters[i], s.outcomes[i]);
    }
    forall v | v in s'.calls && Reported(s'.calls[v]) ensures v in s'.reporters {
      if v != c {
        assert v in s.reporters;
      } else {
        assert s'.reporters[|s.reporters|] == c;
      }
    }
  }

  lemma SettleKeepsBalance(s: System, c: CallId, reply: Reply)
    requires Balanced(s)
    ensures Balanced(DoSettle(s, c, reply)) && DoSettle(s, c, reply).cfg == s.cfg
  {
    if In(s, c, Calling) {
      assert WithinBudget(s.cfg, s.calls[c]);
      var s' := DoSettle(s, c, reply);
      if Reported(s'.calls[c]) {
        ReportKeepsBalance(s, s', c, s'.calls[c], reply == Success);
      } else {
        CallKeepsBalance(s, s', c, s'.calls[c]);
      }
    }
  }

  lemma LimitKeepsBalance(s: System, c: CallId, pushDelay: nat)
    requires Balanced(s)
    ensures Balanced(DoLimit(s, c, pushDelay)) && DoLimit(s, c, pushDelay).cfg == s.cfg
  {
    if In(s, c, Limiting) && s.cfg.maxPerSecond > 0 {
      assert WithinBudget(s.cfg, s.calls[c]);
      var s' := DoLimit(s, c, pushDelay);
      CallKeepsBalance(s, s', c, s'.calls[c]);
    }
  }

  lemma BeginKeepsBalance(s: System, c: CallId)
    requires Balanced(s)
    ensures Balanced(DoBegin(s, c)) && DoBegin(s, c).cfg == s.cfg
  {
    if c !in s.calls {
      CallKeepsBalance(s, DoBegin(s, c), c, DoBegin(s, c).calls[c]);
    }
  }

  lemma TimerKeepsBalance(s: System, s': System, c: CallId)
    requires Balanced(s) && (s' == DoWake(s, c) || s' == DoResume(s, c))
    ensures Balanced(s') && s'.cfg == s.cfg
  {
    if s' != s {
      assert WithinBudget(s.cfg, s.calls[c]);
      CallKeepsBalance(s, s', c, s'.calls[c]);
    }
  }

  lemma StepKeepsBalance(s: System, step: Step)
    requires Balanced(s)
    ensures Balanced(Apply(s, step)) && Apply(s, step).cfg == s.cfg
  {
    match step
    case Tick(ms) =>
    case Begin(c) => BeginKeepsBalance(s, c);
    case Limit(c, pushDelay) => LimitKeepsBalance(s, c, pushDelay);
    case Wake(c) => TimerKeepsBalance(s, DoWake(s, c), c);
    case Settle(c, reply) => SettleKeepsBalance(s, c, reply);
    case Resume(c) => TimerKeepsBalance(s, DoResume(s, c), c);
  }

  lemma {:induction false} RunKeepsBalance(s: System, steps: seq<Step>)
    requires Balanced(s)
    ensures Balanced(Run(s, steps)) && Run(s, steps).cfg == s.cfg
    decreases |steps|
  {
    if steps == [] {
    } else {
      StepKeepsBalance(s, steps[0]);
      RunKeepsBalance(Apply(s, steps[0]), steps[1..]);
    }
  }

  /**
   The reports to the breaker are those of the admitted calls that have ended, one of each, saying how
   it ended, after at most 1 + max(retries) invocations; a refused call never invokes or reports.
   */
  lemma OneReportPerCall(cfg: Config, clock: int, steps: seq<Step>, c: CallId)
    requires c in Run(Init(cfg, clock), steps).calls
    ensures
      var s := Run(Init(cfg, clock), steps);
      && |s.reporters| == |s.outcomes|
      && (c in s.reporters <==> Reported(s.calls[c]))
      && (forall i, j :: 0 <= i < j < |s.reporters| ==> s.reporters[i] != s.reporters[j])
      && (forall i :: 0 <= i < |s.reporters| && s.reporters[i] == c ==>
            (s.outcomes[i] <==> s.calls[c].phase.outcome == Succeeded))
      && s.calls[c].invocations <= MaxInvocations(cfg)
      && (Reported(s.calls[c]) ==> 1 <= s.calls[c].invocations)
      && (In(s, c, Done(CircuitOpen)) ==> s.calls[c].invocations == 0)
  {
    RunKeepsBalance(Init(cfg, clock), steps);
    var s := Run(Init(cfg, clock), steps);
    assert WithinBudget(cfg, s.calls[c]);
    forall i | 0 <= i < |s.reporters| && s.reporters[i] == c
      ensures Reported(s.calls[c]) && (s.outcomes[i] <==> s.calls[c].phase.outcome == Succeeded)
    {
      assert ReportOk(s.calls, s.reporters[i], s.outcomes[i]);
    }
  }

  // -- The sliding window ------------------------------------------------------------------

  ghost predicate Sorted(times: seq<int>) {
    forall i, j :: 0 <= i < j < |times| ==> times[i] <= times[j]
  }

  /** No two admissions that are `most` positions apart share a window. */
  ghost predicate Spaced(times: seq<int>, most: nat) {
    forall i, j :: 0 <= i && j < |times| && j == i + most ==> times[i] + WINDOW_MS <= times[j]
  }

  /** `kept` are the latest admissions, and everything dropped left the window for good. */
  ghost predicate Kept(admissions: seq<int>, kept: seq<int>, clock: int) {
    && |kept| <= |admissions|
    && kept == admissions[|admissions| - |kept|..]
    && (forall i :: 0 <= i < |admissions| - |kept| ==> admissions[i] <= clock - WINDOW_MS)
  }

  ghost predicate UpTo(times: seq<int>, clock: int) {
    forall i :: 0 <= i < |times| ==> times[i] <= clock
  }

  ghost predicate WindowOk(admissions: seq<int>, stamps: seq<int>, clock: int, most: nat) {
    && Sorted(admissions)
    && UpTo(admissions, clock)
    && |stamps| <= most
    && Kept(admissions, stamps, clock)
    && Spaced(admissions, most)
  }

  ghost predicate Windowed(s: System) {
    WindowOk(s.admissions, s.breaker.stamps, s.clock, s.cfg.maxPerSecond)
  }

  /** The filter keeps only what is after the start of the window. */
  lemma {:induction false} RecentIsLater(stamps: seq<int>, windowStart: int)
    ensures forall i :: 0 <= i < |Recent(stamps, windowStart)| ==> Recent(stamps, windowStart)[i] > windowStart
  {
    if stamps == [] {
    } else {
      RecentIsLater(stamps[..|stamps| - 1], windowStart);
    }
  }

  lemma {:induction false} NothingRecent(stamps: seq<int>, windowStart: int)
    requires forall i :: 0 <= i < |stamps| ==> stamps[i] <= windowStart
    ensures Recent(stamps, windowStart) == []
  {
    if stamps == [] {
    } else {
      NothingRecent(stamps[..|stamps| - 1], windowStart);
    }
  }

  /** On a sorted list the filter keeps a suffix, and drops what is not after the start of the window. */
  lemma {:induction false} RecentIsSuffix(stamps: seq<int>, windowStart: int)
    requires Sorted(stamps)
    ensures
      var r := Recent(stamps, windowStart);
      && r == stamps[|stamps| - |r|..]
      && (forall i :: 0 <= i < |stamps| - |r| ==> stamps[i] <= windowStart)
      && (forall i :: 0 <= i < |r| ==> r[i] > windowStart)
  {
    RecentIsLater(stamps, windowStart);
    if stamps != [] {
      var n := |stamps| - 1;
      if stamps[n] <= windowStart {
        NothingRecent(stamps, windowStart);
      } else {
        RecentIsSuffix(stamps[..n], windowStart);
      }
    }
  }

  lemma TrimKeepsKept(a: seq<int>, stamps: seq<int>, clock: int)
    requires Sorted(a) && Kept(a, stamps, clock)
    ensures Kept(a, Recent(stamps, clock - WINDOW_MS), clock)
  {
    RecentIsSuffix(stamps, clock - WINDOW_MS);
    var r := Recent(stamps, clock - WINDOW_MS);
    assert r == a[|a| - |r|..];
    forall i | 0 <= i < |a| - |r| ensures a[i] <= clock - WINDOW_MS {
      if i >= |a| - |stamps| {
        assert a[i] == stamps[i - (|a| - |stamps|)];
      }
    }
  }

  lemma PushKeepsSpacing(a: seq<int>, kept: seq<int>, clock: int, t: int, most: nat)
    requires Kept(a, kept, clock) && Spaced(a, most) && |kept| < most && clock <= t
    ensures Spaced(a + [t], most)
  {
    var b := a + [t];
    forall i, j | 0 <= i && j < |b| && j == i + most ensures b[i] + WINDOW_MS <= b[j] {
      if j == |a| {
        assert i < |a| - |kept|;
      } else {
        assert a[i] + WINDOW_MS <= a[j];
      }
    }
  }

  lemma PushKeepsKept(a: seq<int>, kept: seq<int>, clock: int, t: int)
    requires Kept(a, kept, clock) && clock <= t
    ensures Kept(a + [t], kept + [t], t)
  {}

  lemma TrimKeepsWindow(a: seq<int>, stamps: seq<int>, clock: int, most: nat)
    requires WindowOk(a, stamps, clock, most)
    ensures WindowOk(a, Recent(stamps, clock - WINDOW_MS), clock, most)
  {
    TrimKeepsKept(a, stamps, clock);
  }

  lemma PushKeepsOrder(a: seq<int>, clock: int, t: int)
    requires Sorted(a) && UpTo(a, clock) && clock <= t
    ensures Sorted(a + [t]) && UpTo(a + [t], t)
  {}

  lemma PushKeepsWindow(a: seq<int>, kept: seq<int>, clock: int, t: int, most: nat)
    requires WindowOk(a, kept, clock, most) && |kept| < most && clock <= t
    ensures WindowOk(a + [t], kept + [t], t, most)
  {
    PushKeepsOrder(a, clock, t);
    PushKeepsSpacing(a, kept, clock, t, most);
    PushKeepsKept(a, kept, clock, t);
  }

  /** What a pass of the limiter does to the log, the stamps and the clock: nothing, a trim, or a stamp. */
  datatype Move = Stays | Trims | Pushes

  ghost predicate Moved(s: System, s': System, move: Move, t: int) {
    var kept := Recent(s.breaker.stamps, s.clock - WINDOW_MS);
    match move
    case Stays => s' == s
    case Trims => s'.clock == s.clock && s'.admissions == s.admissions && s'.breaker.stamps == kept
    case Pushes =>
      && s.clock <= s'.clock == t && |kept| < s.cfg.maxPerSecond
      && s'.admissions == s.admissions + [t] && s'.breaker.stamps == kept + [t]
  }

  lemma LimitMoves(s: System, c: CallId, pushDelay: nat) returns (move: Move)
    ensures Moved(s, DoLimit(s, c, pushDelay), move, s.clock + pushDelay) && DoLimit(s, c, pushDelay).cfg == s.cfg
  {
    move :=
      if DoLimit(s, c, pushDelay) == s then Stays
      else if Admits(s.cfg, s.breaker, s.clock) then Pushes
      else Trims;
  }

  lemma MoveKeepsWindow(s: System, s': System, move: Move, t: int)
    requires Windowed(s) && Moved(s, s', move, t) && s'.cfg == s.cfg
    ensures Windowed(s')
  {
    var kept := Recent(s.breaker.stamps, s.clock - WINDOW_MS);
    match move
    case Stays =>
    case Trims => TrimKeepsWindow(s.admissions, s.breaker.stamps, s.clock, s.cfg.maxPerSecond);
    case Pushes =>
      TrimKeepsWindow(s.admissions, s.breaker.stamps, s.clock, s.cfg.maxPerSecond);
      PushKeepsWindow(s.admissions, kept, s.clock, t, s.cfg.maxPerSecond);
  }

  lemma LimitKeepsWindow(s: System, c: CallId, pushDelay: nat)
    requires Windowed(s)
    ensures Windowed(DoLimit(s, c, pushDelay)) && DoLimit(s, c, pushDelay).cfg == s.cfg
  {
    var move := LimitMoves(s, c, pushDelay);
    MoveKeepsWindow(s, DoLimit(s, c, pushDelay), move, s.clock + pushDelay);
  }

  lemma OthersKeepWindow(s: System, step: Step)
    requires !step.Limit?
    ensures
      var s' := Apply(s, step);
      s'.cfg == s.cfg && s'.admissions == s.admissions && s'.breaker.stamps == s.breaker.stamps && s.clock <= s'.clock
  {}

  lemma StepKeepsWindow(s: System, step: Step)
    requires Windowed(s)
    ensures Windowed(Apply(s, step)) && Apply(s, step).cfg == s.cfg
  {
    match step
    case Limit(c, pushDelay) => LimitKeepsWindow(s, c, pushDelay);
    case _ => OthersKeepWindow(s, step);
  }

  lemma {:induction false} RunKeepsWindow(s: System, steps: seq<Step>)
    requires Windowed(s)
    ensures Windowed(Run(s, steps)) && Run(s, steps).cfg == s.cfg
    decreases |steps|
  {
    if steps == [] {
    } else {
      StepKeepsWindow(s, steps[0]);
      RunKeepsWindow(Apply(s, steps[0]), steps[1..]);
    }
  }

  /** Admissions in the window [from, from + 1000). */
  function CountWithin(times: seq<int>, from: int): nat {
    if times == [] then 0
    else
      var n := |times| - 1;
      CountWithin(times[..n], from) + if from <= times[n] < from + WINDOW_MS then 1 else 0
  }

  lemma {:induction false} NoneWithin(times: seq<int>, from: int)
    requires forall k :: 0 <= k < |times| ==> times[k] < from
    ensures CountWithin(times, from) == 0
  {
    if times == [] {
    } else {
      NoneWithin(times[..|times| - 1], from);
    }
  }

  /** A window that reaches to the end of the list holds a suffix of it. */
  lemma {:induction false} WindowIsBlock(times: seq<int>, from: int)
    requires Sorted(times)
    requires times != [] ==> times[|times| - 1] < from + WINDOW_MS
    ensures CountWithin(times, from) <= |times|
    ensures forall k :: |times| - CountWithin(times, from) <= k < |times| ==> from <= times[k]
    ensures forall k :: 0 <= k < |times| - CountWithin(times, from) ==> times[k] < from
  {
    if times == [] {
    } else {
      var n := |times| - 1;
      if n > 0 {
        assert times[n - 1] <= times[n];
      }
      WindowIsBlock(times[..n], from);
      if times[n] < from {
        NoneWithin(times, from);
      }
    }
  }

  /** In a sorted list with spacing, the window holds a contiguous block of at most `most` entries. */
  lemma {:induction false} SpacingBoundsCount(times: seq<int>, from: int, most: nat)
    requires Sorted(times)
    requires Spaced(times, most)
    ensures CountWithin(times, from) <= most
  {
    if times == [] {
    } else {
      var n := |times| - 1;
      var front := times[..n];
      assert Spaced(front, most) by {
        forall i, j | 0 <= i && j < |front| && j == i + most ensures front[i] + WINDOW_MS <= front[j] {
          assert times[i] + WINDOW_MS <= times[j];
        }
      }
      SpacingBoundsCount(front, from, most);
      if from <= times[n] < from + WINDOW_MS {
        if most <= n {
          assert times[n - most] + WINDOW_MS <= times[n];
        }
        WindowIsBlock(front, from);
      } else if times[n] < from {
        NoneWithin(times, from);
      }
    }
  }

  /** Every window of one second holds at most `maxPerSecond` admissions, and the stamp list stays bounded. */
  lemma RateIsBounded(cfg: Config, clock: int, steps: seq<Step>, from: int)
    ensures
      var s := Run(Init(cfg, clock), steps);
      && CountWithin(s.admissions, from) <= cfg.maxPerSecond
      && Sorted(s.breaker.stamps)
      && |s.breaker.stamps| <= cfg.maxPerSecond
  {
    RunKeepsWindow(Init(cfg, clock), steps);
    var s := Run(Init(cfg, clock), steps);
    SpacingBoundsCount(s.admissions, from, cfg.maxPerSecond);
  }

  lemma DropsFirst(stamps: seq<int>, windowStart: int)
    requires Sorted(stamps) && stamps != [] && stamps[0] <= windowStart
    ensures |Recent(stamps, windowStart)| < |stamps|
  {
    RecentIsSuffix(stamps, windowStart);
  }

  /** Waiting out the delay, early by at most the safety buffer, frees a place. */
  lemma WaitFreesPlace(cfg: Config, b: Breaker, now: int, later: int)
    requires cfg.maxPerSecond > 0 && Sorted(b.stamps) && |b.stamps| <= cfg.maxPerSecond
    requires !Admits(cfg, b, now) && now + WaitMs(b, now) <= later + SAFETY_MS
    ensures Admits(cfg, Trimmed(b, now), later)
  {
    var kept := Recent(b.stamps, now - WINDOW_MS);
    assert Sorted(kept) by {
      RecentIsSuffix(b.stamps, now - WINDOW_MS);
    }
    DropsFirst(kept, later - WINDOW_MS);
  }

  predicate Sleeping(s: System, c: CallId, until: int) {
    In(s, c, Waiting(until)) || (In(s, c, Limiting) && until <= s.clock + SAFETY_MS)
  }

  /** While nobody passes the limiter, the stamps stay, and a waiting caller wakes no earlier than it may. */
  lemma {:induction false} SleepsUntil(s: System, steps: seq<Step>, c: CallId, until: int)
    requires Sleeping(s, c, until)
    requires forall i :: 0 <= i < |steps| ==> !steps[i].Limit?
    ensures Sleeping(Run(s, steps), c, until)
    ensures Run(s, steps).breaker.stamps == s.breaker.stamps && Run(s, steps).cfg == s.cfg
    decreases |steps|
  {
    if steps == [] {
    } else {
      var s1 := Apply(s, steps[0]);
      assert !steps[0].Limit?;
      OthersKeepWindow(s, steps[0]);
      assert Sleeping(s1, c, until);
      SleepsUntil(s1, steps[1..], c, until);
    }
  }

  /** A caller that found the window full, and that nobody overtook, is admitted when it wakes. */
  lemma LoneCallerWaitsOnce(s: System, c: CallId, d1: nat, steps: seq<Step>, d2: nat)
    requires Windowed(s) && s.cfg.maxPerSecond > 0 && In(s, c, Limiting)
    requires !Admits(s.cfg, s.breaker, s.clock)
    requires forall i :: 0 <= i < |steps| ==> !steps[i].Limit?
    ensures DoLimit(s, c, d1).calls[c].phase.Waiting?
    ensures
      var later := Run(DoLimit(s, c, d1), steps);
      In(later, c, Limiting) ==> In(DoLimit(later, c, d2), c, Calling)
  {
    var waiting := DoLimit(s, c, d1);
    var until := s.clock + WaitMs(s.breaker, s.clock);
    assert Sleeping(waiting, c, until);
    SleepsUntil(waiting, steps, c, until);
    var later := Run(waiting, steps);
    if In(later, c, Limiting) {
      WaitFreesPlace(s.cfg, s.breaker, s.clock, later.clock);
      assert Recent(later.breaker.stamps, later.clock - WINDOW_MS)
          == Recent(Trimmed(s.breaker, s.clock).stamps, later.clock - WINDOW_MS);
    }
  }

  // -- The object --------------------------------------------------------------------------

  /** A caller that nobody overtakes passes the limiter at once, or when its one wait is over. */
  function Limited(cfg: Config, b: Breaker, now: int): (Breaker, int)
    requires cfg.maxPerSecond > 0
  {
    if Admits(cfg, b, now) then (Admit(b, now, now), now)
    else
      var later := now + WaitMs(b, now);
      (Admit(Trimmed(b, now), later, later), later)
  }

  datatype Execution = Execution(breaker: Breaker, outcome: Outcome, invocations: nat, clock: int)

  /** A caller that nobody overtakes, from its invocation number `attempt` on; `fn(k)` answers number k. */
  function Attempted(cfg: Config, b: Breaker, fn: nat -> Reply, attempt: nat, now: int): Execution
    requires cfg.maxPerSecond > 0
    decreases Max(cfg.retry429Count, cfg.retry5xxCount) + 1 - attempt
  {
    var reply := fn(attempt);
    if Retries(cfg, reply, attempt) then
      var (b', later) := Limited(cfg, b, now + RetryDelay(cfg, reply, attempt));
      Attempted(cfg, b', fn, attempt + 1, later)
    else
      var reported := if reply == Success then OnSuccess(b) else OnFailure(cfg, b, now);
      Execution(reported, FinalOutcome(reply), attempt + 1, now)
  }

  /** The number of the first reply that is not retried. */
  function LastAttempt(cfg: Config, fn: nat -> Reply, attempt: nat): (last: nat)
    requires attempt < MaxInvocations(cfg)
    ensures attempt <= last < MaxInvocations(cfg) && !Retries(cfg, fn(last), last)
    ensures forall k :: attempt <= k < last ==> Retries(cfg, fn(k), k)
    decreases MaxInvocations(cfg) - attempt
  {
    if Retries(cfg, fn(attempt), attempt) then LastAttempt(cfg, fn, attempt + 1) else attempt
  }

  lemma {:induction false} InvocationsEnd(cfg: Config, b: Breaker, fn: nat -> Reply, attempt: nat, now: int)
    requires cfg.maxPerSecond > 0 && attempt < MaxInvocations(cfg)
    ensures
      var e := Attempted(cfg, b, fn, attempt, now);
      var last := LastAttempt(cfg, fn, attempt);
      e.invocations == last + 1 && e.outcome == FinalOutcome(fn(last))
    decreases MaxInvocations(cfg) - attempt
  {
    var reply := fn(attempt);
    if Retries(cfg, reply, attempt) {
      var (b', later) := Limited(cfg, b, now + RetryDelay(cfg, reply, attempt));
      InvocationsEnd(cfg, b', fn, attempt + 1, later);
    }
  }

  lemma {:induction false} AttemptedEnds(cfg: Config, b: Breaker, fn: nat -> Reply, attempt: nat, now: int)
    requires cfg.maxPerSecond > 0 && !Retries(cfg, fn(attempt), attempt)
    ensures
      var reported := if fn(attempt) == Success then OnSuccess(b) else OnFailure(cfg, b, now);
      Attempted(cfg, b, fn, attempt, now) == Execution(reported, FinalOutcome(fn(attempt)), attempt + 1, now)
  {}

  lemma {:induction false} AttemptedUnfolds(cfg: Config, b: Breaker, fn: nat -> Reply, attempt: nat, now: int)
    requires cfg.maxPerSecond > 0 && Retries(cfg, fn(attempt), attempt)
    ensures
      var (b', later) := Limited(cfg, b, now + RetryDelay(cfg, fn(attempt), attempt));
      Attempted(cfg, b, fn, attempt, now) == Attempted(cfg, b', fn, attempt + 1, later)
  {}

  lemma AttemptedAfter(cfg: Config, b: Breaker, fn: nat -> Reply, attempt: nat, now: int, b': Breaker, later: int)
    requires cfg.maxPerSecond > 0 && Retries(cfg, fn(attempt), attempt)
    requires (b', later) == Limited(cfg, b, now + RetryDelay(cfg, fn(attempt), attempt))
    ensures Attempted(cfg, b', fn, attempt + 1, later) == Attempted(cfg, b, fn, attempt, now)
  {
    AttemptedUnfolds(cfg, b, fn, attempt, now);
  }

  predicate HearsOnce(cfg: Config, b: Breaker, e: Execution) {
    var heard := b.(stamps := e.breaker.stamps);
    e.breaker == if e.outcome == Succeeded then OnSuccess(heard) else OnFailure(cfg, heard, e.clock)
  }

  lemma LimiterIsSilent(cfg: Config, b: Breaker, now: int, e: Execution)
    requires cfg.maxPerSecond > 0 && HearsOnce(cfg, Limited(cfg, b, now).0, e)
    ensures HearsOnce(cfg, b, e)
  {}

  lemma {:induction false} BreakerHearsOnce(cfg: Config, b: Breaker, fn: nat -> Reply, attempt: nat, now: int)
    requires cfg.maxPerSecond > 0
    ensures HearsOnce(cfg, b, Attempted(cfg, b, fn, attempt, now))
    decreases Max(cfg.retry429Count, cfg.retry5xxCount) + 1 - attempt
  {
    if Retries(cfg, fn(attempt), attempt) {
      var resumed := now + RetryDelay(cfg, fn(attempt), attempt);
      var (b', later) := Limited(cfg, b, resumed);
      BreakerHearsOnce(cfg, b', fn, attempt + 1, later);
      AttemptedUnfolds(cfg, b, fn, attempt, now);
      LimiterIsSilent(cfg, b, resumed, Attempted(cfg, b, fn, attempt, now));
    }
  }

  /** A reply that ends an execution, and the outcome that it has. */
  ghost predicate Ends(cfg: Config, reply: Reply, attempt: nat, outcome: Outcome) {
    match reply
    case Success => outcome == Succeeded
    case TooManyRequests => cfg.retry429Count <= attempt && outcome == RateLimited
    case Transient => cfg.retry5xxCount <= attempt && outcome == ServerError
    case Fatal => outcome == Rethrown
  }

  /** What a report leaves of a circuit: a success closes it unless it is OPEN, a failure counts and may open it. */
  ghost predicate HeardAt(cfg: Config, b: Breaker, b': Breaker, ok: bool, clock: int) {
    if ok then
      b'.failureCount == 0 && b'.nextAttemptTime == b.nextAttemptTime
      && b'.state == if b.state == Open then Open else Closed
    else if b.state == HalfOpen || (b.state == Closed && cfg.failureThreshold <= b.failureCount + 1) then
      b'.failureCount == b.failureCount + 1 && b'.state == Open && b'.nextAttemptTime == clock + cfg.resetTimeoutMs
    else
      b'.failureCount == b.failureCount + 1 && b'.state == b.state && b'.nextAttemptTime == b.nextAttemptTime
  }

  /**
   The last invocation is the first whose reply is not retried; the outcome is that of this reply, and
   the breaker hears of it alone.
   */
  lemma FirstFinalReplyDecides(cfg: Config, b: Breaker, fn: nat -> Reply, now: int)
    requires cfg.maxPerSecond > 0
    ensures
      var e := Attempted(cfg, b, fn, 0, now);
      && 1 <= e.invocations <= 1 + Max(cfg.retry429Count, cfg.retry5xxCount)
      && Ends(cfg, fn(e.invocations - 1), e.invocations - 1, e.outcome)
      && (forall k, o :: 0 <= k < e.invocations - 1 ==> !Ends(cfg, fn(k), k, o))
      && HeardAt(cfg, b, e.breaker, e.outcome == Succeeded, e.clock)
  {
    InvocationsEnd(cfg, b, fn, 0, now);
    BreakerHearsOnce(cfg, b, fn, 0, now);
  }

  // The same execution as steps of the system, so that what holds over every run holds for the object.

  lemma {:induction false} RunThen(s: System, first: seq<Step>, second: seq<Step>)
    ensures Run(s, first + second) == Run(Run(s, first), second)
    decreases |first|
  {
    if first == [] {
      assert first + second == second;
    } else {
      assert (first + second)[1..] == first[1..] + second;
      RunThen(Apply(s, first[0]), first[1..], second);
    }
  }

  lemma RunOne(s: System, step: Step)
    ensures Run(s, [step]) == Apply(s, step)
  {
    assert [step][1..] == [];
  }

  lemma RunTwo(s: System, first: Step, second: Step)
    ensures Run(s, [first, second]) == Apply(Apply(s, first), second)
  {
    RunOne(Apply(s, first), second);
    assert [first, second][1..] == [second];
  }

  ghost predicate Ready(s: System, c: CallId, phase: Phase, attempt: nat) {
    && s.cfg.maxPerSecond > 0 && Windowed(s)
    && c in s.calls && s.calls[c].phase == phase && s.calls[c].attempt == attempt
  }

  lemma WaitSteps(s: System, c: CallId, wait: nat)
    requires In(s, c, Limiting) && s.cfg.maxPerSecond > 0
    requires !Admits(s.cfg, s.breaker, s.clock) && wait == WaitMs(s.breaker, s.clock)
    ensures DoWake(DoLimit(s, c, 0).(clock := s.clock + wait), c)
         == s.(breaker := Trimmed(s.breaker, s.clock), clock := s.clock + wait)
  {
    assert DoWake(DoLimit(s, c, 0).(clock := s.clock + wait), c).calls == s.calls;
  }

  lemma LimitKeepsClock(s: System, c: CallId)
    ensures DoLimit(s, c, 0).clock == s.clock
  {}

  /** A refused pass, the wait, and the wake-up. */
  lemma WaitIsRun(s: System, c: CallId, wait: nat)
    requires In(s, c, Limiting) && s.cfg.maxPerSecond > 0
    requires !Admits(s.cfg, s.breaker, s.clock) && wait == WaitMs(s.breaker, s.clock)
    ensures Run(s, [Limit(c, 0)] + [Tick(wait), Wake(c)])
         == s.(breaker := Trimmed(s.breaker, s.clock), clock := s.clock + wait)
  {
    RunOne(s, Limit(c, 0));
    RunThen(s, [Limit(c, 0)], [Tick(wait), Wake(c)]);
    RunTwo(Apply(s, Limit(c, 0)), Tick(wait), Wake(c));
    LimitKeepsClock(s, c);
    WaitSteps(s, c, wait);
  }

  lemma WaitIsPositive(s: System)
    requires Windowed(s) && s.cfg.maxPerSecond > 0 && !Admits(s.cfg, s.breaker, s.clock)
    ensures WaitMs(s.breaker, s.clock) > 0
  {
    RecentIsSuffix(s.breaker.stamps, s.clock - WINDOW_MS);
  }

  lemma PassIsRun(s: System, c: CallId, attempt: nat) returns (steps: seq<Step>)
    requires Ready(s, c, Limiting, attempt)
    ensures
      var s' := Run(s, steps);
      && Ready(s', c, Calling, attempt) && s'.cfg == s.cfg
      && (s'.breaker, s'.clock) == Limited(s.cfg, s.breaker, s.clock)
  {
    var waited: seq<Step> := [];
    if !Admits(s.cfg, s.breaker, s.clock) {
      WaitIsPositive(s);
      var wait := WaitMs(s.breaker, s.clock);
      WaitIsRun(s, c, wait);
      waited := [Limit(c, 0)] + [Tick(wait), Wake(c)];
      WaitFreesPlace(s.cfg, s.breaker, s.clock, Run(s, waited).clock);
    }
    steps := waited + [Limit(c, 0)];
    RunThen(s, waited, [Limit(c, 0)]);
    RunOne(Run(s, waited), Limit(c, 0));
    RunKeepsWindow(s, steps);
  }

  function Rest(s: System, fn: nat -> Reply, attempt: nat): Execution
    requires s.cfg.maxPerSecond > 0
  {
    Attempted(s.cfg, s.breaker, fn, attempt, s.clock)
  }

  /** A retried reply and its delay. */
  lemma BackoffIsRun(s: System, c: CallId, attempt: nat, reply: Reply) returns (steps: seq<Step>)
    requires Ready(s, c, Calling, attempt) && Retries(s.cfg, reply, attempt)
    ensures
      var s' := Run(s, steps);
      && Ready(s', c, Limiting, attempt + 1) && s'.cfg == s.cfg
      && s'.breaker == s.breaker && s'.clock == s.clock + RetryDelay(s.cfg, reply, attempt)
  {
    var delay := RetryDelay(s.cfg, reply, attempt);
    var settled := [Settle(c, reply), Tick(delay)];
    steps := settled + [Resume(c)];
    RunTwo(s, Settle(c, reply), Tick(delay));
    RunThen(s, settled, [Resume(c)]);
    RunOne(Run(s, settled), Resume(c));
    RunKeepsWindow(s, steps);
  }

  /** A retried reply, its delay, and the next pass of the limiter. */
  lemma RetryIsRun(s: System, c: CallId, attempt: nat, reply: Reply) returns (steps: seq<Step>)
    requires Ready(s, c, Calling, attempt) && Retries(s.cfg, reply, attempt)
    ensures
      var s' := Run(s, steps);
      && Ready(s', c, Calling, attempt + 1) && s'.cfg == s.cfg
      && (s'.breaker, s'.clock) == Limited(s.cfg, s.breaker, s.clock + RetryDelay(s.cfg, reply, attempt))
  {
    var backoff := BackoffIsRun(s, c, attempt, reply);
    var pass := PassIsRun(Run(s, backoff), c, attempt + 1);
    steps := backoff + pass;
    RunThen(s, backoff, pass);
  }

  lemma RestFollows(s: System, s': System, fn: nat -> Reply, attempt: nat)
    requires s.cfg.maxPerSecond > 0 && Retries(s.cfg, fn(attempt), attempt) && s'.cfg == s.cfg
    requires (s'.breaker, s'.clock) == Limited(s.cfg, s.breaker, s.clock + RetryDelay(s.cfg, fn(attempt), attempt))
    ensures Rest(s', fn, attempt + 1) == Rest(s, fn, attempt)
  {
    AttemptedUnfolds(s.cfg, s.breaker, fn, attempt, s.clock);
  }

  ghost predicate Reaches(s: System, steps: seq<Step>, c: CallId, e: Execution) {
    var s' := Run(s, steps);
    s'.breaker == e.breaker && s'.clock == e.clock && In(s', c, Done(e.outcome))
  }

  lemma ReachesThen(s: System, first: seq<Step>, rest: seq<Step>, c: CallId, e: Execution)
    requires Reaches(Run(s, first), rest, c, e)
    ensures Reaches(s, first + rest, c, e)
  {
    RunThen(s, first, rest);
  }

  lemma FinalReplyIsRun(s: System, c: CallId, fn: nat -> Reply, attempt: nat)
    requires Ready(s, c, Calling, attempt) && !Retries(s.cfg, fn(attempt), attempt)
    ensures Reaches(s, [Settle(c, fn(attempt))], c, Rest(s, fn, attempt))
  {
    RunOne(s, Settle(c, fn(attempt)));
  }

  lemma {:induction false} AttemptedIsRun(s: System, c: CallId, fn: nat -> Reply, attempt: nat)
    returns (steps: seq<Step>)
    requires Ready(s, c, Calling, attempt)
    ensures Reaches(s, steps, c, Rest(s, fn, attempt))
    decreases Max(s.cfg.retry429Count, s.cfg.retry5xxCount) + 1 - attempt
  {
    if Retries(s.cfg, fn(attempt), attempt) {
      var retry := RetryIsRun(s, c, attempt, fn(attempt));
      RestFollows(s, Run(s, retry), fn, attempt);
      var rest := AttemptedIsRun(Run(s, retry), c, fn, attempt + 1);
      steps := retry + rest;
      ReachesThen(s, retry, rest, c, Rest(Run(s, retry), fn, attempt + 1));
    } else {
      steps := [Settle(c, fn(attempt))];
      FinalReplyIsRun(s, c, fn, attempt);
    }
  }

  /** What execute does for a caller that nobody overtakes is a run of the system, from any reachable state. */
  lemma ExecutionIsRun(s: System, c: CallId, fn: nat -> Reply) returns (steps: seq<Step>)
    requires s.cfg.maxPerSecond > 0 && Windowed(s) && c !in s.calls && !Refuses(s.breaker, s.clock)
    ensures
      var (admitted, later) := Limited(s.cfg, Gate(s.breaker, s.clock), s.clock);
      Reaches(s, steps, c, Attempted(s.cfg, admitted, fn, 0, later))
  {
    var begun := Run(s, [Begin(c)]);
    RunOne(s, Begin(c));
    RunKeepsWindow(s, [Begin(c)]);
    var pass := PassIsRun(begun, c, 0);
    RunKeepsWindow(begun, pass);
    var rest := AttemptedIsRun(Run(begun, pass), c, fn, 0);
    steps := [Begin(c)] + (pass + rest);
    RunThen(begun, pass, rest);
    RunThen(s, [Begin(c)], pass + rest);
  }

  class HaciendaCircuitBreaker {
    const cfg: Config
    var state: CircuitState
    var failureCount: nat
    var nextAttemptTime: int
    var requestTimestamps: seq<int>

    ghost function Value(): Breaker
      reads this
    {
      Breaker(state, failureCount, nextAttemptTime, requestTimestamps)
    }

    /** What a run leaves of the stamps: sorted, in the past, and no more than the limit. */
    ghost predicate Valid(now: int)
      reads this
    {
      && ValidConfig(cfg)
      && Sorted(requestTimestamps) && |requestTimestamps| <= cfg.maxPerSecond
      && UpTo(requestTimestamps, now)
    }

    constructor (cfg: Config, now: int)
      requires ValidConfig(cfg)
      ensures Valid(now) && this.cfg == cfg && Value() == Init(cfg, now).breaker
    {
      this.cfg := cfg;
      state, failureCount, nextAttemptTime, requestTimestamps := Closed, 0, 0, [];
    }

    /** The fast-fail test at the start of execute. */
    method Enter(now: int) returns (refused: bool)
      modifies this`state
      ensures refused == Refuses(old(Value()), now)
      ensures Value() == Gate(old(Value()), now)
    {
      refused := false;
      if state == Open {
        if now < nextAttemptTime {
          return true;
        }
        state := HalfOpen;
      }
    }

    /** One pass of the limiter: admitted with a stamp, or told how long to wait. */
    method TryAdmit(now: int) returns (admitted: bool, waitMs: int)
      requires Valid(now)
      modifies this`requestTimestamps
      ensures Valid(now)
      ensures admitted == Admits(cfg, old(Value()), now)
      ensures admitted ==> Value() == Admit(old(Value()), now, now)
      ensures !admitted ==> Value() == Trimmed(old(Value()), now) && waitMs == WaitMs(old(Value()), now)
      ensures !admitted ==> requestTimestamps != [] && 0 < waitMs
                            && requestTimestamps[0] == now + waitMs - WINDOW_MS - SAFETY_MS
                            && now - WINDOW_MS < requestTimestamps[0]
    {
      RecentIsSuffix(requestTimestamps, now - WINDOW_MS);
      requestTimestamps := Recent(requestTimestamps, now - WINDOW_MS);
      admitted := |requestTimestamps| < cfg.maxPerSecond;
      waitMs := 0;
      if admitted {
        requestTimestamps := requestTimestamps + [now];
      } else {
        waitMs := WINDOW_MS - (now - requestTimestamps[0]) + SAFETY_MS;
      }
    }

    method ReportSuccess()
      modifies this`state, this`failureCount
      ensures Value() == OnSuccess(old(Value()))
    {
      failureCount := 0;
      if state == HalfOpen {
        state := Closed;
      }
    }

    method ReportFailure(now: int)
      modifies this`state, this`failureCount, this`nextAttemptTime
      ensures Value() == OnFailure(cfg, old(Value()), now)
    {
      failureCount := failureCount + 1;
      if state == HalfOpen {
        state, nextAttemptTime := Open, now + cfg.resetTimeoutMs;
      } else if failureCount >= cfg.failureThreshold && state == Closed {
        state, nextAttemptTime := Open, now + cfg.resetTimeoutMs;
      }
    }

    /** A lone caller passes the limiter after at most one wait; after the wait, the limiter starts over. */
    method EnforceOutboundRateLimit(now: int) returns (clock: int)
      requires Valid(now)
      modifies this`requestTimestamps
      ensures Valid(clock) && now <= clock <= now + WINDOW_MS + SAFETY_MS
      ensures (Value(), clock) == Limited(cfg, old(Value()), now)
      decreases !Admits(cfg, Value(), now)
    {
      ghost var entered := Value();
      var admitted, waitMs := TryAdmit(now);
      if admitted {
        return now;
      }
      DropsFirst(requestTimestamps, now + waitMs - WINDOW_MS);
      clock := EnforceOutboundRateLimit(now + waitMs);
      assert clock == now + waitMs;
    }

    /** The report on a reply that is not retried. */
    method Report(reply: Reply, now: int)
      requires Valid(now)
      modifies this`state, this`failureCount, this`nextAttemptTime
      ensures Valid(now)
      ensures Value() == if reply == Success then OnSuccess(old(Value())) else OnFailure(cfg, old(Value()), now)
    {
      if reply == Success {
        ReportSuccess();
      } else {
        ReportFailure(now);
      }
    }

    method Delay(delay: nat, now: int) returns (clock: int)
      requires Valid(now)
      modifies this`requestTimestamps
      ensures Valid(clock) && now <= clock
      ensures (Value(), clock) == Limited(cfg, old(Value()), now + delay)
    {
      clock := EnforceOutboundRateLimit(now + delay);
    }

    /** The delay after a reply that is retried, and the next pass of the limiter. */
    method Backoff(fn: nat -> Reply, attempt: nat, now: int) returns (clock: int)
      requires Valid(now) && Retries(cfg, fn(attempt), attempt)
      modifies this`requestTimestamps
      ensures Valid(clock) && now <= clock
      ensures Attempted(cfg, Value(), fn, attempt + 1, clock) == Attempted(cfg, old(Value()), fn, attempt, now)
    {
      clock := Delay(RetryDelay(cfg, fn(attempt), attempt), now);
      AttemptedAfter(cfg, old(Value()), fn, attempt, now, Value(), clock);
    }

    /** The report on a reply that is not retried ends the execution. */
    method Finish(fn: nat -> Reply, attempt: nat, now: int) returns (outcome: Outcome)
      requires Valid(now) && !Retries(cfg, fn(attempt), attempt)
      modifies this`state, this`failureCount, this`nextAttemptTime
      ensures Valid(now)
      ensures Execution(Value(), outcome, attempt + 1, now) == Attempted(cfg, old(Value()), fn, attempt, now)
    {
      AttemptedEnds(cfg, Value(), fn, attempt, now);
      Report(fn(attempt), now);
      outcome := FinalOutcome(fn(attempt));
    }

    /** Invokes, and on a reply that is retried, delays, passes the limiter, and starts over. */
    method ExecuteWithRetry(now: int, fn: nat -> Reply, attempt: nat)
      returns (outcome: Outcome, invocations: nat, clock: int)
      requires Valid(now)
      modifies this
      ensures now <= clock && Valid(clock)
      ensures Execution(Value(), outcome, invocations, clock) == Attempted(cfg, old(Value()), fn, attempt, now)
      decreases Max(cfg.retry429Count, cfg.retry5xxCount) + 1 - attempt
    {
      if Retries(cfg, fn(attempt), attempt) {
        clock := Backoff(fn, attempt, now);
        outcome, invocations, clock := ExecuteWithRetry(clock, fn, attempt + 1);
      } else {
        outcome := Finish(fn, attempt, now);
        invocations, clock := attempt + 1, now;
      }
    }

    /** execute for a lone caller: `fn(k)` answers invocation k. */
    method Execute(now: int, fn: nat -> Reply) returns (outcome: Outcome, invocations: nat, clock: int)
      requires Valid(now)
      modifies this
      ensures now <= clock && Valid(clock)
      ensures
        if Refuses(old(Value()), now) then
          outcome == CircuitOpen && invocations == 0 && Value() == old(Value())
        else
          var (admitted, later) := Limited(cfg, Gate(old(Value()), now), now);
          Execution(Value(), outcome, invocations, clock) == Attempted(cfg, admitted, fn, 0, later)
      ensures outcome == CircuitOpen <==> old(state) == Open && now < old(nextAttemptTime)
      ensures outcome == Succeeded ==> state == Closed && failureCount == 0
      ensures outcome != CircuitOpen && outcome != Succeeded ==>
                && failureCount == old(failureCount) + 1
                && (state == Open <==> old(state) != Closed || cfg.failureThreshold <= failureCount)
                && (state == Open ==> nextAttemptTime == clock + cfg.resetTimeoutMs)
                && (state != Open ==> state == Closed)
      ensures outcome != CircuitOpen ==> 1 <= invocations && Ends(cfg, fn(invocations - 1), invocations - 1, outcome)
    {
      var refused := Enter(now);
      if refused {
        return CircuitOpen, 0, now;
      }
      ghost var (admitted, later) := Limited(cfg, Value(), now);
      FirstFinalReplyDecides(cfg, admitted, fn, later);
      clock := EnforceOutboundRateLimit(now);
      outcome, invocations, clock := ExecuteWithRetry(clock, fn, 0);
    }
  }
}
