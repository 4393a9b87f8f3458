/** For all numbers of re-queues, stale claims and late exceptions, a run with the most attempts. */
module DeliveryAttemptLimits {
  import opened Common
  import opened RetryClassifier
  import opened DeliveryModel
  import opened DeliverySafety
  import opened DeliveryLimits
  import opened DeliveryAttempts

  // -- Attempts that fail ------------------------------------------------------------------

  /** Nobody asks for a re-queue, no worker has ended, and ids from next on are free. */
  ghost predicate Tidy(s: State, next: nat) {
    && Reachable(s)
    && 0 in s.rows && s.rows[0].status != Delivered
    && s.requests == map[]
    && (forall w :: w in s.workers ==> w < next)
    && (forall a :: a in s.attempts ==> a < next)
    && s.claims[0] == s.faults[0] + |Throwers(s, 0)|
  }

  /** The row can be claimed, with this count. */
  ghost predicate Ripe(s: State, next: nat, attemptCount: nat) {
    Tidy(s, next) && ClaimableStatus(s.rows[0].status) && s.rows[0].attemptCount == attemptCount
  }

  /** A worker that has to write its failure, or to write it again after a late exception. */
  function Failing0(a: AttemptId, c: nat, again: bool): Worker {
    Worker(0, c, 0, Failing(a, false, if again then UnknownProviderResponse else TransientProviderFailure, again))
  }

  /** Workers below next stay, but for w. */
  ghost predicate Keeps(s: State, s': State, next: nat, w: WorkerId) {
    forall v: WorkerId :: v < next && v != w ==> SameWorker(s, s', v)
  }

  predicate Closed(s: State, v: WorkerId) {
    v in s.workers ==> s.workers[v].phase.Closing?
  }

  /** And w and the new ones have written all they had to write. */
  ghost predicate Ends(s: State, s': State, next: nat, w: WorkerId) {
    Keeps(s, s', next, w) && forall v: WorkerId :: next <= v || v == w ==> Closed(s', v)
  }

  ghost predicate Grew(s: State, s': State, claims: nat, faults: nat) {
    && s'.claims[0] == s.claims[0] + claims && s'.faults[0] == s.faults[0] + faults
    && s'.requeues[0] == s.requeues[0] && s'.staleClaims[0] == s.staleClaims[0]
  }

  lemma EndsThen(s: State, s1: State, s2: State, next: nat, next1: nat, w: WorkerId, w1: WorkerId)
    requires Keeps(s, s1, next, w) && Ends(s1, s2, next1, w1) && next <= next1 && (w1 == w || next <= w1)
    requires forall v: WorkerId :: (next <= v < next1 || v == w) && v != w1 ==> Closed(s1, v)
    ensures Ends(s, s2, next, w)
  {
    forall v: WorkerId | v < next && v != w ensures SameWorker(s, s2, v) {
      assert SameWorker(s, s1, v) && SameWorker(s1, s2, v);
    }
    forall v: WorkerId | next <= v || v == w ensures Closed(s2, v) {
      if v < next1 && v != w1 {
        assert Closed(s1, v) && SameWorker(s1, s2, v);
      }
    }
  }

  /** A new worker claims, and its mail is refused for now. */
  lemma FreshClaim(s: State, next: nat, c: nat) returns (s': State)
    requires Ripe(s, next, c)
    ensures Tidy(s', next + 1) && HasWorker(s', next, Failing0(next, c, false))
    ensures s'.rows == s.rows[0 := s.rows[0].(status := Sending, lastAttemptAt := Some(0))]
    ensures Keeps(s, s', next, next) && Grew(s, s', 1, 0)
  {
    s' := SendRound(s, next, next, false, TransientFailure);
    ThrowersFollow(s, s', next, 0);
  }

  lemma Writes(s: State, next: nat, w: WorkerId, a: AttemptId, c: nat, again: bool) returns (s': State)
    requires Tidy(s, next) && HasWorker(s, w, Failing0(a, c, again))
    ensures Tidy(s', next) && Ends(s, s', next, w) && Grew(s, s', 0, 0) && s'.rows[0].attemptCount == c + 1
    ensures s'.rows[0].status == Classify(s.workers[w].phase.errorClass, c, MAX_DELIVERY_RETRIES, 0).nextStatus
    ensures HasWorker(s', w, Worker(0, c, 0, Closing(a, false, s'.rows[0].status, again)))
  {
    s' := Fails(s, w, c, a, false, if again then UnknownProviderResponse else TransientProviderFailure, again);
    ThrowersFollow(s, s', w, 0);
  }

  lemma WritesRetry(s: State, next: nat, w: WorkerId, a: AttemptId, c: nat, again: bool) returns (s': State)
    requires Tidy(s, next) && HasWorker(s, w, Failing0(a, c, again)) && c < MAX_DELIVERY_RETRIES
    ensures Ripe(s', next, c + 1) && HasWorker(s', w, Worker(0, c, 0, Closing(a, false, RetryPending, again)))
    ensures Ends(s, s', next, w) && Grew(s, s', 0, 0)
  {
    s' := Writes(s, next, w, a, c, again);
  }

  /** The last attempt of a count: the row is done with. */
  lemma LastClaim(s: State, next: nat) returns (s': State)
    requires Ripe(s, next, MAX_DELIVERY_RETRIES)
    ensures Tidy(s', next + 1) && Ends(s, s', next, next) && Grew(s, s', 1, 0)
  {
    var s1 := FreshClaim(s, next, MAX_DELIVERY_RETRIES);
    s' := Writes(s1, next + 1, next, next, MAX_DELIVERY_RETRIES, false);
    EndsThen(s, s1, s', next, next + 1, next, next);
  }

  /** The update of the attempt row throws, after the failure was written. */
  lemma ThrowsLate(s: State, next: nat, w: WorkerId, a: AttemptId, c: nat) returns (s': State)
    requires Tidy(s, next) && HasWorker(s, w, Worker(0, c, 0, Closing(a, false, RetryPending, false)))
    ensures Tidy(s', next) && HasWorker(s', w, Failing0(a, c, true))
    ensures Keeps(s, s', next, w) && Grew(s, s', 0, 1)
  {
    Extend(s, Throw(w));
    s' := Apply(s, Throw(w));
    ThrowersFollow(s, s', w, 0);
  }

  // -- The late exceptions of a price ------------------------------------------------------

  function Span(n: int): nat {
    if n <= 0 then 0 else 2 * Span(n - 1) + 1
  }

  /** Late exceptions below a claim that n retries can follow: from Low, all worth more than the price, to High. */
  function Low(price: nat, n: nat): nat {
    Span(n - price)
  }

  function High(price: nat, n: nat): nat {
    Span(n + 1 - price)
  }

  /** Up to the price, a retry is worth no more than the price; from there on, more. */
  lemma {:induction false} LeftAgainstPrice(price: nat, n: nat)
    ensures n <= price ==> Left(price, n) == n
    ensures n > price ==> Left(price, n) > price
  {
    if n == 0 {
    } else {
      LeftAgainstPrice(price, n - 1);
    }
  }

  /** The claims that follow a claim, with k late exceptions. */
  function Following(price: nat, n: nat, k: nat): nat {
    Left(price, n) + k * price
  }

  lemma NoneLate(price: nat, n: nat)
    requires 1 <= price && 1 <= n && Low(price, n) == 0
    ensures Following(price, n, 0) == 1 + Following(price, n - 1, 0) && Low(price, n - 1) == 0
  {
    LeftAgainstPrice(price, n - 1);
  }

  lemma SplitLate(price: nat, n: nat, k: nat) returns (first: nat, second: nat)
    requires 1 <= n && 1 <= k && Low(price, n) <= k <= High(price, n)
    ensures Low(price, n - 1) <= first <= High(price, n - 1) && Low(price, n - 1) <= second <= High(price, n - 1)
    ensures first + second + 1 == k && price <= n
  {
    var low, high := Low(price, n - 1), High(price, n - 1);
    first := if k - 1 - low <= high then k - 1 - low else high;
    second := k - 1 - first;
  }

  lemma Distribute(price: nat, first: nat, second: nat)
    ensures (first + second + 1) * price == first * price + second * price + price
  {}

  lemma LateAddsUp(price: nat, n: nat, first: nat, second: nat)
    requires 1 <= price <= n
    ensures Following(price, n, first + second + 1)
         == 1 + Following(price, n - 1, first) + 1 + Following(price, n - 1, second)
  {
    LeftAgainstPrice(price, n - 1);
    Distribute(price, first, second);
  }

  // -- The attempts one claim leads to -----------------------------------------------------

  /**
   A worker writes its failure, and all attempts of its retry follow, up to the last one; with late
   exceptions to spend, its second write throws then, and all attempts follow once more.
   */
  lemma {:induction false} Resume(s: State, next: nat, w: WorkerId, a: AttemptId, price: nat, n: nat, k: nat)
    returns (s': State, next': nat)
    requires 1 <= n <= MAX_DELIVERY_RETRIES && 1 <= price && Low(price, n) <= k <= High(price, n)
    requires Tidy(s, next) && HasWorker(s, w, Failing0(a, MAX_DELIVERY_RETRIES - n, false))
    ensures next <= next' && Ripe(s', next', MAX_DELIVERY_RETRIES) && Ends(s, s', next, w)
    ensures Following(price, n, k) >= 1 && Grew(s, s', Following(price, n, k) - 1, k)
    decreases n, 0
  {
    var s1 := WritesRetry(s, next, w, a, MAX_DELIVERY_RETRIES - n, false);
    if k == 0 {
      NoneLate(price, n);
      s', next' := Exhaust(s1, next, price, n - 1, 0);
      EndsThen(s, s1, s', next, next, w, next);
    } else {
      var first, second := SplitLate(price, n, k);
      LateAddsUp(price, n, first, second);
      s', next' := ResumeTwice(s1, next, w, a, price, n, first, second);
      EndsThen(s, s1, s', next, next, w, w);
    }
  }

  lemma {:induction false} ResumeTwice(s: State, next: nat, w: WorkerId, a: AttemptId, price: nat, n: nat,
                                       first: nat, second: nat)
    returns (s': State, next': nat)
    requires 1 <= n <= MAX_DELIVERY_RETRIES && 1 <= price
    requires Low(price, n - 1) <= first <= High(price, n - 1) && Low(price, n - 1) <= second <= High(price, n - 1)
    requires Ripe(s, next, MAX_DELIVERY_RETRIES - n + 1)
    requires HasWorker(s, w, Worker(0, MAX_DELIVERY_RETRIES - n, 0, Closing(a, false, RetryPending, false)))
    ensures next <= next' && Ripe(s', next', MAX_DELIVERY_RETRIES) && Ends(s, s', next, w)
    ensures Grew(s, s', Following(price, n - 1, first) + 1 + Following(price, n - 1, second), first + second + 1)
    decreases n - 1, 3
  {
    var s1, next1 := Exhaust(s, next, price, n - 1, first);
    var s2 := LastClaim(s1, next1);
    assert SameWorker(s, s1, w) && SameWorker(s1, s2, w);
    s', next' := ResumeAgain(s2, next1 + 1, w, a, price, n, second);
    EndsThen(s, s1, s2, next, next1, next, next1);
    assert Ends(s, s2, next, w);
    EndsThen(s, s2, s', next, next1 + 1, w, w);
  }

  lemma {:induction false} ResumeAgain(s: State, next: nat, w: WorkerId, a: AttemptId, price: nat, n: nat, k: nat)
    returns (s': State, next': nat)
    requires 1 <= n <= MAX_DELIVERY_RETRIES && 1 <= price && Low(price, n - 1) <= k <= High(price, n - 1)
    requires Tidy(s, next)
    requires HasWorker(s, w, Worker(0, MAX_DELIVERY_RETRIES - n, 0, Closing(a, false, RetryPending, false)))
    ensures next <= next' && Ripe(s', next', MAX_DELIVERY_RETRIES) && Ends(s, s', next, w)
    ensures Grew(s, s', Following(price, n - 1, k), k + 1)
    decreases n - 1, 2
  {
    var s1 := ThrowsLate(s, next, w, a, MAX_DELIVERY_RETRIES - n);
    var s2 := WritesRetry(s1, next, w, a, MAX_DELIVERY_RETRIES - n, true);
    s', next' := Exhaust(s2, next, price, n - 1, k);
    EndsThen(s, s1, s2, next, next, w, w);
    EndsThen(s, s2, s', next, next, w, next);
  }

  lemma {:induction false} Exhaust(s: State, next: nat, price: nat, n: nat, k: nat) returns (s': State, next': nat)
    requires n <= MAX_DELIVERY_RETRIES && 1 <= price && Low(price, n) <= k <= High(price, n)
    requires Ripe(s, next, MAX_DELIVERY_RETRIES - n)
    ensures next <= next' && Ripe(s', next', MAX_DELIVERY_RETRIES) && Ends(s, s', next, next)
    ensures Grew(s, s', Following(price, n, k), k)
    decreases n, 1
  {
    if n == 0 {
      s', next' := s, next;
    } else {
      var s1 := FreshClaim(s, next, MAX_DELIVERY_RETRIES - n);
      s', next' := Resume(s1, next + 1, next, next, price, n, k);
      EndsThen(s, s1, s', next, next + 1, next, next);
    }
  }

  // -- All claims at count zero ------------------------------------------------------------

  /** Workers below m have read the count zero; workers from low to high have failed with it, unwritten. */
  ghost predicate Stocked(s: State, m: nat, low: nat, high: nat) {
    && (forall w: WorkerId :: w < m ==> HasWorker(s, w, Worker(0, 0, 0, Loaded)))
    && (forall w: WorkerId :: low <= w < high ==> HasWorker(s, w, Failing0(w, 0, false)))
  }

  ghost predicate Events(s: State, claims: nat, requeues: nat, stale: nat, faults: nat) {
    && s.claims[0] == claims && s.requeues[0] == requeues
    && s.staleClaims[0] == stale && s.faults[0] == faults
  }

  /** All other workers have written. */
  ghost predicate OthersClosed(s: State, m: nat, low: nat, high: nat) {
    forall w: WorkerId :: m <= w && !(low <= w < high) ==> Closed(s, w)
  }

  /** What is left in stock after steps of other workers. */
  lemma StockStays(s: State, s': State, next: nat, w: WorkerId, m: nat, low: nat, high: nat)
    requires Stocked(s, m, low, high) && Keeps(s, s', next, w) && 0 in s'.rows
    requires m <= w && !(low <= w < high) && m <= next && high <= next
    ensures Stocked(s', m, low, high)
  {
    forall v: WorkerId | v < m ensures HasWorker(s', v, Worker(0, 0, 0, Loaded)) {
      assert HasWorker(s, v, Worker(0, 0, 0, Loaded)) && SameWorker(s, s', v);
    }
    forall v: WorkerId | low <= v < high ensures HasWorker(s', v, Failing0(v, 0, false)) {
      assert HasWorker(s, v, Failing0(v, 0, false)) && SameWorker(s, s', v);
    }
  }

  lemma Quarantines(s: State, next: nat) returns (s': State)
    requires Tidy(s, next) && s.rows == map[0 := Row(Sending, 0, 0, Some(0), None, None)]
    ensures Tidy(s', next) && s' == s.(rows := map[0 := Row(ManualReview, 0, 0, Some(0), None, None)])
  {
    Extend(s, QuarantineStale(0, 1));
    s' := Apply(s, QuarantineStale(0, 1));
  }

  /** The claim of a silent worker gets stale, and the ensure service puts the row back at its count. */
  lemma RequeuesStale(s: State, next: nat) returns (s': State)
    requires Tidy(s, next) && s.rows == map[0 := Row(Sending, 0, 0, Some(0), None, None)]
    ensures Ripe(s', next, 0) && s'.rows == map[0 := Row(Queued, 0, 0, Some(0), None, None)]
    ensures s' == s.(rows := s'.rows, requeues := s.requeues + multiset{0})
  {
    var s1 := Quarantines(s, next);
    var s2 := Reads(s1, EnsurePackage);
    s' := Requeues(s2, EnsurePackage, 0);
  }

  /** With n re-queues, n + 1 workers hold a claim at count zero. */
  lemma {:induction false} ManyClaim(n: nat, m: nat) returns (s: State)
    ensures Tidy(s, m + n + 1) && Stocked(s, m, m, m + n + 1) && Events(s, n + 1, n, 0, 0)
    ensures OthersClosed(s, m, m, m + n + 1)
    ensures s.rows == map[0 := Row(Sending, 0, 0, Some(0), None, None)]
  {
    if n == 0 {
      var loaded := AllLoad(m);
      assert Throwers(loaded, 0) == {};
      s := FreshClaim(loaded, m, 0);
      StockStays(loaded, s, m, m, m, m, m);
    } else {
      var before := ManyClaim(n - 1, m);
      var queued := RequeuesStale(before, m + n);
      s := FreshClaim(queued, m + n, 0);
      StockStays(before, queued, m + n, m + n, m, m, m + n);
      StockStays(queued, s, m + n, m + n, m, m, m + n);
    }
  }

  lemma StaleSend(s: State, next: nat, w: WorkerId) returns (s': State)
    requires Ripe(s, next, MAX_DELIVERY_RETRIES) && HasWorker(s, w, Worker(0, 0, 0, Loaded))
    ensures Reachable(s') && s'.workers == s.workers[w := Failing0(next, 0, false)]
    ensures s'.rows == s.rows[0 := s.rows[0].(status := Sending, lastAttemptAt := Some(0))]
    ensures s'.requests == s.requests && s'.attempts.Keys == s.attempts.Keys + {next}
    ensures Events(s', s.claims[0] + 1, s.requeues[0], s.staleClaims[0] + 1, s.faults[0])
  {
    var s1 := Claims(s, w, 0);
    var s2 := Records(s1, w, 0, next);
    s' := Sends(s2, w, 0, next, false, TransientFailure);
  }

  /** A worker that read the count zero claims the last attempt of another count. */
  lemma StaleClaim(s: State, next: nat, w: WorkerId) returns (s': State)
    requires Ripe(s, next, MAX_DELIVERY_RETRIES) && HasWorker(s, w, Worker(0, 0, 0, Loaded))
    ensures Tidy(s', next + 1) && HasWorker(s', w, Failing0(next, 0, false)) && Keeps(s, s', next, w)
    ensures Events(s', s.claims[0] + 1, s.requeues[0], s.staleClaims[0] + 1, s.faults[0]) && next !in s'.workers
  {
    s' := StaleSend(s, next, w);
    ThrowersFollow(s, s', w, 0);
  }

  // -- The most attempts -------------------------------------------------------------------

  /** The late exceptions of each claim at count zero. */
  predicate Shares(price: nat, shares: seq<nat>) {
    forall i :: 0 <= i < |shares| ==>
      Low(price, MAX_DELIVERY_RETRIES) <= shares[i] <= High(price, MAX_DELIVERY_RETRIES)
  }

  function Sum(shares: seq<nat>): nat {
    if shares == [] then 0 else shares[0] + Sum(shares[1..])
  }

  function AllFollowing(price: nat, shares: seq<nat>): nat {
    if shares == [] then 0 else Following(price, MAX_DELIVERY_RETRIES, shares[0]) + AllFollowing(price, shares[1..])
  }

  lemma FirstShare(a: nat, k: nat, low: nat, high: nat) returns (first: nat)
    requires a * low + low <= k <= a * high + high && low <= high
    ensures first <= k && low <= first <= high && a * low <= k - first <= a * high
  {
    first := if k - a * low <= high then k - a * low else high;
  }

  lemma OneMoreTime(a: nat, each: nat)
    ensures (a + 1) * each == a * each + each
  {}

  lemma {:induction false} Share(price: nat, a: nat, k: nat) returns (shares: seq<nat>)
    requires 1 <= price <= MAX_DELIVERY_RETRIES
    requires a * Low(price, MAX_DELIVERY_RETRIES) <= k <= a * High(price, MAX_DELIVERY_RETRIES)
    ensures |shares| == a && Shares(price, shares) && Sum(shares) == k
    decreases a
  {
    if a == 0 {
      shares := [];
    } else {
      var low, high := Low(price, MAX_DELIVERY_RETRIES), High(price, MAX_DELIVERY_RETRIES);
      OneMoreTime(a - 1, low);
      OneMoreTime(a - 1, high);
      var first := FirstShare(a - 1, k, low, high);
      var rest := Share(price, a - 1, k - first);
      shares := [first] + rest;
    }
  }

  lemma AddShare(a: nat, each: nat, first: nat, rest: nat, price: nat)
    ensures each + first * price + (a * each + rest * price) == (a + 1) * each + (first + rest) * price
  {
    OneMoreTime(a, each);
  }

  lemma {:induction false} SharesAddUp(price: nat, shares: seq<nat>)
    ensures AllFollowing(price, shares) == |shares| * Left(price, MAX_DELIVERY_RETRIES) + Sum(shares) * price
    decreases shares
  {
    if shares == [] {
    } else {
      SharesAddUp(price, shares[1..]);
      AddShare(|shares| - 1, Left(price, MAX_DELIVERY_RETRIES), shares[0], Sum(shares[1..]), price);
    }
  }

  /** The stock shrinks by the worker that ends. */
  lemma ClosedStay(s: State, s': State, next: nat, w: WorkerId, m: nat, low: nat, high: nat)
    requires Ends(s, s', next, w)
    requires forall v: WorkerId :: m <= v < next && !(low <= v < high) && v != w ==> Closed(s, v)
    ensures OthersClosed(s', m, low, high)
  {
    forall v: WorkerId | m <= v && !(low <= v < high) ensures Closed(s', v) {
      if v < next && v != w {
        assert Closed(s, v) && SameWorker(s, s', v);
      }
    }
  }

  /** The last attempt of what came before, and all attempts of one held claim. */
  lemma ExhaustHeld(s: State, next: nat, price: nat, m: nat, low: nat, high: nat, k: nat)
    returns (s': State, next': nat)
    requires Ripe(s, next, MAX_DELIVERY_RETRIES) && Stocked(s, m, low, high) && m <= low < high <= next
    requires OthersClosed(s, m, low, high)
    requires 1 <= price && Low(price, MAX_DELIVERY_RETRIES) <= k <= High(price, MAX_DELIVERY_RETRIES)
    ensures next <= next' && Ripe(s', next', MAX_DELIVERY_RETRIES) && Stocked(s', m, low + 1, high)
    ensures OthersClosed(s', m, low + 1, high)
    ensures Grew(s, s', Following(price, MAX_DELIVERY_RETRIES, k), k)
  {
    var s1 := LastClaim(s, next);
    StockStays(s, s1, next, next, m, low, high);
    ClosedStay(s, s1, next, next, m, low, high);
    s', next' := Resume(s1, next + 1, low, low, price, MAX_DELIVERY_RETRIES, k);
    StockStays(s1, s', next + 1, low, m, low + 1, high);
    ClosedStay(s1, s', next + 1, low, m, low + 1, high);
  }

  /** A stale claim in place of the last attempt: its worker is the only one in stock at work. */
  lemma StartStale(s: State, next: nat, m: nat, low: nat) returns (s': State)
    requires Ripe(s, next, MAX_DELIVERY_RETRIES) && Stocked(s, m, low, low) && 1 <= m <= low <= next
    requires OthersClosed(s, m, low, low)
    ensures Tidy(s', next + 1) && HasWorker(s', m - 1, Failing0(next, 0, false)) && Stocked(s', m - 1, low, low)
    ensures forall v: WorkerId :: m <= v ==> Closed(s', v)
    ensures Events(s', s.claims[0] + 1, s.requeues[0], s.staleClaims[0] + 1, s.faults[0])
  {
    assert HasWorker(s, m - 1, Worker(0, 0, 0, Loaded));
    s' := StaleClaim(s, next, m - 1);
    StockStays(s, s', next, m - 1, m - 1, low, low);
    forall v: WorkerId | m <= v ensures Closed(s', v) {
      assert Closed(s, v) && (v < next ==> SameWorker(s, s', v));
    }
  }

  /** The stale claim, and all its attempts. */
  lemma ExhaustStale(s: State, next: nat, price: nat, m: nat, low: nat, k: nat) returns (s': State, next': nat)
    requires Ripe(s, next, MAX_DELIVERY_RETRIES) && Stocked(s, m, low, low) && 1 <= m <= low <= next
    requires OthersClosed(s, m, low, low)
    requires 1 <= price && Low(price, MAX_DELIVERY_RETRIES) <= k <= High(price, MAX_DELIVERY_RETRIES)
    ensures next <= next' && Ripe(s', next', MAX_DELIVERY_RETRIES) && Stocked(s', m - 1, low, low)
    ensures OthersClosed(s', m - 1, low, low)
    ensures Events(s', s.claims[0] + Following(price, MAX_DELIVERY_RETRIES, k), s.requeues[0],
                   s.staleClaims[0] + 1, s.faults[0] + k)
  {
    var s1 := StartStale(s, next, m, low);
    s', next' := Resume(s1, next + 1, m - 1, next, price, MAX_DELIVERY_RETRIES, k);
    StockStays(s1, s', next + 1, m - 1, m - 1, low, low);
    ClosedStay(s1, s', next + 1, m - 1, m - 1, low, low);
  }

  /** The held claims, then the stale ones, one exhausted after the other. */
  lemma {:induction false} ExhaustAll(s: State, next: nat, price: nat, m: nat, low: nat, high: nat, shares: seq<nat>)
    returns (s': State, next': nat)
    requires Ripe(s, next, MAX_DELIVERY_RETRIES) && Stocked(s, m, low, high) && m <= low <= high <= next
    requires OthersClosed(s, m, low, high)
    requires 1 <= price && Shares(price, shares) && |shares| == m + high - low
    ensures Ripe(s', next', MAX_DELIVERY_RETRIES) && forall v: WorkerId :: Closed(s', v)
    ensures Events(s', s.claims[0] + AllFollowing(price, shares), s.requeues[0], s.staleClaims[0] + m,
                   s.faults[0] + Sum(shares))
    decreases shares
  {
    if shares == [] {
      s', next' := s, next;
    } else if low < high {
      var s1, next1 := ExhaustHeld(s, next, price, m, low, high, shares[0]);
      s', next' := ExhaustAll(s1, next1, price, m, low + 1, high, shares[1..]);
    } else {
      var s1, next1 := ExhaustStale(s, next, price, m, low, shares[0]);
      s', next' := ExhaustAll(s1, next1, price, m - 1, low, high, shares[1..]);
    }
  }

  /** The price at which k late exceptions are worth it for a claims at count zero. */
  lemma {:induction false} PriceOf(a: nat, k: nat, price: nat) returns (p: nat)
    requires 1 <= price <= MAX_DELIVERY_RETRIES && a * Low(price, MAX_DELIVERY_RETRIES) <= k <= a * Span(8)
    ensures 1 <= p <= price
    ensures a * Low(p, MAX_DELIVERY_RETRIES) <= k <= a * High(p, MAX_DELIVERY_RETRIES)
    ensures k <= a * High(price, MAX_DELIVERY_RETRIES) ==> p == price
    decreases price
  {
    if k <= a * High(price, MAX_DELIVERY_RETRIES) {
      p := price;
    } else {
      p := PriceOf(a, k, price - 1);
    }
  }

  lemma MostInAll(price: nat, n: nat, m: nat, k: nat)
    ensures Budget(TariffOf(price), 1 + n, m, k)
         == n + 1 + (n + 1 + m) * Left(price, MAX_DELIVERY_RETRIES) + k * price
  {
    GainIsLeft(price, 0);
    var whole := Left(price, MAX_DELIVERY_RETRIES);
    assert (n + 1) * (1 + whole) == n + 1 + (n + 1) * whole;
    assert (n + 1 + m) * whole == (n + 1) * whole + m * whole;
  }

  lemma ExhaustFrom(n: nat, m: nat, price: nat, shares: seq<nat>) returns (s: State)
    requires 1 <= price && Shares(price, shares) && |shares| == n + 1 + m
    ensures Reachable(s) && Events(s, n + 1 + AllFollowing(price, shares), n, m, Sum(shares))
    ensures 0 in s.rows && s.claims[0] == s.faults[0] + |Throwers(s, 0)| && forall v: WorkerId :: Closed(s, v)
  {
    var held := ManyClaim(n, m);
    var next := m + n + 1;
    var s1, next1 := Resume(held, next, m, m, price, MAX_DELIVERY_RETRIES, shares[0]);
    StockStays(held, s1, next, m, m, m + 1, next);
    ClosedStay(held, s1, next, m, m, m + 1, next);
    var s2, next2 := ExhaustAll(s1, next1, price, m, m + 1, next, shares[1..]);
    s := LastClaim(s2, next2);
    ClosedStay(s2, s, next2, next2, 0, 0, 0);
  }

  lemma SharesMakeBudget(price: nat, n: nat, m: nat, shares: seq<nat>)
    requires |shares| == n + 1 + m
    ensures n + 1 + AllFollowing(price, shares) == Budget(TariffOf(price), 1 + n, m, Sum(shares))
  {
    SharesAddUp(price, shares);
    MostInAll(price, n, m, Sum(shares));
  }

  lemma PriceAndShares(a: nat, k: nat) returns (price: nat, shares: seq<nat>)
    requires 1 <= a && k <= 255 * a
    ensures 1 <= price && Shares(price, shares) && |shares| == a && Sum(shares) == k
    ensures k <= a ==> price == 8
    ensures k == 255 * a ==> price == 1
  {
    assert Span(4) == 15;
    assert Span(8) == 255;
    if k == 255 * a {
      price := 1;
    } else {
      price := PriceOf(a, k, 8);
    }
    shares := Share(price, a, k);
  }

  /** The events of delivery 0 in a run, with this many claims. */
  ghost predicate Attained(s: State, claims: nat, n: nat, m: nat, k: nat) {
    Reachable(s) && Events(s, claims, n, m, k)
  }

  /** At no price: the late exceptions beyond these find nothing left to add. */
  lemma BudgetLevelsOff(n: nat, m: nat)
    ensures Budget(TariffOf(1), 1 + n, m, 255 * (1 + n + m)) == Budget(TariffOf(0), 1 + n, m, 0)
    ensures Budget(TariffOf(0), 1 + n, m, 0) == 511 * (1 + n) + 510 * m
  {
    GainInNumbers();
    BudgetWith(TariffOf(1), 255, 1 + n, m, 255 * (1 + n + m));
    BudgetWith(TariffOf(0), 510, 1 + n, m, 0);
  }

  /** Workers that have written can do no more than throw. */
  ghost predicate Idling(s: State) {
    Reachable(s) && 0 in s.rows && forall w :: w in Throwers(s, 0) ==> Closed(s, w)
  }

  lemma ThrowsIdly(s: State, w: WorkerId) returns (s': State)
    requires Idling(s) && w in Throwers(s, 0)
    ensures Reachable(s') && 0 in s'.rows
    ensures w in s'.workers && s'.workers == s.workers[w := s'.workers[w]] && !MayThrowAt(s', 0, w)
    ensures Events(s', s.claims[0], s.requeues[0], s.staleClaims[0], s.faults[0] + 1)
  {
    Extend(s, Throw(w));
    s' := Apply(s, Throw(w));
  }

  lemma {:induction false} ThrowIdly(s: State, x: nat) returns (s': State)
    requires Idling(s) && x <= |Throwers(s, 0)|
    ensures Attained(s', s.claims[0], s.requeues[0], s.staleClaims[0], s.faults[0] + x)
    decreases x
  {
    if x == 0 {
      s' := s;
    } else {
      var w :| w in Throwers(s, 0);
      var s1 := ThrowsIdly(s, w);
      ThrowersFollow(s, s1, w, 0);
      forall v | v in Throwers(s1, 0) ensures Closed(s1, v) {
        assert v in Throwers(s, 0);
      }
      s' := ThrowIdly(s1, x - 1);
    }
  }

  /** Up to 255 late exceptions for each claim at count zero. */
  lemma BudgetIsAttained(n: nat, m: nat, k: nat) returns (price: nat, s: State)
    requires k <= 255 * (1 + n + m)
    ensures Attained(s, Budget(TariffOf(price), 1 + n, m, k), n, m, k) && 0 in s.rows
    ensures s.claims[0] == k + |Throwers(s, 0)| && forall w: WorkerId :: Closed(s, w)
    ensures k <= 1 + n + m ==> price == 8
    ensures k == 255 * (1 + n + m) ==> price == 1
  {
    var shares;
    price, shares := PriceAndShares(n + 1 + m, k);
    s := ExhaustFrom(n, m, price, shares);
    SharesMakeBudget(price, n, m, shares);
  }

  /** Up to one for each claim: what the others had left is used up. */
  lemma BudgetIsAttainedIdly(n: nat, m: nat, k: nat) returns (s: State)
    requires 255 * (1 + n + m) <= k <= 511 * (1 + n) + 510 * m
    ensures Attained(s, 511 * (1 + n) + 510 * m, n, m, k)
  {
    var late := 255 * (1 + n + m);
    var price, s0 := BudgetIsAttained(n, m, late);
    BudgetLevelsOff(n, m);
    s := ThrowIdly(s0, k - late);
  }

  lemma AttainedIsBounded(price: nat, s: State, claims: nat, n: nat, m: nat, k: nat)
    requires Attained(s, claims, n, m, k)
    ensures claims <= Budget(TariffOf(price), 1 + n, m, k)
    ensures k <= claims <= 511 * (1 + n) + 510 * m
  {
    var steps :| s == Run(Init(), steps);
    AttemptsAreBounded(price, steps, 0);
    AttemptsInNumbers(steps, 0);
    LateExceptionsAreClaims(steps, 0);
  }

  /** The most claims of delivery 0 in a run with these events. */
  ghost predicate IsMost(most: nat, n: nat, m: nat, k: nat) {
    && (exists s :: Attained(s, most, n, m, k))
    && (forall s, claims: nat :: Attained(s, claims, n, m, k) ==> claims <= most)
  }

  lemma MostAtPrice(price: nat, s: State, n: nat, m: nat, k: nat)
    requires Attained(s, Budget(TariffOf(price), 1 + n, m, k), n, m, k)
    ensures IsMost(Budget(TariffOf(price), 1 + n, m, k), n, m, k)
  {
    forall other, claims: nat | Attained(other, claims, n, m, k)
      ensures claims <= Budget(TariffOf(price), 1 + n, m, k)
    {
      AttainedIsBounded(price, other, claims, n, m, k);
    }
  }

  lemma MostOfManyLate(n: nat, m: nat, k: nat)
    requires 255 * (1 + n + m) <= k <= 511 * (1 + n) + 510 * m
    ensures IsMost(Budget(TariffOf(0), 1 + n, m, k), n, m, k)
  {
    var s := BudgetIsAttainedIdly(n, m, k);
    GainInNumbers();
    BudgetWith(TariffOf(0), 510, 1 + n, m, k);
    MostAtPrice(0, s, n, m, k);
  }

  lemma TooManyLate(n: nat, m: nat, k: nat)
    requires k > 511 * (1 + n) + 510 * m
    ensures forall s, claims: nat :: !Attained(s, claims, n, m, k)
  {
    forall s, claims: nat ensures !Attained(s, claims, n, m, k) {
      if Attained(s, claims, n, m, k) {
        AttainedIsBounded(0, s, claims, n, m, k);
      }
    }
  }

  /**
   The bounds are attained together. For all numbers of re-queues, stale claims and late exceptions,
   the most claims are those that one of the prices allows, unless there are more late exceptions than
   all claims there can be; and then no run has these numbers.
   */
  lemma MostAttempts(n: nat, m: nat, k: nat)
    ensures
      if k <= 511 * (1 + n) + 510 * m then exists price :: IsMost(Budget(TariffOf(price), 1 + n, m, k), n, m, k)
      else forall s, claims: nat :: !Attained(s, claims, n, m, k)
  {
    if k <= 255 * (1 + n + m) {
      var price, s := BudgetIsAttained(n, m, k);
      MostAtPrice(price, s, n, m, k);
    } else if k <= 511 * (1 + n) + 510 * m {
      MostOfManyLate(n, m, k);
    } else {
      TooManyLate(n, m, k);
    }
  }

  /** Nine claims without an event, nine more for each re-queue, eight for each stale claim or late exception. */
  lemma AttemptsAreAttained(n: nat, m: nat, k: nat) returns (s: State)
    requires k <= 1 + n + m
    ensures Attained(s, 9 * (1 + n) + 8 * (m + k), n, m, k)
  {
    var price;
    price, s := BudgetIsAttained(n, m, k);
    GainInNumbers();
    BudgetWith(TariffOf(8), 8, 1 + n, m, k);
  }

  /** One late exception, with fresh counts and no re-queue, takes a delivery from nine attempts to 17. */
  lemma LateExceptionAddsAttempts() returns (undisturbed: State, disturbed: State)
    ensures Attained(undisturbed, 9, 0, 0, 0) && Attained(disturbed, 17, 0, 0, 1)
  {
    undisturbed := AttemptsAreAttained(0, 0, 0);
    disturbed := AttemptsAreAttained(0, 0, 1);
  }
}
