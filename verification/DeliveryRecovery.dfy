/** Claims and their leases: which claimed rows the recovery scans take from their workers. */
module DeliveryRecovery {
  import opened Common
  import opened RetryClassifier
  import opened DeliveryModel
  import opened DeliverySafety
  import opened DeliveryServices

  /** The row is claimed since this time. */
  predicate ClaimedSince(s: State, d: DeliveryId, at: Millis) {
    d in s.rows && s.rows[d].status == Sending && s.rows[d].lastAttemptAt == Some(at)
  }

  /** A successful claim dates the row with the start of its worker. */
  lemma ClaimDatesRow(s: State, w: WorkerId)
    requires w in s.workers && s.workers[w].phase == Loaded && Claimable(s, s.workers[w].delivery)
    ensures ClaimedSince(Apply(s, Claim(w)), s.workers[w].delivery, s.workers[w].startedAt)
  {}

  /** The steps that answer for a claimed row: a write of a worker or a re-queue on it, or a scan after the lease. */
  predicate EndsClaim(s: State, step: Step, d: DeliveryId, at: Millis) {
    match step
    case WriteDelivered(w, _) => w in s.workers && s.workers[w].delivery == d
    case WriteFailure(w, _, _) => w in s.workers && s.workers[w].delivery == d
    case RequestWrite(r, _, _) => WritesRequeue(s, step, d)
    case QuarantineStale(_, staleBefore) => at < staleBefore
    case _ => false
  }

  lemma OthersLeaveClaim(s: State, step: Step, d: DeliveryId, at: Millis)
    requires ClaimedSince(s, d, at) && !EndsClaim(s, step, d, at)
    ensures d in Apply(s, step).rows && Apply(s, step).rows[d] == s.rows[d]
  {}

  ghost predicate NothingEnds(s: State, steps: seq<Step>, d: DeliveryId, at: Millis)
    decreases |steps|
  {
    steps == [] || (!EndsClaim(s, steps[0], d, at) && NothingEnds(Apply(s, steps[0]), steps[1..], d, at))
  }

  /**
   A claim that nobody has answered for is left alone over any run, as long as no scan asks for leases
   later than its start; so are the rows of live workers.
   */
  lemma {:induction false} LiveClaimStays(s: State, steps: seq<Step>, d: DeliveryId, at: Millis)
    requires ClaimedSince(s, d, at) && NothingEnds(s, steps, d, at)
    ensures ClaimedSince(Run(s, steps), d, at) && Run(s, steps).rows[d] == s.rows[d]
    decreases |steps|
  {
    if steps == [] {
    } else {
      OthersLeaveClaim(s, steps[0], d, at);
      LiveClaimStays(Apply(s, steps[0]), steps[1..], d, at);
    }
  }

  /** The first scan after its lease takes the claim from a silent worker, in scope only. */
  lemma SilentClaimIsTaken(s: State, steps: seq<Step>, d: DeliveryId, at: Millis, scopeStart: Millis,
                           staleBefore: Millis)
    requires ClaimedSince(s, d, at) && NothingEnds(s, steps, d, at)
    ensures
      var waited := Run(s, steps);
      var scanned := Apply(waited, QuarantineStale(scopeStart, staleBefore));
      && d in scanned.rows
      && scanned.rows[d] ==
           if at < staleBefore && scopeStart <= s.rows[d].createdAt then s.rows[d].(status := ManualReview)
           else s.rows[d]
  {
    LiveClaimStays(s, steps, d, at);
  }
}
