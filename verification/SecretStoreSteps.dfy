/** How a writer of the store waits for its lock, and what it leaves when something goes wrong. */
module SecretStoreSteps {
  import opened Common
  import opened SecretStoreModel

  /** The clock goes on by what is waited, and never back. */
  lemma {:induction false} ClockOnlyAdvances(d: Directory, steps: seq<Step>, ms: nat)
    ensures Apply(d, Tick(ms)) == d.(clock := d.clock + ms)
    ensures d.clock <= Run(d, steps).clock
    decreases |steps|
  {
    if steps == [] {
    } else {
      ClockOnlyAdvances(Apply(d, steps[0]), steps[1..], ms);
    }
  }

  // -- The lock ----------------------------------------------------------------------------

  /** The lock file is created exactly if there is none, and says who holds it and since when. */
  lemma LockIsExclusive(d: Directory, w: ProcessId)
    requires w in d.writers && d.writers[w].phase == Acquiring
    ensures
      var d' := Apply(d, Advance(w));
      if LockName in d.files then
        d'.files == d.files && d'.writers == d.writers[w := d.writers[w].(phase := Refused)]
      else
        && d'.files == d.files[LockName := LockText(w, d.clock)]
        && d'.writers == d.writers[w := d.writers[w].(phase := Opened)]
  {}

  /** Its text refreshes the own lock; if that was broken meanwhile, neither its place nor another lock is touched. */
  lemma LockTextGoesToOwnLock(d: Directory, w: ProcessId)
    requires w in d.writers && d.writers[w].phase == Opened
    ensures
      var d' := Apply(d, Advance(w));
      && d' == d.(files := d'.files, writers := d.writers[w := d.writers[w].(phase := Holding)])
      && if exists since :: LockName in d.files && d.files[LockName] == LockText(w, since)
         then d'.files == d.files[LockName := LockText(w, d.clock)]
         else d'.files == d.files
  {
    if LockName in d.files && d.files[LockName].LockText? {
      var lock := d.files[LockName];
      assert lock == LockText(lock.owner, lock.touchedAt);
    }
  }

  /**
   A writer that was refused breaks a lock that was not touched for more than thirty seconds; on any
   other it gives up five seconds after it began, and tries again before that.
   */
  lemma RefusedDecides(d: Directory, w: ProcessId)
    requires w in d.writers && d.writers[w].phase == Refused
    ensures
      var d', begun := Apply(d, Advance(w)), d.writers[w].startedAt;
      && d'.files == d.files && d'.commits == d.commits && w in d'.writers
      && d'.writers == d.writers[w := d.writers[w].(phase := d'.writers[w].phase)]
      && (d'.writers[w].phase == Breaking <==>
            exists owner, touchedAt ::
              LockName in d.files && d.files[LockName] == LockText(owner, touchedAt) && touchedAt + 30000 < d.clock)
      && (d'.writers[w].phase == Finished(false) <==> d'.writers[w].phase != Breaking && begun + 5000 <= d.clock)
      && (d'.writers[w].phase == Acquiring <==> d'.writers[w].phase != Breaking && d.clock < begun + 5000)
  {
    if LockName in d.files && d.files[LockName].LockText? {
      var lock := d.files[LockName];
      assert lock == LockText(lock.owner, lock.touchedAt);
    }
  }

  /** Breaking a lock removes the file, whoever holds it by then, and the writer starts over. */
  lemma BreakingRemoves(d: Directory, w: ProcessId)
    requires w in d.writers && d.writers[w].phase == Breaking
    ensures Apply(d, Advance(w)) ==
            d.(files := d.files - {LockName}, writers := d.writers[w := d.writers[w].(phase := Acquiring)])
  {}

  // -- Failures ----------------------------------------------------------------------------

  ghost predicate Temporary(name: Name, w: ProcessId) {
    name == TempName(w, ForRecord) || name == TempName(w, ForMetadata)
  }

  /**
   An error after the lock was obtained: the temporary files and the lock go, everything else stays,
   nothing is committed, and the writer reports a failure.
   */
  lemma ErrorCleansUp(d: Directory, w: ProcessId)
    requires w in d.writers && !d.writers[w].phase.Opened?
    requires d.writers[w].phase !in {Acquiring, Refused, Breaking, Crashed, Cleaning}
    requires !d.writers[w].phase.Releasing? && !d.writers[w].phase.Finished?
    ensures
      var d' := Apply(Apply(Apply(d, IoError(w)), Advance(w)), Advance(w));
      && d' == d.(files := d'.files, writers := d.writers[w := d.writers[w].(phase := Finished(false))])
      && (forall name :: name in d'.files <==> name in d.files && name != LockName && !Temporary(name, w))
      && (forall name :: name in d'.files ==> d'.files[name] == d.files[name])
  {
    var failed := Apply(d, IoError(w));
    var cleaned := Apply(failed, Advance(w));
    assert failed.writers[w].phase == Cleaning && cleaned.writers[w].phase == Releasing(false);
    assert Apply(cleaned, Advance(w)).writers == d.writers[w := d.writers[w].(phase := Finished(false))];
  }

  /** An error while the text of the lock is written leaves the lock behind, until it is stale. */
  lemma ErrorLeavesLock(d: Directory, w: ProcessId)
    requires w in d.writers && d.writers[w].phase == Opened
    ensures Apply(d, IoError(w)) == d.(writers := d.writers[w := d.writers[w].(phase := Finished(false))])
  {}

  /** A removal that fails leaves what it was to remove: the temporary files, or the lock; the answer stays. */
  lemma FailedRemovalLeavesFiles(d: Directory, w: ProcessId, stored: bool)
    requires w in d.writers
    ensures d.writers[w].phase == Cleaning ==>
              Apply(d, IoError(w)) == d.(writers := d.writers[w := d.writers[w].(phase := Releasing(false))])
    ensures d.writers[w].phase == Releasing(stored) ==>
              Apply(d, IoError(w)) == d.(writers := d.writers[w := d.writers[w].(phase := Finished(stored))])
  {}

  /** A process that stops leaves all its files, and does nothing any more. */
  lemma CrashLeavesFiles(d: Directory, w: ProcessId)
    requires w in d.writers && !d.writers[w].phase.Finished?
    ensures
      var d' := Apply(d, Crash(w));
      && d' == d.(writers := d.writers[w := d.writers[w].(phase := Crashed)])
      && Apply(d', Advance(w)) == d' && Apply(d', IoError(w)) == d'
  {}

  /** Another key than the store's, or metadata that cannot be read, ends a write before it writes. */
  lemma BadStateStops(d: Directory, w: ProcessId)
    requires w in d.writers
    requires
      || (d.writers[w].phase == Holding && d.writers[w].key != d.key)
      || (d.writers[w].phase == Keyed && ReadMetadata(d.files, d.fingerprint).Err?)
    ensures
      var d' := Apply(Apply(d, Advance(w)), Advance(w));
      d' == d.(files := d.files - {LockName}, writers := d.writers[w := d.writers[w].(phase := Finished(false))])
  {
    var d1 := Apply(d, Advance(w));
    assert d1.writers[w].phase == Releasing(false) && d1.files == d.files;
    assert Apply(d1, Advance(w)).writers == d.writers[w := d.writers[w].(phase := Finished(false))];
  }

  /** An empty value is refused before anything happens; a deletion needs none. */
  lemma EmptyValueIsRefused(d: Directory, w: ProcessId, operation: Operation, value: string, key: Key, iv: nat)
    requires w !in d.writers
    ensures
      Apply(d, Start(w, operation, value, key, iv)) ==
        if operation == Write && |value| == 0 then d
        else d.(writers := d.writers[w := Writer(operation, value, key, iv, d.clock, d.clock, Acquiring)])
  {}

  // -- Reading -----------------------------------------------------------------------------

  /** A read answers at once if the metadata cannot be read, and otherwise looks for the record it lists. */
  lemma ReadTakesTwoSteps(d: Directory, r: ProcessId)
    requires r !in d.readers
    ensures
      var observed := Apply(d, Observe(r));
      var answered := Apply(observed, Fetch(r));
      && answered == d.(readers := answered.readers) && r in answered.readers && answered.readers[r].Answered?
      && answered.readers[r].result == GetSecret(d.files, d.fingerprint, d.key)
      && answered.readers[r].seen == |d.commits|
  {}
}
