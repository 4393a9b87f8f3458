/** Where the secret store falls short, on concrete runs. */
module SecretStoreLimits {
  import opened Common
  import opened DecimalText
  import opened SecretStoreModel
  import opened SecretStoreSafety
  import opened SecretStoreLineage
  import opened SecretStoreRefinement

  ghost predicate Reachable(start: Directory, d: Directory) {
    exists steps :: Run(start, steps) == d
  }

  lemma {:induction false} RunThen(start: Directory, steps: seq<Step>, step: Step)
    ensures Run(start, steps + [step]) == Apply(Run(start, steps), step)
    decreases |steps|
  {
    if steps == [] {
      assert Run(start, [step]) == Run(Apply(start, step), []);
    } else {
      assert (steps + [step])[1..] == steps[1..] + [step];
      RunThen(Apply(start, steps[0]), steps[1..], step);
    }
  }

  lemma Extend(start: Directory, d: Directory, step: Step)
    requires Reachable(start, d)
    ensures Reachable(start, Apply(d, step))
  {
    var steps :| Run(start, steps) == d;
    RunThen(start, steps, step);
  }

  /** The state of a writer that has reached the rename, alone, from a free lock. */
  ghost function Filled(d: Directory, w: ProcessId, found: Option<Metadata>, next: nat): Directory
    requires w in d.writers
  {
    var wr := d.writers[w].(createdAt := d.clock, phase := MetaFilled(found, next));
    d.(writers := d.writers[w := wr],
       files := d.files[LockName := LockText(w, d.clock)]
                       [VersionName(FileName(next)) := RecordFile(RecordFor(d.fingerprint, wr, next))]
                       [TempName(w, ForMetadata) := MetadataFile(MetadataFor(d.fingerprint, wr, found, next))])
  }

  ghost function Entered(d: Directory, w: ProcessId, found: Option<Metadata>, next: nat): Directory
    requires w in d.writers
  {
    d.(writers := d.writers[w := d.writers[w].(createdAt := d.clock, phase := Numbered(found, next))],
       files := d.files[LockName := LockText(w, d.clock)])
  }

  lemma OpenLock(start: Directory, d: Directory, w: ProcessId)
    requires Reachable(start, d) && w in d.writers && d.writers[w].phase == Acquiring && LockName !in d.files
    ensures Reachable(start, SetPhase(d, w, Holding).(files := d.files[LockName := LockText(w, d.clock)]))
  {
    Extend(start, d, Advance(w));
    var d1 := Apply(d, Advance(w));
    assert d1 == SetPhase(d, w, Opened).(files := d.files[LockName := LockText(w, d.clock)]);
    Extend(start, d1, Advance(w));
    assert Apply(d1, Advance(w)) == SetPhase(d, w, Holding).(files := d.files[LockName := LockText(w, d.clock)]);
  }

  lemma LockIsNoVersion(files: Files, blob: Blob)
    ensures MaximumVersionOnDisk(files[LockName := blob]) == MaximumVersionOnDisk(files)
  {
    assert NumbersOnDisk(files[LockName := blob]) == NumbersOnDisk(files);
  }

  lemma Enter(start: Directory, d: Directory, w: ProcessId, found: Option<Metadata>, next: nat)
    requires Reachable(start, d) && w in d.writers && d.writers[w].phase == Acquiring && LockName !in d.files
    requires d.writers[w].key == d.key
    requires ReadMetadata(d.files, d.fingerprint) == Ok(found)
    requires next == Max(CurrentVersion(found), MaximumVersionOnDisk(d.files)) + 1
    ensures Reachable(start, Entered(d, w, found, next))
  {
    OpenLock(start, d, w);
    var d2 := SetPhase(d, w, Holding).(files := d.files[LockName := LockText(w, d.clock)]);
    Extend(start, d2, Advance(w));
    var d3 := SetPhase(d2, w, Keyed);
    assert Apply(d2, Advance(w)) == d3;
    Extend(start, d3, Advance(w));
    var d4 := SetPhase(d3, w, Looked(found));
    assert ReadMetadata(d3.files, d.fingerprint) == Ok(found);
    assert Apply(d3, Advance(w)) == d4;
    Extend(start, d4, Advance(w));
    LockIsNoVersion(d.files, LockText(w, d.clock));
    assert Apply(d4, Advance(w)) == Entered(d, w, found, next);
  }

  lemma FillRecord(start: Directory, d: Directory, w: ProcessId, found: Option<Metadata>, next: nat)
    requires Reachable(start, d) && w in d.writers && d.writers[w].phase == Numbered(found, next)
    ensures Reachable(start, PutTemp(d, w, ForRecord,
              RecordFile(RecordFor(d.fingerprint, d.writers[w], next)), RecordFilled(found, next)))
  {
    Extend(start, d, Advance(w));
    var d1 := PutTemp(d, w, ForRecord, Partial, RecordOpened(found, next));
    assert Apply(d, Advance(w)) == d1;
    Extend(start, d1, Advance(w));
    assert Apply(d1, Advance(w)) == PutTemp(d, w, ForRecord,
              RecordFile(RecordFor(d.fingerprint, d.writers[w], next)), RecordFilled(found, next));
  }

  ghost function Placed(d: Directory, w: ProcessId, found: Option<Metadata>, next: nat): Directory
    requires w in d.writers
  {
    SetPhase(d, w, Recorded(found, next)).(
      files := d.files[VersionName(FileName(next)) := RecordFile(RecordFor(d.fingerprint, d.writers[w], next))])
  }

  lemma PlaceRecord(start: Directory, d: Directory, w: ProcessId, found: Option<Metadata>, next: nat)
    requires Reachable(start, d) && w in d.writers && d.writers[w].phase == Numbered(found, next)
    requires TempName(w, ForRecord) !in d.files && VersionName(FileName(next)) !in d.files
    ensures Reachable(start, Placed(d, w, found, next))
  {
    FillRecord(start, d, w, found, next);
    var record := RecordFile(RecordFor(d.fingerprint, d.writers[w], next));
    var d2 := PutTemp(d, w, ForRecord, record, RecordFilled(found, next));
    Extend(start, d2, Advance(w));
    var d3 := SetPhase(d2, w, Linked(found, next)).(files := d2.files[VersionName(FileName(next)) := record]);
    assert Apply(d2, Advance(w)) == d3;
    Extend(start, d3, Advance(w));
    assert Without(d3.files, TempName(w, ForRecord)) == d.files[VersionName(FileName(next)) := record];
    assert Apply(d3, Advance(w)) == Placed(d, w, found, next);
  }

  lemma FillMetadata(start: Directory, d: Directory, w: ProcessId, found: Option<Metadata>, next: nat)
    requires Reachable(start, d) && w in d.writers && d.writers[w].phase == Recorded(found, next)
    ensures Reachable(start, PutTemp(d, w, ForMetadata,
              MetadataFile(MetadataFor(d.fingerprint, d.writers[w], found, next)), MetaFilled(found, next)))
  {
    Extend(start, d, Advance(w));
    var d1 := PutTemp(d, w, ForMetadata, Partial, MetaOpened(found, next));
    assert Apply(d, Advance(w)) == d1;
    Extend(start, d1, Advance(w));
    assert Apply(d1, Advance(w)) == PutTemp(d, w, ForMetadata,
              MetadataFile(MetadataFor(d.fingerprint, d.writers[w], found, next)), MetaFilled(found, next));
  }

  lemma Prepare(start: Directory, d: Directory, w: ProcessId, found: Option<Metadata>, next: nat)
    requires Reachable(start, d) && w in d.writers && d.writers[w].phase == Acquiring && LockName !in d.files
    requires d.writers[w].key == d.key
    requires ReadMetadata(d.files, d.fingerprint) == Ok(found)
    requires next == Max(CurrentVersion(found), MaximumVersionOnDisk(d.files)) + 1
    requires TempName(w, ForRecord) !in d.files && VersionName(FileName(next)) !in d.files
    ensures Reachable(start, Filled(d, w, found, next))
  {
    Enter(start, d, w, found, next);
    var d1 := Entered(d, w, found, next);
    PlaceRecord(start, d1, w, found, next);
    var d2 := Placed(d1, w, found, next);
    FillMetadata(start, d2, w, found, next);
    var wr := d.writers[w].(createdAt := d.clock, phase := MetaFilled(found, next));
    assert MetadataFor(d.fingerprint, d2.writers[w], found, next) == MetadataFor(d.fingerprint, wr, found, next);
    assert PutTemp(d2, w, ForMetadata, MetadataFile(MetadataFor(d.fingerprint, d2.writers[w], found, next)),
                   MetaFilled(found, next)) == Filled(d, w, found, next);
  }

  lemma StartWriter(start: Directory, d: Directory, w: ProcessId, value: string)
    requires Reachable(start, d) && w !in d.writers && value != ""
    ensures Reachable(start, d.(writers := d.writers[w := Writer(Write, value, d.key, 0, d.clock, d.clock, Acquiring)]))
  {
    Extend(start, d, Step.Start(w, Write, value, d.key, 0));
  }

  lemma BreakStaleLock(start: Directory, d: Directory, w: ProcessId, owner: ProcessId, touchedAt: Millis)
    requires Reachable(start, d) && w in d.writers && d.writers[w].phase == Acquiring
    requires Holds(d.files, LockName, LockText(owner, touchedAt)) && d.clock - touchedAt > STALE_LOCK_MS
    ensures Reachable(start, d.(files := Without(d.files, LockName)))
  {
    Extend(start, d, Advance(w));
    var d1 := SetPhase(d, w, Refused);
    assert Apply(d, Advance(w)) == d1;
    Extend(start, d1, Advance(w));
    var d2 := SetPhase(d, w, Breaking);
    assert Apply(d1, Advance(w)) == d2;
    Extend(start, d2, Advance(w));
    assert Apply(d2, Advance(w)) == d.(files := Without(d.files, LockName));
  }

  /** A first write that stopped just before its rename. */
  ghost function FirstWriteStopped(fingerprint: Fingerprint, key: Key, value: string): Directory {
    var d := Init(fingerprint, key, 0).(
      writers := map[0 := Writer(Write, value, key, 0, 0, 0, Acquiring)]);
    Filled(d, 0, None, 1)
  }

  lemma OneBelowLimit()
    ensures 1 < Pow10(VERSION_DIGITS)
  {
    assert Pow10(VERSION_DIGITS) == 10 * Pow10(7);
  }

  lemma FirstWriteStops(fingerprint: Fingerprint, key: Key, value: string)
    requires value != ""
    ensures Reachable(Init(fingerprint, key, 0), FirstWriteStopped(fingerprint, key, value))
    ensures NumbersOnDisk(FirstWriteStopped(fingerprint, key, value).files) == {1}
  {
    var start := Init(fingerprint, key, 0);
    assert Run(start, []) == start;
    StartWriter(start, start, 0, value);
    var d := start.(writers := map[0 := Writer(Write, value, key, 0, 0, 0, Acquiring)]);
    assert NumbersOnDisk(d.files) == {};
    Prepare(start, d, 0, None, 1);
    RecognisedVersions(1);
    OneBelowLimit();
    var files := FirstWriteStopped(fingerprint, key, value).files;
    assert VersionName(FileName(1)) in files;
    assert forall name :: name in files && name.VersionName? ==> name.text == FileName(1);
  }

  /** A crash in the first write of a secret leaves a directory without metadata. */
  lemma CrashInFirstWriteLeavesNoMetadata(fingerprint: Fingerprint, key: Key, value: string)
    requires value != ""
    ensures exists steps ::
      var d := Run(Init(fingerprint, key, 0), steps);
      && d.files != map[] && MetaName !in d.files && NobodyInside(d)
  {
    FirstWriteStops(fingerprint, key, value);
    var d := FirstWriteStopped(fingerprint, key, value);
    Extend(Init(fingerprint, key, 0), d, Crash(0));
    var d' := Apply(d, Crash(0));
    assert LockName in d'.files;
    var steps :| Run(Init(fingerprint, key, 0), steps) == d';
  }

  /** The second writer breaks the lock of the first, which is alive and about to rename. */
  ghost function BothFilled(fingerprint: Fingerprint, key: Key, first: string, second: string): Directory {
    var d := FirstWriteStopped(fingerprint, key, first);
    var now := STALE_LOCK_MS + 1;
    Filled(d.(clock := now, files := Without(d.files, LockName),
              writers := d.writers[1 := Writer(Write, second, key, 0, now, now, Acquiring)]), 1, None, 2)
  }

  lemma FileNamesDiffer()
    ensures FileName(2) != FileName(1)
  {
    if FileName(2) == FileName(1) {
      FileNameIsInjective(2, 1);
    }
  }

  lemma SecondWriterCatchesUp(fingerprint: Fingerprint, key: Key, first: string, second: string)
    requires first != "" && second != ""
    ensures Reachable(Init(fingerprint, key, 0), BothFilled(fingerprint, key, first, second))
  {
    var start := Init(fingerprint, key, 0);
    FirstWriteStops(fingerprint, key, first);
    var d1 := FirstWriteStopped(fingerprint, key, first);
    Extend(start, d1, Tick(STALE_LOCK_MS + 1));
    var d2 := d1.(clock := STALE_LOCK_MS + 1);
    assert Apply(d1, Tick(STALE_LOCK_MS + 1)) == d2;
    StartWriter(start, d2, 1, second);
    var w1 := Writer(Write, second, key, 0, d2.clock, d2.clock, Acquiring);
    var d3 := d2.(writers := d2.writers[1 := w1]);
    BreakStaleLock(start, d3, 1, 0, 0);
    var d4 := d3.(files := Without(d3.files, LockName));
    assert NumbersOnDisk(d4.files) == NumbersOnDisk(d1.files);
    FileNamesDiffer();
    Prepare(start, d4, 1, None, 2);
  }

  /**
   A writer pauses for more than the stale limit just before its rename; another breaks its live
   lock, stores version 2 and commits; then the first one renames. The store goes back to version 1,
   and the second commit is no longer listed.
   */
  lemma BrokenLiveLockLosesCommit(fingerprint: Fingerprint, key: Key, first: string, second: string)
    requires first != "" && second != ""
    ensures exists steps ::
      var d := Run(Init(fingerprint, key, 0), steps);
      && d.commits == [Commit(1, Write, second, 2), Commit(0, Write, first, 1)]
      && Current(d).Some? && Current(d).value.currentVersion == 1 && |Current(d).value.versions| == 1
  {
    var start := Init(fingerprint, key, 0);
    SecondWriterCatchesUp(fingerprint, key, first, second);
    var d5 := BothFilled(fingerprint, key, first, second);
    Extend(start, d5, Advance(1));
    var d6 := Apply(d5, Advance(1));
    assert d6.commits == [Commit(1, Write, second, 2)];
    assert d6.writers[0] == d5.writers[0] && TempName(0, ForMetadata) in d6.files;
    assert d6.files[TempName(0, ForMetadata)] == d5.files[TempName(0, ForMetadata)];
    Extend(start, d6, Advance(0));
    var d7 := Apply(d6, Advance(0));
    assert d7.commits == [Commit(1, Write, second, 2), Commit(0, Write, first, 1)];
    var steps :| Run(start, steps) == d7;
  }
}
