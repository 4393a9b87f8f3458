/** The secret provider as an object over the files of its directories, without interference. */
module SecretStore {
  import opened Common
  import opened DecimalText
  import opened SecretStoreModel
  import opened SecretStoreSafety
  import opened SecretStoreRefinement

  const LOCK_WAIT_MS: Millis := 25

  // -- Deep validation ---------------------------------------------------------------------

  datatype Counts = Counts(active: nat, deleted: nat, versions: nat)

  function VerifyEntry(files: Files, key: Key, m: Metadata, e: Entry): Result<string, SecretError> {
    if VersionName(e.fileName) !in files then Err(ReadFailed)
    else OpenRecord(files[VersionName(e.fileName)], m.fingerprint, key, e)
  }

  /** The first error among the versions from number `i` on. */
  function VerifyEntries(files: Files, key: Key, m: Metadata, i: nat): Option<SecretError>
    decreases |m.versions| - i
  {
    if i >= |m.versions| then None
    else match VerifyEntry(files, key, m, m.versions[i])
      case Err(error) => Some(error)
      case Ok(_) => VerifyEntries(files, key, m, i + 1)
  }

  function VerifyDirectory(files: Files, key: Key): Result<Metadata, SecretError> {
    if MetaName !in files then Err(ReadFailed)
    else if !files[MetaName].MetadataFile? || !AssertMetadata(files[MetaName].metadata) then Err(MetadataCorrupt)
    else match VerifyEntries(files, key, files[MetaName].metadata, 0)
      case Some(error) => Err(error)
      case None => Ok(files[MetaName].metadata)
  }

  function Counted(c: Counts, m: Metadata): Counts {
    Counts(c.active + (if m.deleted then 0 else 1), c.deleted + (if m.deleted then 1 else 0), c.versions + |m.versions|)
  }

  /** The directories are visited in the order of the listing, up to the first error. */
  function VerifyAll(dirs: map<Fingerprint, Files>, key: Key, listing: seq<Fingerprint>): Result<Counts, SecretError>
    requires forall f :: f in listing ==> f in dirs
  {
    if listing == [] then Ok(Counts(0, 0, 0))
    else
      var n := |listing| - 1;
      match VerifyAll(dirs, key, listing[..n])
      case Err(error) => Err(error)
      case Ok(counts) =>
        match VerifyDirectory(dirs[listing[n]], key)
        case Err(error) => Err(error)
        case Ok(m) => Ok(Counted(counts, m))
  }

  lemma {:induction false} BackedVerifies(files: Files, key: Key, m: Metadata, i: nat)
    requires Backed(files, m.fingerprint, key, m) && i <= |m.versions|
    ensures VerifyEntries(files, key, m, i) == None
    decreases |m.versions| - i
  {
    if i < |m.versions| {
      assert EntryBacked(files, m.fingerprint, key, m.versions[i]);
      BackedVerifies(files, key, m, i + 1);
    }
  }

  /** In a reachable directory, validation finds what the commits say, or no metadata at all. */
  lemma DirectoryVerifies(d: Directory)
    requires MetadataOk(d)
    ensures d.commits == [] ==> VerifyDirectory(d.files, d.key) == Err(ReadFailed)
    ensures d.commits != [] ==>
              && VerifyDirectory(d.files, d.key).Ok?
              && (VerifyDirectory(d.files, d.key).value.deleted <==> Meaning(d.commits) == None)
  {
    if d.commits != [] {
      BackedVerifies(d.files, d.key, d.files[MetaName].metadata, 0);
    }
  }

  function FilesOf(store: Store): map<Fingerprint, Files> {
    map f | f in store :: store[f].files
  }

  function Present(listing: seq<Fingerprint>, view: map<Fingerprint, string>): nat {
    if listing == [] then 0
    else Present(listing[..|listing| - 1], view) + if listing[|listing| - 1] in view then 1 else 0
  }

  lemma {:induction false} ValidationSums(
    dirs: map<Fingerprint, Files>, key: Key, listing: seq<Fingerprint>,
    committed: set<Fingerprint>, view: map<Fingerprint, string>)
    requires forall f :: f in listing ==> f in dirs
    requires forall f :: f in listing && f !in committed ==> VerifyDirectory(dirs[f], key) == Err(ReadFailed)
    requires forall f :: f in listing && f in committed ==>
               VerifyDirectory(dirs[f], key).Ok? && (VerifyDirectory(dirs[f], key).value.deleted <==> f !in view)
    ensures
      var result := VerifyAll(dirs, key, listing);
      && (result.Ok? <==> forall f :: f in listing ==> f in committed)
      && (result.Ok? ==>
            && result.value.active == Present(listing, view)
            && result.value.active + result.value.deleted == |listing|)
      && (result.Err? ==> result == Err(ReadFailed))
  {
    if listing == [] {
    } else {
      var n := |listing| - 1;
      assert listing[n] in listing && listing == listing[..n] + [listing[n]];
      ValidationSums(dirs, key, listing[..n], committed, view);
    }
  }

  /**
   Deep validation passes exactly when every directory has its metadata, and then counts as active
   exactly the references that have a value. A first write that crashed makes it fail.
   */
  lemma ValidationPasses(store: Store, key: Key, listing: seq<Fingerprint>)
    requires StoreInv(store, key) && forall f :: f in listing ==> f in store
    ensures
      var result := VerifyAll(FilesOf(store), key, listing);
      && (result.Ok? <==> forall f :: f in listing ==> MetaName in store[f].files)
      && (result.Ok? ==>
            && result.value.active == Present(listing, View(store))
            && result.value.active + result.value.deleted == |listing|)
      && (result.Err? ==> result == Err(ReadFailed))
  {
    var committed := set f | f in store && store[f].commits != [];
    forall f | f in listing ensures MetadataOk(store[f]) && store[f].key == key {}
    forall f | f in listing
      ensures f in committed <==> MetaName in store[f].files
      ensures f !in committed ==> VerifyDirectory(store[f].files, key) == Err(ReadFailed)
      ensures f in committed ==>
                && VerifyDirectory(store[f].files, key).Ok?
                && (VerifyDirectory(store[f].files, key).value.deleted <==> Meaning(store[f].commits) == None)
    {
      DirectoryVerifies(store[f]);
    }
    ValidationSums(FilesOf(store), key, listing, committed, View(store));
  }

  // -- The object --------------------------------------------------------------------------

  /** The files of a directory after a completed write. */
  function Stored(files: Files, f: Fingerprint, wr: Writer, found: Option<Metadata>, next: nat): Files {
    Without(files, LockName)[VersionName(FileName(next)) := RecordFile(RecordFor(f, wr, next))]
                            [MetaName := MetadataFile(MetadataFor(f, wr, found, next))]
  }

  lemma AppendedIsValid(f: Fingerprint, wr: Writer, found: Option<Metadata>, next: nat)
    requires found.Some? ==> AssertMetadata(found.value)
    requires CurrentVersion(found) < next
    ensures AssertMetadata(MetadataFor(f, wr, found, next))
  {
    var m := MetadataFor(f, wr, found, next);
    var listed := if found.Some? then found.value.versions else [];
    forall i | 0 <= i < |m.versions| ensures EntryValid(m, i) {
      if i < |listed| {
        assert EntryValid(found.value, i);
      }
    }
  }

  /** What was written can be read back; a deletion reads as not found. */
  lemma StoredReadsBack(files: Files, f: Fingerprint, wr: Writer, found: Option<Metadata>, next: nat)
    requires ReadMetadata(files, f) == Ok(found) && CurrentVersion(found) < next
    ensures
      GetSecret(Stored(files, f, wr, found, next), f, wr.key) ==
        if wr.operation == Delete then Err(NotFound)
        else if next < Pow10(VERSION_DIGITS) then Ok(wr.value)
        else Err(MetadataCorrupt)
  {
    AppendedIsValid(f, wr, found, next);
    var m := MetadataFor(f, wr, found, next);
    assert m.versions[|m.versions| - 1] == EntryFor(f, wr, next);
    RecognisedVersions(next);
  }

  /** Every record is one the directory scan recognises. */
  predicate Scannable(files: Files) {
    forall name :: name in files && name.VersionName? ==> IsRecordName(name.text)
  }

  /** From the files before to the files after an operation that got the lock. */
  ghost predicate Outcome(
    files: Files, after: Files, f: Fingerprint, wr: Writer, loadedKey: Key, result: Result<nat, SecretError>)
  {
    match result
    case Ok(next) =>
      && loadedKey == wr.key && ReadMetadata(files, f).Ok?
      && next == Max(CurrentVersion(ReadMetadata(files, f).value), MaximumVersionOnDisk(files)) + 1
      && VersionName(FileName(next)) !in files
      && after == Stored(files, f, wr, ReadMetadata(files, f).value, next)
    case Err(error) =>
      && after == Without(files, LockName)
      && error == (if loadedKey != wr.key then MasterKeyMismatch
                   else match ReadMetadata(files, f)
                        case Err(unreadable) => unreadable
                        case Ok(_) => ReadFailed)
      && (error == ReadFailed ==> !Scannable(files))
  }

  /** The same for an operation that may have given up on the lock. */
  ghost predicate Written(
    files: Files, after: Files, f: Fingerprint, wr: Writer, loadedKey: Key, result: Result<nat, SecretError>)
  {
    if result == Err(Busy) then after == files && LockName in files
    else Outcome(files, after, f, wr, loadedKey, result)
  }

  /** A name that is taken although it is past the scanned maximum is one the scan does not see. */
  lemma TakenNameIsNotScannable(files: Files, found: Option<Metadata>, next: nat)
    requires next == Max(CurrentVersion(found), MaximumVersionOnDisk(files)) + 1
    requires VersionName(FileName(next)) in files
    ensures !Scannable(files)
  {
    RecognisedVersions(next);
    if Scannable(files) {
      ScanSees(files, FileName(next));
    }
  }

  /** The lock is not part of the outcome. */
  lemma OutcomeIgnoresLock(
    files: Files, locked: Files, after: Files, f: Fingerprint, wr: Writer, loadedKey: Key,
    result: Result<nat, SecretError>)
    requires Without(locked, LockName) == Without(files, LockName)
    requires Outcome(locked, after, f, wr, loadedKey, result)
    ensures Outcome(files, after, f, wr, loadedKey, result)
  {
    assert forall name :: name != LockName ==> (name in files <==> name in Without(files, LockName));
    assert forall name :: name != LockName ==> (name in locked <==> name in Without(locked, LockName));
    assert MetaName in files ==> Without(files, LockName)[MetaName] == files[MetaName];
    assert MetaName in locked ==> Without(locked, LockName)[MetaName] == locked[MetaName];
    assert ReadMetadata(locked, f) == ReadMetadata(files, f);
    assert NumbersOnDisk(locked) == NumbersOnDisk(files);
    assert Scannable(files) ==> Scannable(locked);
  }

  // A write of a process alone, as steps of the system.

  /** n steps of one writer in a row. */
  ghost function Advances(d: Directory, w: ProcessId, n: nat): Directory
    decreases n
  {
    if n == 0 then d else Advances(DoAdvance(d, w), w, n - 1)
  }

  function Repeated(step: Step, n: nat): seq<Step> {
    if n == 0 then [] else [step] + Repeated(step, n - 1)
  }

  lemma {:induction false} AdvancesAreRun(d: Directory, w: ProcessId, n: nat)
    ensures Run(d, Repeated(Advance(w), n)) == Advances(d, w, n)
    decreases n
  {
    if n == 0 {
    } else {
      assert Repeated(Advance(w), n)[1..] == Repeated(Advance(w), n - 1);
      AdvancesAreRun(DoAdvance(d, w), w, n - 1);
    }
  }

  lemma {:induction false} AdvancesAdd(d: Directory, w: ProcessId, m: nat, n: nat)
    ensures Advances(d, w, m + n) == Advances(Advances(d, w, m), w, n)
    decreases m
  {
    if m == 0 {
    } else {
      AdvancesAdd(DoAdvance(d, w), w, m - 1, n);
    }
  }

  /** Writer w, advancing alone, gets from d to d'. */
  ghost predicate Reaches(d: Directory, w: ProcessId, d': Directory) {
    exists n: nat :: Advances(d, w, n) == d'
  }

  lemma ReachesNext(d: Directory, w: ProcessId)
    ensures Reaches(d, w, DoAdvance(d, w))
  {
    assert Advances(DoAdvance(d, w), w, 0) == DoAdvance(d, w);
    assert Advances(d, w, 1) == DoAdvance(d, w);
  }

  lemma ReachesThen(d: Directory, w: ProcessId, middle: Directory, d': Directory)
    requires Reaches(d, w, middle) && Reaches(middle, w, d')
    ensures Reaches(d, w, d')
  {
    var m: nat :| Advances(d, w, m) == middle;
    var n: nat :| Advances(middle, w, n) == d';
    AdvancesAdd(d, w, m, n);
  }

  lemma ReachesTwo(d: Directory, w: ProcessId)
    ensures Reaches(d, w, DoAdvance(DoAdvance(d, w), w))
  {
    ReachesNext(d, w);
    ReachesNext(DoAdvance(d, w), w);
    ReachesThen(d, w, DoAdvance(d, w), DoAdvance(DoAdvance(d, w), w));
  }

  function Now(d: Directory, w: ProcessId, wr: Writer, files: Files): Directory {
    d.(files := files, writers := d.writers[w := wr])
  }

  lemma LockingRuns(d: Directory, w: ProcessId)
    requires w in d.writers && d.writers[w].phase == Acquiring && d.writers[w].key == d.key && LockName !in d.files
    ensures Reaches(d, w, Now(d, w, d.writers[w].(phase := Keyed), d.files[LockName := LockText(w, d.clock)]))
  {
    var held := Now(d, w, d.writers[w].(phase := Holding), d.files[LockName := LockText(w, d.clock)]);
    assert DoAdvance(DoAdvance(d, w), w) == held;
    ReachesTwo(d, w);
    ReachesNext(held, w);
    ReachesThen(d, w, held, DoAdvance(held, w));
  }

  lemma NumberingRuns(d: Directory, w: ProcessId)
    requires w in d.writers && d.writers[w].phase == Keyed && ReadMetadata(d.files, d.fingerprint).Ok?
    ensures
      var found := ReadMetadata(d.files, d.fingerprint).value;
      var next := Max(CurrentVersion(found), MaximumVersionOnDisk(d.files)) + 1;
      Reaches(d, w, Now(d, w, d.writers[w].(createdAt := d.clock, phase := Numbered(found, next)), d.files))
  {
    ReachesTwo(d, w);
    var found := ReadMetadata(d.files, d.fingerprint).value;
    var next := Max(CurrentVersion(found), MaximumVersionOnDisk(d.files)) + 1;
    assert DoAdvance(DoAdvance(d, w), w)
        == Now(d, w, d.writers[w].(createdAt := d.clock, phase := Numbered(found, next)), d.files);
  }

  lemma RecordFills(d: Directory, w: ProcessId, found: Option<Metadata>, next: nat)
    requires w in d.writers && d.writers[w].phase == Numbered(found, next)
    ensures
      var record := RecordFile(RecordFor(d.fingerprint, d.writers[w], next));
      Reaches(d, w, Now(d, w, d.writers[w].(phase := RecordFilled(found, next)),
                        d.files[TempName(w, ForRecord) := record]))
  {
    ReachesTwo(d, w);
    var record := RecordFile(RecordFor(d.fingerprint, d.writers[w], next));
    assert DoAdvance(DoAdvance(d, w), w)
        == Now(d, w, d.writers[w].(phase := RecordFilled(found, next)), d.files[TempName(w, ForRecord) := record]);
  }

  lemma RecordLinks(d: Directory, w: ProcessId, found: Option<Metadata>, next: nat, files: Files, record: Blob)
    requires w in d.writers && d.writers[w].phase == RecordFilled(found, next)
    requires TempName(w, ForRecord) !in files && VersionName(FileName(next)) !in files
    requires d.files == files[TempName(w, ForRecord) := record]
    ensures Reaches(d, w, Now(d, w, d.writers[w].(phase := Recorded(found, next)),
        files[VersionName(FileName(next)) := record]))
  {
    var name := VersionName(FileName(next));
    ReachesTwo(d, w);
    assert Without(d.files[name := record], TempName(w, ForRecord)) == files[name := record];
    assert DoAdvance(DoAdvance(d, w), w)
        == Now(d, w, d.writers[w].(phase := Recorded(found, next)), files[name := record]);
  }

  lemma RecordRuns(d: Directory, w: ProcessId, found: Option<Metadata>, next: nat)
    requires w in d.writers && d.writers[w].phase == Numbered(found, next)
    requires TempName(w, ForRecord) !in d.files && VersionName(FileName(next)) !in d.files
    ensures
      var record := RecordFile(RecordFor(d.fingerprint, d.writers[w], next));
      Reaches(d, w, Now(d, w, d.writers[w].(phase := Recorded(found, next)),
          d.files[VersionName(FileName(next)) := record]))
  {
    var wr, record := d.writers[w], RecordFile(RecordFor(d.fingerprint, d.writers[w], next));
    var filled := Now(d, w, wr.(phase := RecordFilled(found, next)), d.files[TempName(w, ForRecord) := record]);
    RecordFills(d, w, found, next);
    RecordLinks(filled, w, found, next, d.files, record);
    var recorded := Now(d, w, wr.(phase := Recorded(found, next)), d.files[VersionName(FileName(next)) := record]);
    assert recorded == Now(filled, w, filled.writers[w].(phase := Recorded(found, next)), recorded.files);
    ReachesThen(d, w, filled, recorded);
  }

  /** The directory after the rename. */
  function Committing(d: Directory, w: ProcessId, found: Option<Metadata>, next: nat): Directory
    requires w in d.writers
  {
    var wr := d.writers[w];
    Now(d, w, wr.(phase := Renamed), d.files[MetaName := MetadataFile(MetadataFor(d.fingerprint, wr, found, next))]).(
      commits := d.commits + [Commit(w, wr.operation, wr.value, next)])
  }

  lemma MetadataRuns(d: Directory, w: ProcessId, found: Option<Metadata>, next: nat)
    requires w in d.writers && d.writers[w].phase == Recorded(found, next) && TempName(w, ForMetadata) !in d.files
    ensures Reaches(d, w, Committing(d, w, found, next))
  {
    var wr := d.writers[w];
    var meta := MetadataFile(MetadataFor(d.fingerprint, wr, found, next));
    var temp := TempName(w, ForMetadata);
    var filled := Now(d, w, wr.(phase := MetaFilled(found, next)), d.files[temp := meta]);
    assert DoAdvance(DoAdvance(d, w), w) == filled;
    ReachesTwo(d, w);
    assert Without(d.files[temp := meta][MetaName := meta], temp) == d.files[MetaName := meta];
    assert DoAdvance(filled, w) == Committing(d, w, found, next);
    ReachesNext(filled, w);
    ReachesThen(d, w, filled, Committing(d, w, found, next));
  }

  lemma LeavingRuns(d: Directory, w: ProcessId)
    requires w in d.writers && d.writers[w].phase == Renamed
    ensures Reaches(d, w, Now(d, w, d.writers[w].(phase := Finished(true)), Without(d.files, LockName)))
  {
    ReachesTwo(d, w);
    assert DoAdvance(DoAdvance(d, w), w)
        == Now(d, w, d.writers[w].(phase := Finished(true)), Without(d.files, LockName));
  }

  lemma LockIsNoVersion(files: Files, lock: Blob, fingerprint: Fingerprint)
    ensures ReadMetadata(files[LockName := lock], fingerprint) == ReadMetadata(files, fingerprint)
    ensures MaximumVersionOnDisk(files[LockName := lock]) == MaximumVersionOnDisk(files)
  {
    assert NumbersOnDisk(files[LockName := lock]) == NumbersOnDisk(files);
  }

  lemma LockGoes(files: Files, lock: Blob, text: string, record: Blob, meta: Blob)
    ensures Without(files[LockName := lock][VersionName(text) := record][MetaName := meta], LockName)
         == Without(files, LockName)[VersionName(text) := record][MetaName := meta]
  {}

  /** From the number to the end of the critical section. */
  lemma NumberedRuns(d: Directory, w: ProcessId, found: Option<Metadata>, next: nat)
    requires w in d.writers && d.writers[w].phase == Numbered(found, next)
    requires VersionName(FileName(next)) !in d.files && forall kind :: TempName(w, kind) !in d.files
    ensures
      var wr := d.writers[w];
      var files := d.files[VersionName(FileName(next)) := RecordFile(RecordFor(d.fingerprint, wr, next))]
                          [MetaName := MetadataFile(MetadataFor(d.fingerprint, wr, found, next))];
      Reaches(d, w, Now(d, w, wr.(phase := Finished(true)), Without(files, LockName)).(
        commits := d.commits + [Commit(w, wr.operation, wr.value, next)]))
  {
    var wr := d.writers[w];
    var record := RecordFile(RecordFor(d.fingerprint, wr, next));
    var recorded := Now(d, w, wr.(phase := Recorded(found, next)), d.files[VersionName(FileName(next)) := record]);
    RecordRuns(d, w, found, next);
    MetadataRuns(recorded, w, found, next);
    var committed := Committing(recorded, w, found, next);
    ReachesThen(d, w, recorded, committed);
    LeavingRuns(committed, w);
    var last := Now(committed, w, committed.writers[w].(phase := Finished(true)), Without(committed.files, LockName));
    ReachesThen(d, w, committed, last);
    assert last.writers == d.writers[w := wr.(phase := Finished(true))];
  }

  /** The directory after a write that finds it unlocked and is left alone. */
  ghost function AfterWrite(d: Directory, w: ProcessId, wr: Writer, found: Option<Metadata>, next: nat): Directory {
    Now(d, w, wr.(phase := Finished(true)), Stored(d.files, d.fingerprint, wr, found, next)).(
      commits := d.commits + [Commit(w, wr.operation, wr.value, next)])
  }

  lemma LockedNumbers(d: Directory, w: ProcessId, wr: Writer, lock: Blob, found: Option<Metadata>, next: nat)
    requires wr.createdAt == d.clock && ReadMetadata(d.files, d.fingerprint) == Ok(found)
    requires next == Max(CurrentVersion(found), MaximumVersionOnDisk(d.files)) + 1
    ensures Reaches(Now(d, w, wr.(phase := Keyed), d.files[LockName := lock]), w,
                    Now(d, w, wr.(phase := Numbered(found, next)), d.files[LockName := lock]))
  {
    var locked := Now(d, w, wr.(phase := Keyed), d.files[LockName := lock]);
    LockIsNoVersion(d.files, lock, d.fingerprint);
    NumberingRuns(locked, w);
    assert Now(d, w, wr.(phase := Numbered(found, next)), locked.files).writers
        == locked.writers[w := wr.(phase := Numbered(found, next))];
  }

  /** From the start to the number. */
  lemma StartingRuns(d: Directory, w: ProcessId, wr: Writer, found: Option<Metadata>, next: nat)
    requires wr.key == d.key && wr.createdAt == d.clock && LockName !in d.files
    requires ReadMetadata(d.files, d.fingerprint) == Ok(found)
    requires next == Max(CurrentVersion(found), MaximumVersionOnDisk(d.files)) + 1
    ensures Reaches(Now(d, w, wr.(phase := Acquiring), d.files), w,
                    Now(d, w, wr.(phase := Numbered(found, next)), d.files[LockName := LockText(w, d.clock)]))
  {
    var lock := LockText(w, d.clock);
    var begun := Now(d, w, wr.(phase := Acquiring), d.files);
    var locked := Now(d, w, wr.(phase := Keyed), d.files[LockName := lock]);
    LockingRuns(begun, w);
    assert locked.writers == begun.writers[w := wr.(phase := Keyed)];
    LockedNumbers(d, w, wr, lock, found, next);
    ReachesThen(begun, w, locked, Now(d, w, wr.(phase := Numbered(found, next)), d.files[LockName := lock]));
  }

  lemma FinishingRuns(d: Directory, w: ProcessId, wr: Writer, found: Option<Metadata>, next: nat)
    requires wr.phase == Keyed && LockName !in d.files && (forall kind :: TempName(w, kind) !in d.files)
    requires VersionName(FileName(next)) !in d.files
    ensures Reaches(Now(d, w, wr.(phase := Numbered(found, next)), d.files[LockName := LockText(w, d.clock)]), w,
                    AfterWrite(d, w, wr, found, next))
  {
    var lock := LockText(w, d.clock);
    var numbered := Now(d, w, wr.(phase := Numbered(found, next)), d.files[LockName := lock]);
    NumberedRuns(numbered, w, found, next);
    LockGoes(d.files, lock, FileName(next), RecordFile(RecordFor(d.fingerprint, wr, next)),
             MetadataFile(MetadataFor(d.fingerprint, wr, found, next)));
    assert AfterWrite(d, w, wr, found, next).writers == numbered.writers[w := wr.(phase := Finished(true))];
  }

  /**
   A write that finds the directory unlocked and is left alone is a run of the system: it commits
   once, and leaves the files that the object's method leaves.
   */
  lemma WriteIsRun(d: Directory, w: ProcessId, wr: Writer, found: Option<Metadata>, next: nat)
    returns (steps: seq<Step>)
    requires w !in d.writers && wr == Writer(wr.operation, wr.value, d.key, wr.iv, d.clock, d.clock, Keyed)
    requires wr.operation == Write ==> wr.value != ""
    requires LockName !in d.files && (forall kind :: TempName(w, kind) !in d.files)
    requires ReadMetadata(d.files, d.fingerprint) == Ok(found)
    requires next == Max(CurrentVersion(found), MaximumVersionOnDisk(d.files)) + 1
    requires VersionName(FileName(next)) !in d.files
    ensures Run(d, steps) == AfterWrite(d, w, wr, found, next)
    ensures Outcome(d.files, Run(d, steps).files, d.fingerprint, wr, d.key, Ok(next))
  {
    var begun := Now(d, w, wr.(phase := Acquiring), d.files);
    var numbered := Now(d, w, wr.(phase := Numbered(found, next)), d.files[LockName := LockText(w, d.clock)]);
    StartingRuns(d, w, wr, found, next);
    FinishingRuns(d, w, wr, found, next);
    ReachesThen(begun, w, numbered, AfterWrite(d, w, wr, found, next));
    var n: nat :| Advances(begun, w, n) == AfterWrite(d, w, wr, found, next);
    steps := [Start(w, wr.operation, wr.value, d.key, wr.iv)] + Repeated(Advance(w), n);
    assert steps[1..] == Repeated(Advance(w), n);
    assert Apply(d, steps[0]) == begun;
    AdvancesAreRun(begun, w, n);
  }

  lemma {:induction false} FirstErrorWins(
    dirs: map<Fingerprint, Files>, key: Key, listing: seq<Fingerprint>, i: nat, error: SecretError)
    requires forall f :: f in listing ==> f in dirs
    requires i < |listing| && VerifyAll(dirs, key, listing[..i]).Ok?
    requires VerifyDirectory(dirs[listing[i]], key) == Err(error)
    ensures VerifyAll(dirs, key, listing) == Err(error)
    decreases |listing|
  {
    var n := |listing| - 1;
    if i < n {
      assert listing[..n][..i] == listing[..i];
      FirstErrorWins(dirs, key, listing[..n], i, error);
    }
  }

  class EncryptedFileSecretProvider {
    const key: Key
    var dirs: map<Fingerprint, Files>
    var clock: Millis

    constructor (key: Key, clock: Millis)
      ensures this.key == key && this.clock == clock && dirs == map[]
    {
      this.key := key;
      this.clock := clock;
      dirs := map[];
    }

    /** Creates the lock, breaking one that is stale, or gives up after the timeout. */
    method AcquireLock(f: Fingerprint, w: ProcessId) returns (acquired: bool)
      requires f in dirs
      requires LockName in dirs[f] ==> dirs[f][LockName].LockText?
      modifies this
      ensures
        acquired <==>
          || LockName !in old(dirs)[f]
          || old(dirs)[f][LockName].touchedAt + 30000 < old(clock) + 5000
      ensures dirs == if acquired then old(dirs)[f := old(dirs)[f][LockName := LockText(w, clock)]] else old(dirs)
      ensures old(clock) <= clock <= old(clock) + 5000 && (!acquired ==> clock == old(clock) + 5000)
    {
      var started := clock;
      acquired := false;
      ghost var free := LockName !in dirs[f] || dirs[f][LockName].touchedAt + STALE_LOCK_MS < clock + LOCK_TIMEOUT_MS;
      while !acquired
        invariant started == old(clock) <= clock <= started + LOCK_TIMEOUT_MS
        invariant (clock - started) % LOCK_WAIT_MS == 0
        invariant acquired ==> free && dirs == old(dirs)[f := old(dirs)[f][LockName := LockText(w, clock)]]
        invariant !acquired ==> dirs == old(dirs) || (free && dirs == old(dirs)[f := Without(old(dirs)[f], LockName)])
        decreases !acquired, started + LOCK_TIMEOUT_MS - clock, LockName in dirs[f]
      {
        if LockName !in dirs[f] {
          assert old(dirs)[f][LockName := LockText(w, clock)]
              == Without(old(dirs)[f], LockName)[LockName := LockText(w, clock)];
          dirs := dirs[f := dirs[f][LockName := LockText(w, clock)]];
          acquired := true;
        } else if clock - dirs[f][LockName].touchedAt > STALE_LOCK_MS {
          dirs := dirs[f := Without(dirs[f], LockName)];
        } else if clock - started >= LOCK_TIMEOUT_MS {
          return false;
        } else {
          clock := clock + LOCK_WAIT_MS;
        }
      }
    }

    /** The scan of the directory for the highest version on disk. */
    method ScanVersions(files: Files) returns (maximum: nat)
      ensures maximum == MaximumVersionOnDisk(files)
    {
      maximum := 0;
      var names := files.Keys;
      ghost var scanned: set<nat> := {};
      while names != {}
        invariant names <= files.Keys
        invariant scanned == set name | name in files.Keys - names && name.VersionName? && IsRecordName(name.text)
                                      :: RecordNumber(name.text)
        invariant IsMaximum(scanned, maximum)
        decreases |names|
      {
        var name :| name in names;
        if name.VersionName? && IsRecordName(name.text) {
          var number := RecordNumber(name.text);
          scanned := scanned + {number};
          maximum := if number > maximum then number else maximum;
        }
        names := names - {name};
      }
      assert scanned == NumbersOnDisk(files);
    }

    /** Drops the lock; every exit of the critical section comes here. */
    method ReleaseLock(f: Fingerprint)
      requires f in dirs
      modifies this`dirs
      ensures dirs == old(dirs)[f := Without(old(dirs)[f], LockName)]
    {
      dirs := dirs[f := Without(dirs[f], LockName)];
    }

    /** What withLock runs: number the version, place its record, replace the metadata. */
    method WriteLocked(f: Fingerprint, w: ProcessId, wr: Writer, found: Option<Metadata>)
      returns (next: nat, linked: bool)
      requires f in dirs && forall kind :: TempName(w, kind) !in dirs[f]
      modifies this`dirs
      ensures next == Max(CurrentVersion(found), MaximumVersionOnDisk(old(dirs)[f])) + 1
      ensures linked <==> VersionName(FileName(next)) !in old(dirs)[f]
      ensures !linked ==> !Scannable(old(dirs)[f])
      ensures dirs == if linked
        then old(dirs)[f := old(dirs)[f][VersionName(FileName(next)) := RecordFile(RecordFor(f, wr, next))]
                                        [MetaName := MetadataFile(MetadataFor(f, wr, found, next))]]
        else old(dirs)
    {
      var maximum := ScanVersions(dirs[f]);
      next := Max(CurrentVersion(found), maximum) + 1;
      linked := WriteRecord(f, w, wr, next);
      if !linked {
        TakenNameIsNotScannable(dirs[f], found, next);
      } else {
        WriteMetadata(f, w, MetadataFor(f, wr, found, next));
      }
    }

    ghost predicate Unlocked(files: Files, w: ProcessId) {
      && (LockName in files ==> files[LockName].LockText?)
      && forall kind :: TempName(w, kind) !in files
    }

    method WriteUnderLock(f: Fingerprint, w: ProcessId, operation: Operation, value: string, loadedKey: Key, iv: nat)
      returns (result: Result<nat, SecretError>)
      requires f in dirs && forall kind :: TempName(w, kind) !in dirs[f]
      modifies this`dirs
      ensures f in dirs && dirs == old(dirs)[f := dirs[f]]
      ensures Outcome(old(dirs)[f], dirs[f], f, Writer(operation, value, key, iv, clock, clock, Keyed), loadedKey,
          result)
    {
      if loadedKey != key {
        ReleaseLock(f);
        return Err(MasterKeyMismatch);
      }
      var found := ReadMetadata(dirs[f], f);
      if found.Err? {
        ReleaseLock(f);
        return Err(found.error);
      }
      var wr := Writer(operation, value, key, iv, clock, clock, Keyed);
      var next, linked := WriteLocked(f, w, wr, found.value);
      ReleaseLock(f);
      if !linked {
        return Err(ReadFailed);
      }
      assert dirs[f] == Stored(old(dirs)[f], f, wr, found.value, next);
      result := Ok(next);
    }

    method WriteVersion(f: Fingerprint, w: ProcessId, operation: Operation, value: string, loadedKey: Key, iv: nat)
      returns (result: Result<nat, SecretError>)
      requires f in dirs ==> Unlocked(dirs[f], w)
      modifies this
      ensures f in dirs && dirs == old(dirs)[f := dirs[f]]
      ensures
        var files := if f in old(dirs) then old(dirs)[f] else map[];
        Written(files, dirs[f], f, Writer(operation, value, key, iv, clock, clock, Keyed), loadedKey, result)
    {
      ghost var files := if f in dirs then dirs[f] else map[];
      if f !in dirs {
        dirs := dirs[f := map[]];
      }
      assert dirs == old(dirs)[f := files];
      var acquired := AcquireLock(f, w);
      if !acquired {
        return Err(Busy);
      }
      ghost var locked := dirs[f];
      result := WriteUnderLock(f, w, operation, value, loadedKey, iv);
      assert Without(locked, LockName) == Without(files, LockName);
      OutcomeIgnoresLock(files, locked, dirs[f], f, Writer(operation, value, key, iv, clock, clock, Keyed),
          loadedKey, result);
    }

    /** writeAtomic without replacement: a temporary file, an exclusive link, and the clean-up. */
    method WriteRecord(f: Fingerprint, w: ProcessId, wr: Writer, next: nat) returns (linked: bool)
      requires f in dirs && TempName(w, ForRecord) !in dirs[f]
      modifies this`dirs
      ensures linked == (VersionName(FileName(next)) !in old(dirs)[f])
      ensures dirs == if linked
        then old(dirs)[f := old(dirs)[f][VersionName(FileName(next)) := RecordFile(RecordFor(f, wr, next))]]
        else old(dirs)
    {
      var temp, name := TempName(w, ForRecord), VersionName(FileName(next));
      dirs := dirs[f := dirs[f][temp := Partial]];
      dirs := dirs[f := dirs[f][temp := RecordFile(RecordFor(f, wr, next))]];
      linked := name !in dirs[f];
      if linked {
        dirs := dirs[f := dirs[f][name := dirs[f][temp]]];
      }
      dirs := dirs[f := Without(dirs[f], temp)];
      assert linked ==> dirs[f] == old(dirs)[f][name := RecordFile(RecordFor(f, wr, next))];
      assert !linked ==> dirs[f] == old(dirs)[f];
    }

    /** writeAtomic with replacement: a temporary file, renamed over the metadata. */
    method WriteMetadata(f: Fingerprint, w: ProcessId, m: Metadata)
      requires f in dirs && TempName(w, ForMetadata) !in dirs[f]
      modifies this`dirs
      ensures dirs == old(dirs)[f := old(dirs)[f][MetaName := MetadataFile(m)]]
    {
      var temp := TempName(w, ForMetadata);
      dirs := dirs[f := dirs[f][temp := Partial]];
      dirs := dirs[f := dirs[f][temp := MetadataFile(m)]];
      dirs := dirs[f := Without(dirs[f][MetaName := dirs[f][temp]], temp)];
      assert dirs[f] == old(dirs)[f][MetaName := MetadataFile(m)];
    }

    predicate Healthy(files: Files, f: Fingerprint) {
      LockName !in files && ReadMetadata(files, f).Ok? && Scannable(files)
    }

    method StoreSecret(f: Fingerprint, w: ProcessId, value: string, loadedKey: Key, iv: nat)
      returns (result: Result<nat, SecretError>)
      requires f in dirs ==> Unlocked(dirs[f], w)
      modifies this
      ensures result == Err(ValueEmpty) <==> value == ""
      ensures value == "" ==> dirs == old(dirs)
      ensures value != "" ==>
        var files := if f in old(dirs) then old(dirs)[f] else map[];
        && f in dirs
        && Written(files, dirs[f], f, Writer(Write, value, key, iv, clock, clock, Keyed), loadedKey, result)
      ensures forall g :: g != f ==> (g in dirs <==> g in old(dirs)) && (g in dirs ==> dirs[g] == old(dirs)[g])
      ensures value != "" && (f in old(dirs) ==> Healthy(old(dirs)[f], f)) && loadedKey == key ==> result.Ok?
      ensures result.Ok? && result.value < Pow10(VERSION_DIGITS) ==>
          f in dirs && GetSecret(dirs[f], f, key) == Ok(value)
    {
      if value == "" {
        return Err(ValueEmpty);
      }
      result := WriteVersion(f, w, Write, value, loadedKey, iv);
      if result.Ok? {
        ghost var files := if f in old(dirs) then old(dirs)[f] else map[];
        ghost var found := ReadMetadata(files, f).value;
        ghost var wr := Writer(Write, value, key, iv, clock, clock, Keyed);
        StoredReadsBack(files, f, wr, found, result.value);
      }
    }

    method DeleteSecret(f: Fingerprint, w: ProcessId, loadedKey: Key, iv: nat)
      returns (result: Result<nat, SecretError>)
      requires f in dirs ==> Unlocked(dirs[f], w)
      modifies this
      ensures
        var files := if f in old(dirs) then old(dirs)[f] else map[];
        && f in dirs
        && Written(files, dirs[f], f, Writer(Delete, KEY_CHECK_VALUE, key, iv, clock, clock, Keyed), loadedKey, result)
      ensures forall g :: g != f ==> (g in dirs <==> g in old(dirs)) && (g in dirs ==> dirs[g] == old(dirs)[g])
      ensures (f in old(dirs) ==> Healthy(old(dirs)[f], f)) && loadedKey == key ==> result.Ok?
      ensures result.Ok? ==> f in dirs && GetSecret(dirs[f], f, key) == Err(NotFound)
    {
      result := WriteVersion(f, w, Delete, KEY_CHECK_VALUE, loadedKey, iv);
      if result.Ok? {
        ghost var files := if f in old(dirs) then old(dirs)[f] else map[];
        ghost var found := ReadMetadata(files, f).value;
        ghost var wr := Writer(Delete, KEY_CHECK_VALUE, key, iv, clock, clock, Keyed);
        StoredReadsBack(files, f, wr, found, result.value);
      }
    }

    /** Reads and opens every listed version of every directory, counting as it goes. */
    method VerifyAllSecrets(listing: seq<Fingerprint>, loadedKey: Key) returns (result: Result<Counts, SecretError>)
      requires forall f :: f in listing ==> f in dirs
      ensures result == if loadedKey != key then Err(MasterKeyMismatch) else VerifyAll(dirs, key, listing)
    {
      if loadedKey != key {
        return Err(MasterKeyMismatch);
      }
      var active: nat, deleted: nat, versions: nat := 0, 0, 0;
      var i := 0;
      while i < |listing|
        invariant 0 <= i <= |listing|
        invariant VerifyAll(dirs, key, listing[..i]) == Ok(Counts(active, deleted, versions))
      {
        assert listing[..i + 1][..i] == listing[..i];
        var files := dirs[listing[i]];
        if MetaName !in files {
          FirstErrorWins(dirs, key, listing, i, ReadFailed);
          return Err(ReadFailed);
        }
        if !files[MetaName].MetadataFile? || !AssertMetadata(files[MetaName].metadata) {
          FirstErrorWins(dirs, key, listing, i, MetadataCorrupt);
          return Err(MetadataCorrupt);
        }
        var m := files[MetaName].metadata;
        var j := 0;
        while j < |m.versions|
          invariant 0 <= j <= |m.versions|
          invariant VerifyEntries(files, key, m, 0) == VerifyEntries(files, key, m, j)
        {
          var plain := VerifyEntry(files, key, m, m.versions[j]);
          if plain.Err? {
            FirstErrorWins(dirs, key, listing, i, plain.error);
            return Err(plain.error);
          }
          j := j + 1;
        }
        versions := versions + |m.versions|;
        if m.deleted {
          deleted := deleted + 1;
        } else {
          active := active + 1;
        }
        i := i + 1;
      }
      assert listing[..i] == listing;
      result := Ok(Counts(active, deleted, versions));
    }
  }
}
