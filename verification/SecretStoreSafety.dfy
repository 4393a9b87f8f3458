/**
 What every run of the secret store keeps, with no assumption on locks: any number of writers may
 be inside the critical section at once, and every process may stop anywhere.
 */
module SecretStoreSafety {
  import opened Common
  import opened DecimalText
  import opened SecretStoreModel

  // -- The invariant -----------------------------------------------------------------------

  /** The record an entry lists is on disk, with the listed hash, and opens. */
  predicate EntryBacked(files: Files, fingerprint: Fingerprint, key: Key, e: Entry) {
    VersionName(e.fileName) in files && OpenRecord(files[VersionName(e.fileName)], fingerprint, key, e).Ok?
  }

  ghost predicate Backed(files: Files, fingerprint: Fingerprint, key: Key, m: Metadata) {
    && AssertMetadata(m)
    && m.fingerprint == fingerprint
    && forall i :: 0 <= i < |m.versions| ==> EntryBacked(files, fingerprint, key, m.versions[i])
  }

  function LastEntry(m: Metadata): Entry
    requires AssertMetadata(m)
  {
    m.versions[|m.versions| - 1]
  }

  /** The current version is what the commit wrote. */
  predicate Shows(files: Files, fingerprint: Fingerprint, key: Key, m: Metadata, c: Commit)
    requires AssertMetadata(m)
  {
    var e := LastEntry(m);
    && e.version == c.version
    && e.operation == c.operation
    && VersionName(e.fileName) in files
    && OpenRecord(files[VersionName(e.fileName)], fingerprint, key, e)
       == Ok(if c.operation == Write then c.value else KEY_CHECK_VALUE)
  }

  ghost predicate FoundBacked(d: Directory, found: Option<Metadata>) {
    found.Some? ==> Backed(d.files, d.fingerprint, d.key, found.value)
  }

  ghost predicate FoundShows(d: Directory, found: Option<Metadata>, seen: nat) {
    && seen <= |d.commits|
    && (found.None? <==> seen == 0)
    && (found.Some? ==>
          Backed(d.files, d.fingerprint, d.key, found.value)
          && Shows(d.files, d.fingerprint, d.key, found.value, d.commits[seen - 1]))
  }

  ghost predicate MetadataOk(d: Directory) {
    && (MetaName in d.files ==> d.files[MetaName].MetadataFile?)
    && FoundShows(d, if MetaName in d.files then Some(d.files[MetaName].metadata) else None, |d.commits|)
  }

  ghost predicate Prepared(d: Directory, wr: Writer, existing: Option<Metadata>, next: nat) {
    wr.key == d.key && FoundBacked(d, existing) && CurrentVersion(existing) < next
  }

  predicate Holds(files: Files, name: Name, blob: Blob) {
    name in files && files[name] == blob
  }

  predicate OnDisk(d: Directory, wr: Writer, next: nat) {
    Holds(d.files, VersionName(FileName(next)), RecordFile(RecordFor(d.fingerprint, wr, next)))
  }

  ghost predicate WriterOk(d: Directory, w: ProcessId, wr: Writer) {
    match wr.phase
    case Keyed => wr.key == d.key
    case Looked(existing) => wr.key == d.key && FoundBacked(d, existing)
    case Numbered(existing, next) => Prepared(d, wr, existing, next)
    case RecordOpened(existing, next) => Prepared(d, wr, existing, next)
    case RecordFilled(existing, next) =>
      && Prepared(d, wr, existing, next)
      && Holds(d.files, TempName(w, ForRecord), RecordFile(RecordFor(d.fingerprint, wr, next)))
    case Linked(existing, next) => Prepared(d, wr, existing, next) && OnDisk(d, wr, next)
    case Recorded(existing, next) => Prepared(d, wr, existing, next) && OnDisk(d, wr, next)
    case MetaOpened(existing, next) => Prepared(d, wr, existing, next) && OnDisk(d, wr, next)
    case MetaFilled(existing, next) =>
      && Prepared(d, wr, existing, next) && OnDisk(d, wr, next)
      && Holds(d.files, TempName(w, ForMetadata), MetadataFile(MetadataFor(d.fingerprint, wr, existing, next)))
    case _ => true
  }

  /** What reading is worth after these commits. */
  function Expected(commits: seq<Commit>): Result<string, SecretError> {
    match Meaning(commits)
    case None => Err(NotFound)
    case Some(value) =>
      if commits[|commits| - 1].version < Pow10(VERSION_DIGITS) then Ok(value) else Err(MetadataCorrupt)
  }

  ghost predicate ReaderOk(d: Directory, reader: Reader) {
    && reader.seen <= |d.commits|
    && match reader
       case ReadingRecord(found, seen) => FoundShows(d, found, seen)
       case Answered(result, seen) => result == Expected(d.commits[..seen])
  }

  ghost predicate WritersOk(d: Directory) {
    forall w :: w in d.writers ==> WriterOk(d, w, d.writers[w])
  }

  ghost predicate ReadersOk(d: Directory) {
    forall r :: r in d.readers ==> ReaderOk(d, d.readers[r])
  }

  ghost predicate Inv(d: Directory) {
    MetadataOk(d) && WritersOk(d) && ReadersOk(d)
  }

  // -- Frames ------------------------------------------------------------------------------

  /** Record files never change and never go away. */
  ghost predicate VersionsKept(files: Files, files': Files) {
    forall text: string :: VersionName(text) in files ==>
      VersionName(text) in files' && files'[VersionName(text)] == files[VersionName(text)]
  }

  ghost predicate OthersTempsKept(files: Files, files': Files, w: ProcessId) {
    forall v: ProcessId, kind: TempKind :: v != w && TempName(v, kind) in files ==>
      TempName(v, kind) in files' && files'[TempName(v, kind)] == files[TempName(v, kind)]
  }

  ghost predicate SameStore(d: Directory, d': Directory) {
    && d'.fingerprint == d.fingerprint && d'.key == d.key
    && d.commits <= d'.commits
    && VersionsKept(d.files, d'.files)
  }

  lemma BackedKept(d: Directory, d': Directory, m: Metadata)
    requires SameStore(d, d') && Backed(d.files, d.fingerprint, d.key, m)
    ensures Backed(d'.files, d'.fingerprint, d'.key, m)
  {
    forall i | 0 <= i < |m.versions| ensures EntryBacked(d'.files, d.fingerprint, d.key, m.versions[i]) {
      assert EntryBacked(d.files, d.fingerprint, d.key, m.versions[i]);
    }
  }

  lemma FoundShowsKept(d: Directory, d': Directory, found: Option<Metadata>, seen: nat)
    requires SameStore(d, d') && FoundShows(d, found, seen)
    ensures FoundShows(d', found, seen)
  {
    if found.Some? {
      BackedKept(d, d', found.value);
    }
  }

  lemma FoundBackedKept(d: Directory, d': Directory, found: Option<Metadata>)
    requires SameStore(d, d') && FoundBacked(d, found)
    ensures FoundBacked(d', found)
  {
    if found.Some? {
      BackedKept(d, d', found.value);
    }
  }

  function Existing(phase: Phase): Option<Metadata> {
    match phase
    case Looked(existing) => existing
    case Numbered(existing, _) => existing
    case RecordOpened(existing, _) => existing
    case RecordFilled(existing, _) => existing
    case Linked(existing, _) => existing
    case Recorded(existing, _) => existing
    case MetaOpened(existing, _) => existing
    case MetaFilled(existing, _) => existing
    case _ => None
  }

  lemma OtherWriterKept(d: Directory, d': Directory, w: ProcessId, v: ProcessId, wr: Writer)
    requires SameStore(d, d') && OthersTempsKept(d.files, d'.files, w)
    requires v != w && WriterOk(d, v, wr)
    ensures WriterOk(d', v, wr)
  {
    FoundBackedKept(d, d', Existing(wr.phase));
  }

  lemma ReaderKept(d: Directory, d': Directory, reader: Reader)
    requires SameStore(d, d') && ReaderOk(d, reader)
    ensures ReaderOk(d', reader)
  {
    if reader.ReadingRecord? {
      FoundShowsKept(d, d', reader.found, reader.seen);
    } else {
      assert d'.commits[..reader.seen] == d.commits[..reader.seen];
    }
  }

  lemma ReadersKept(d: Directory, d': Directory)
    requires SameStore(d, d') && ReadersOk(d) && d'.readers == d.readers
    ensures ReadersOk(d')
  {
    forall r | r in d'.readers ensures ReaderOk(d', d'.readers[r]) {
      ReaderKept(d, d', d.readers[r]);
    }
  }

  /** What a step of writer `w` has to show. */
  lemma WriterStepKeeps(d: Directory, d': Directory, w: ProcessId, wr: Writer)
    requires Inv(d) && SameStore(d, d') && OthersTempsKept(d.files, d'.files, w)
    requires d'.readers == d.readers && d'.writers == d.writers[w := wr]
    requires WriterOk(d', w, wr) && MetadataOk(d')
    ensures Inv(d')
  {
    forall v | v in d'.writers ensures WriterOk(d', v, d'.writers[v]) {
      if v != w {
        OtherWriterKept(d, d', w, v, d.writers[v]);
      }
    }
    ReadersKept(d, d');
  }

  /** The same, for a step that leaves metadata.json alone. */
  lemma QuietStepKeeps(d: Directory, d': Directory, w: ProcessId, wr: Writer)
    requires Inv(d) && SameStore(d, d') && OthersTempsKept(d.files, d'.files, w)
    requires d'.readers == d.readers && d'.writers == d.writers[w := wr]
    requires d'.commits == d.commits
    requires MetaName in d'.files <==> MetaName in d.files
    requires MetaName in d.files ==> d'.files[MetaName] == d.files[MetaName]
    requires WriterOk(d', w, wr)
    ensures Inv(d')
  {
    FoundShowsKept(d, d', if MetaName in d.files then Some(d.files[MetaName].metadata) else None, |d.commits|);
    WriterStepKeeps(d, d', w, wr);
  }

  // -- Writers -----------------------------------------------------------------------------

  lemma PhaseOnlyKeeps(d: Directory, w: ProcessId, wr: Writer)
    requires Inv(d)
    requires WriterOk(d, w, wr)
    ensures Inv(d.(writers := d.writers[w := wr]))
  {
    var d' := d.(writers := d.writers[w := wr]);
    FoundBackedKept(d, d', Existing(wr.phase));
    QuietStepKeeps(d, d', w, wr);
  }

  lemma LockStepKeeps(d: Directory, d': Directory, w: ProcessId, wr: Writer, blob: Blob)
    requires Inv(d)
    requires wr.phase in {Acquiring, Opened, Holding} || wr.phase.Finished?
    requires
      || d' == d.(writers := d.writers[w := wr], files := Without(d.files, LockName))
      || d' == d.(writers := d.writers[w := wr], files := d.files[LockName := blob])
    ensures Inv(d')
  {
    QuietStepKeeps(d, d', w, wr);
  }

  lemma TempStepKeeps(d: Directory, w: ProcessId, kind: TempKind, blob: Blob, wr: Writer)
    requires Inv(d)
    requires WriterOk(d.(files := d.files[TempName(w, kind) := blob]), w, wr)
    ensures Inv(d.(files := d.files[TempName(w, kind) := blob], writers := d.writers[w := wr]))
  {
    var d1 := d.(files := d.files[TempName(w, kind) := blob]);
    var d' := d1.(writers := d.writers[w := wr]);
    FoundBackedKept(d1, d', Existing(wr.phase));
    QuietStepKeeps(d, d', w, wr);
  }

  lemma DropStepKeeps(d: Directory, w: ProcessId, files: Files, wr: Writer)
    requires Inv(d) && VersionsKept(d.files, files) && OthersTempsKept(d.files, files, w)
    requires MetaName in files <==> MetaName in d.files
    requires MetaName in d.files ==> files[MetaName] == d.files[MetaName]
    requires wr.phase.Releasing? || (wr.phase.Recorded? && WriterOk(d, w, wr))
    ensures Inv(d.(files := files, writers := d.writers[w := wr]))
  {
    var d' := d.(files := files, writers := d.writers[w := wr]);
    FoundBackedKept(d, d', Existing(wr.phase));
    QuietStepKeeps(d, d', w, wr);
  }

  lemma AcquireKeeps(d: Directory, w: ProcessId)
    requires Inv(d) && w in d.writers && d.writers[w].phase in {Acquiring, Breaking}
    ensures Inv(DoAdvance(d, w))
  {
    var d' := DoAdvance(d, w);
    if d'.files == d.files {
      PhaseOnlyKeeps(d, w, d'.writers[w]);
    } else {
      LockStepKeeps(d, d', w, d'.writers[w], LockText(w, d.clock));
    }
  }

  lemma LockTextKeeps(d: Directory, w: ProcessId)
    requires Inv(d) && w in d.writers && d.writers[w].phase in {Refused, Opened}
    ensures Inv(DoAdvance(d, w))
  {
    var d' := DoAdvance(d, w);
    if d'.files == d.files {
      PhaseOnlyKeeps(d, w, d'.writers[w]);
    } else {
      LockStepKeeps(d, d', w, d'.writers[w], LockText(w, d.clock));
    }
  }

  lemma LookUpKeeps(d: Directory, w: ProcessId)
    requires Inv(d) && w in d.writers && d.writers[w].phase in {Holding, Keyed}
    ensures Inv(DoAdvance(d, w))
  {
    assert WriterOk(d, w, d.writers[w]);
    PhaseOnlyKeeps(d, w, DoAdvance(d, w).writers[w]);
  }

  lemma NumberKeeps(d: Directory, w: ProcessId)
    requires Inv(d) && w in d.writers && d.writers[w].phase.Looked?
    ensures Inv(DoAdvance(d, w))
  {
    assert WriterOk(d, w, d.writers[w]);
    PhaseOnlyKeeps(d, w, DoAdvance(d, w).writers[w]);
  }

  lemma RecordTempKeeps(d: Directory, w: ProcessId)
    requires Inv(d) && w in d.writers && (d.writers[w].phase.Numbered? || d.writers[w].phase.RecordOpened?)
    ensures Inv(DoAdvance(d, w))
  {
    var wr := d.writers[w];
    assert WriterOk(d, w, wr);
    var d' := DoAdvance(d, w);
    var blob := d'.files[TempName(w, ForRecord)];
    FoundBackedKept(d, d.(files := d.files[TempName(w, ForRecord) := blob]), wr.phase.existing);
    TempStepKeeps(d, w, ForRecord, blob, d'.writers[w]);
  }

  lemma LinkKeeps(d: Directory, w: ProcessId)
    requires Inv(d) && w in d.writers && d.writers[w].phase.RecordFilled?
    ensures Inv(DoAdvance(d, w))
  {
    var wr := d.writers[w];
    assert WriterOk(d, w, wr);
    var d' := DoAdvance(d, w);
    if d'.files == d.files {
      PhaseOnlyKeeps(d, w, d'.writers[w]);
    } else {
      FoundBackedKept(d, d', wr.phase.existing);
      QuietStepKeeps(d, d', w, d'.writers[w]);
    }
  }

  lemma DropTempKeeps(d: Directory, w: ProcessId)
    requires Inv(d) && w in d.writers && (d.writers[w].phase.Linked? || d.writers[w].phase.Cleaning?)
    ensures Inv(DoAdvance(d, w))
  {
    assert WriterOk(d, w, d.writers[w]);
    var d' := DoAdvance(d, w);
    DropStepKeeps(d, w, d'.files, d'.writers[w]);
  }

  lemma MetaTempKeeps(d: Directory, w: ProcessId)
    requires Inv(d) && w in d.writers && (d.writers[w].phase.Recorded? || d.writers[w].phase.MetaOpened?)
    ensures Inv(DoAdvance(d, w))
  {
    var wr := d.writers[w];
    assert WriterOk(d, w, wr);
    var d' := DoAdvance(d, w);
    var blob := d'.files[TempName(w, ForMetadata)];
    FoundBackedKept(d, d.(files := d.files[TempName(w, ForMetadata) := blob]), wr.phase.existing);
    TempStepKeeps(d, w, ForMetadata, blob, d'.writers[w]);
  }

  /** Appending a higher version to backed metadata gives backed metadata. */
  lemma AppendIsBacked(d: Directory, wr: Writer, existing: Option<Metadata>, next: nat)
    requires Prepared(d, wr, existing, next) && OnDisk(d, wr, next)
    ensures Backed(d.files, d.fingerprint, d.key, MetadataFor(d.fingerprint, wr, existing, next))
  {
    var m := MetadataFor(d.fingerprint, wr, existing, next);
    var listed := if existing.Some? then existing.value.versions else [];
    forall i | 0 <= i < |m.versions|
      ensures EntryValid(m, i) && EntryBacked(d.files, d.fingerprint, d.key, m.versions[i])
    {
      if i < |listed| {
        assert EntryValid(existing.value, i) && EntryBacked(d.files, d.fingerprint, d.key, listed[i]);
      }
    }
  }

  lemma RenameKeeps(d: Directory, w: ProcessId)
    requires Inv(d) && w in d.writers && d.writers[w].phase.MetaFilled?
    ensures Inv(DoAdvance(d, w))
  {
    var wr := d.writers[w];
    assert WriterOk(d, w, wr);
    var d' := DoAdvance(d, w);
    var m := MetadataFor(d.fingerprint, wr, wr.phase.existing, wr.phase.next);
    AppendIsBacked(d, wr, wr.phase.existing, wr.phase.next);
    assert SameStore(d, d');
    BackedKept(d, d', m);
    assert d'.files[MetaName] == MetadataFile(m);
    WriterStepKeeps(d, d', w, d'.writers[w]);
  }

  lemma LeaveKeeps(d: Directory, w: ProcessId)
    requires Inv(d) && w in d.writers
    requires var p := d.writers[w].phase; p.Renamed? || p.Releasing? || p.Finished? || p.Crashed?
    ensures Inv(DoAdvance(d, w))
  {
    var d' := DoAdvance(d, w);
    if d.writers[w].phase.Releasing? {
      LockStepKeeps(d, d', w, d'.writers[w], LockText(w, d.clock));
    } else if d' != d {
      PhaseOnlyKeeps(d, w, d'.writers[w]);
    }
  }

  lemma AdvanceKeeps(d: Directory, w: ProcessId)
    requires Inv(d)
    ensures Inv(DoAdvance(d, w))
  {
    if w in d.writers {
      match d.writers[w].phase
      case Acquiring | Breaking => AcquireKeeps(d, w);
      case Refused | Opened => LockTextKeeps(d, w);
      case Holding | Keyed => LookUpKeeps(d, w);
      case Looked(_) => NumberKeeps(d, w);
      case Numbered(_, _) => RecordTempKeeps(d, w);
      case RecordOpened(_, _) => RecordTempKeeps(d, w);
      case RecordFilled(_, _) => LinkKeeps(d, w);
      case Linked(_, _) => DropTempKeeps(d, w);
      case Cleaning => DropTempKeeps(d, w);
      case Recorded(_, _) => MetaTempKeeps(d, w);
      case MetaOpened(_, _) => MetaTempKeeps(d, w);
      case MetaFilled(_, _) => RenameKeeps(d, w);
      case Renamed | Crashed => LeaveKeeps(d, w);
      case Releasing(_) => LeaveKeeps(d, w);
      case Finished(_) => LeaveKeeps(d, w);
    }
  }

  // -- Readers -----------------------------------------------------------------------------

  lemma CurrentName(m: Metadata)
    requires AssertMetadata(m)
    ensures IsRecordName(LastEntry(m).fileName) <==> LastEntry(m).version < Pow10(VERSION_DIGITS)
  {
    assert EntryValid(m, |m.versions| - 1);
    RecognisedVersions(LastEntry(m).version);
  }

  lemma FetchOfShown(files: Files, fingerprint: Fingerprint, key: Key, m: Metadata, c: Commit)
    requires AssertMetadata(m) && Shows(files, fingerprint, key, m, c)
    requires IsRecordName(LastEntry(m).fileName) <==> c.version < Pow10(VERSION_DIGITS)
    ensures FetchSecret(files, fingerprint, key, Some(m)) == Expected([c])
  {}

  /** The second half of getSecret, at any later time, gives what the metadata meant when it was read. */
  lemma FetchGivesWhatWasSeen(d: Directory, found: Option<Metadata>, seen: nat)
    requires FoundShows(d, found, seen)
    ensures FetchSecret(d.files, d.fingerprint, d.key, found) == Expected(d.commits[..seen])
  {
    if found.Some? {
      CurrentName(found.value);
      FetchOfShown(d.files, d.fingerprint, d.key, found.value, d.commits[seen - 1]);
      assert d.commits[..seen][seen - 1] == d.commits[seen - 1];
    }
  }

  lemma ReadMetadataSucceeds(d: Directory)
    requires MetadataOk(d)
    ensures ReadMetadata(d.files, d.fingerprint)
         == Ok(if MetaName in d.files then Some(d.files[MetaName].metadata) else None)
  {}

  lemma ReaderStepKeeps(d: Directory, d': Directory, r: ProcessId, reader: Reader)
    requires Inv(d) && d' == d.(readers := d.readers[r := reader]) && ReaderOk(d, reader)
    ensures Inv(d')
  {
    forall q | q in d'.readers ensures ReaderOk(d', d'.readers[q]) {
      ReaderKept(d, d', if q == r then reader else d.readers[q]);
    }
    forall v | v in d'.writers ensures WriterOk(d', v, d'.writers[v]) {
      OtherWriterKept(d, d', v + 1, v, d.writers[v]);
    }
    FoundShowsKept(d, d', if MetaName in d.files then Some(d.files[MetaName].metadata) else None, |d.commits|);
  }

  lemma ObserveKeeps(d: Directory, r: ProcessId)
    requires Inv(d)
    ensures Inv(DoObserve(d, r))
  {
    if r !in d.readers {
      ReadMetadataSucceeds(d);
      ReaderStepKeeps(d, DoObserve(d, r), r, DoObserve(d, r).readers[r]);
    }
  }

  lemma FetchKeeps(d: Directory, r: ProcessId)
    requires Inv(d)
    ensures Inv(DoFetch(d, r))
  {
    if r in d.readers && d.readers[r].ReadingRecord? {
      assert ReaderOk(d, d.readers[r]);
      FetchGivesWhatWasSeen(d, d.readers[r].found, d.readers[r].seen);
      ReaderStepKeeps(d, DoFetch(d, r), r, DoFetch(d, r).readers[r]);
    }
  }

  lemma TickKeeps(d: Directory, ms: nat)
    requires Inv(d)
    ensures Inv(d.(clock := d.clock + ms))
  {
    var d' := d.(clock := d.clock + ms);
    forall v | v in d'.writers ensures WriterOk(d', v, d'.writers[v]) {
      OtherWriterKept(d, d', v + 1, v, d.writers[v]);
    }
    ReadersKept(d, d');
    FoundShowsKept(d, d', if MetaName in d.files then Some(d.files[MetaName].metadata) else None, |d.commits|);
  }

  lemma StartKeeps(d: Directory, w: ProcessId, operation: Operation, value: string, key: Key, iv: nat)
    requires Inv(d)
    ensures Inv(DoStart(d, w, operation, value, key, iv))
  {
    var d' := DoStart(d, w, operation, value, key, iv);
    if d' != d {
      PhaseOnlyKeeps(d, w, d'.writers[w]);
    }
  }

  lemma StopKeeps(d: Directory, d': Directory, w: ProcessId)
    requires Inv(d) && (d' == DoIoError(d, w) || d' == DoCrash(d, w))
    ensures Inv(d')
  {
    if d' != d {
      PhaseOnlyKeeps(d, w, d'.writers[w]);
    }
  }

  lemma StepKeeps(d: Directory, step: Step)
    requires Inv(d)
    ensures Inv(Apply(d, step))
  {
    match step
    case Advance(w) => AdvanceKeeps(d, w);
    case Start(w, operation, value, key, iv) => StartKeeps(d, w, operation, value, key, iv);
    case IoError(w) => StopKeeps(d, DoIoError(d, w), w);
    case Crash(w) => StopKeeps(d, DoCrash(d, w), w);
    case Tick(ms) => TickKeeps(d, ms);
    case Observe(r) => ObserveKeeps(d, r);
    case Fetch(r) => FetchKeeps(d, r);
  }

  lemma {:induction false} RunKeeps(d: Directory, steps: seq<Step>)
    requires Inv(d)
    ensures Inv(Run(d, steps))
    decreases |steps|
  {
    if steps == [] {
    } else {
      StepKeeps(d, steps[0]);
      RunKeeps(Apply(d, steps[0]), steps[1..]);
    }
  }

  // -- Main results ------------------------------------------------------------------------

  lemma AdvanceKeepsStore(d: Directory, w: ProcessId)
    requires w in d.writers
    ensures SameStore(d, DoAdvance(d, w))
  {
    match d.writers[w].phase
    case RecordFilled(_, _) =>
    case MetaFilled(_, _) =>
    case _ => assert DoAdvance(d, w).commits == d.commits;
  }

  lemma StepKeepsStore(d: Directory, step: Step)
    ensures SameStore(d, Apply(d, step))
  {
    match step
    case Advance(w) =>
      if w in d.writers {
        AdvanceKeepsStore(d, w);
      }
    case _ =>
  }

  /** Record files are immutable, and commits are never forgotten. */
  lemma {:induction false} RunKeepsStore(d: Directory, steps: seq<Step>)
    ensures SameStore(d, Run(d, steps))
    decreases |steps|
  {
    if steps == [] {
    } else {
      StepKeepsStore(d, steps[0]);
      RunKeepsStore(Apply(d, steps[0]), steps[1..]);
    }
  }

  /**
   Whatever interleaves, crashes or breaks locks: metadata.json, once it exists, satisfies the
   reader's own checks, and every version it lists is on disk with the recorded hash and opens.
   */
  lemma MetadataIsAlwaysBacked(fingerprint: Fingerprint, key: Key, clock: Millis, steps: seq<Step>)
    ensures
      var d := Run(Init(fingerprint, key, clock), steps);
      && (MetaName in d.files <==> d.commits != [])
      && (MetaName in d.files ==>
            && d.files[MetaName].MetadataFile?
            && AssertMetadata(d.files[MetaName].metadata)
            && var m := d.files[MetaName].metadata;
            && m.currentVersion == d.commits[|d.commits| - 1].version
            && forall i :: 0 <= i < |m.versions| ==>
                 && VersionName(m.versions[i].fileName) in d.files
                 && Sha256(d.files[VersionName(m.versions[i].fileName)]) == m.versions[i].recordSha256
                 && OpenRecord(d.files[VersionName(m.versions[i].fileName)], fingerprint, key, m.versions[i]).Ok?)
  {
    RunKeeps(Init(fingerprint, key, clock), steps);
    RunKeepsStore(Init(fingerprint, key, clock), steps);
    var d := Run(Init(fingerprint, key, clock), steps);
    if MetaName in d.files {
      var m := d.files[MetaName].metadata;
      forall i | 0 <= i < |m.versions| ensures EntryBacked(d.files, fingerprint, key, m.versions[i]) {}
    }
  }

  ghost predicate HasCommitted(d: Directory, w: ProcessId) {
    exists i :: 0 <= i < |d.commits| && d.commits[i].writer == w
  }

  predicate PastRename(phase: Phase) {
    phase.Renamed? || (phase.Releasing? && phase.stored) || (phase.Finished? && phase.stored)
  }

  ghost predicate SuccessesCommitted(d: Directory) {
    forall w :: w in d.writers && PastRename(d.writers[w].phase) ==> HasCommitted(d, w)
  }

  lemma CommittedStays(d: Directory, d': Directory, w: ProcessId)
    requires d.commits <= d'.commits && HasCommitted(d, w)
    ensures HasCommitted(d', w)
  {
    var i :| 0 <= i < |d.commits| && d.commits[i].writer == w;
    assert d'.commits[i].writer == w;
  }

  lemma AdvanceMovesOne(d: Directory, w: ProcessId)
    requires w in d.writers
    ensures w in DoAdvance(d, w).writers
    ensures DoAdvance(d, w).writers == d.writers[w := DoAdvance(d, w).writers[w]]
    ensures PastRename(DoAdvance(d, w).writers[w].phase) ==>
              PastRename(d.writers[w].phase) || d.writers[w].phase.MetaFilled?
  {
    match d.writers[w].phase
    case Looked(_) =>
    case MetaFilled(_, _) =>
    case _ =>
  }

  lemma OneWriterMoves(d: Directory, step: Step, v: ProcessId)
    requires v in Apply(d, step).writers && PastRename(Apply(d, step).writers[v].phase)
    ensures v in d.writers
    ensures PastRename(d.writers[v].phase) || (step == Advance(v) && d.writers[v].phase.MetaFilled?)
  {
    match step
    case Advance(w) =>
      if w in d.writers {
        AdvanceMovesOne(d, w);
      }
    case _ =>
  }

  lemma StepKeepsSuccesses(d: Directory, step: Step)
    requires SuccessesCommitted(d)
    ensures SuccessesCommitted(Apply(d, step))
  {
    var d' := Apply(d, step);
    StepKeepsStore(d, step);
    forall v | v in d'.writers && PastRename(d'.writers[v].phase) ensures HasCommitted(d', v) {
      OneWriterMoves(d, step, v);
      if PastRename(d.writers[v].phase) {
        CommittedStays(d, d', v);
      } else {
        assert d'.commits[|d.commits|].writer == v;
      }
    }
  }

  lemma {:induction false} RunKeepsSuccesses(d: Directory, steps: seq<Step>)
    requires SuccessesCommitted(d)
    ensures SuccessesCommitted(Run(d, steps))
    decreases |steps|
  {
    if steps == [] {
    } else {
      StepKeepsSuccesses(d, steps[0]);
      RunKeepsSuccesses(Apply(d, steps[0]), steps[1..]);
    }
  }

  /** A call that reported success has committed, and the commit is never forgotten. */
  lemma ReportedStoresAreCommitted(fingerprint: Fingerprint, key: Key, clock: Millis, steps: seq<Step>, w: ProcessId)
    requires
      var d := Run(Init(fingerprint, key, clock), steps);
      w in d.writers && d.writers[w].phase == Finished(true)
    ensures HasCommitted(Run(Init(fingerprint, key, clock), steps), w)
  {
    RunKeepsSuccesses(Init(fingerprint, key, clock), steps);
  }

  /** An atomic read gives the value of the latest commit, and nothing else. */
  lemma ReadGivesLatestCommit(d: Directory)
    requires Inv(d)
    ensures GetSecret(d.files, d.fingerprint, d.key) == Expected(d.commits)
  {
    ReadMetadataSucceeds(d);
    FetchGivesWhatWasSeen(d, if MetaName in d.files then Some(d.files[MetaName].metadata) else None, |d.commits|);
    assert d.commits[..|d.commits|] == d.commits;
  }

  lemma ReaderStep(d: Directory, step: Step, r: ProcessId)
    requires r in d.readers
    ensures r in Apply(d, step).readers && Apply(d, step).readers[r].seen == d.readers[r].seen
  {
    match step
    case Advance(w) => assert DoAdvance(d, w).readers == d.readers;
    case _ =>
  }

  /** A reader keeps the number of commits it saw. */
  lemma {:induction false} ReaderStays(d: Directory, steps: seq<Step>, r: ProcessId)
    requires r in d.readers
    ensures r in Run(d, steps).readers && Run(d, steps).readers[r].seen == d.readers[r].seen
    decreases |steps|
  {
    if steps == [] {
    } else {
      ReaderStep(d, steps[0], r);
      ReaderStays(Apply(d, steps[0]), steps[1..], r);
    }
  }

  lemma ReaderAnswersAsSeen(start: Directory, r: ProcessId, between: seq<Step>)
    requires Inv(start) && r !in start.readers
    ensures
      var end := DoFetch(Run(DoObserve(start, r), between), r);
      && r in end.readers && end.readers[r].Answered?
      && end.readers[r].result == Expected(start.commits)
  {
    ReadMetadataSucceeds(start);
    ObserveKeeps(start, r);
    var observed := DoObserve(start, r);
    RunKeeps(observed, between);
    RunKeepsStore(observed, between);
    ReaderStays(observed, between, r);
    FetchKeeps(Run(observed, between), r);
    var end := DoFetch(Run(observed, between), r);
    assert ReaderOk(end, end.readers[r]);
    assert end.commits[..|start.commits|] == start.commits;
  }

  /**
   A lock-free read in two steps, with anything in between, gives the value that was current when
   it read the metadata.
   */
  lemma LockFreeReadsAreAtomic(
    fingerprint: Fingerprint, key: Key, clock: Millis, before: seq<Step>, r: ProcessId, between: seq<Step>)
    requires r !in Run(Init(fingerprint, key, clock), before).readers
    ensures
      var start := Run(Init(fingerprint, key, clock), before);
      var end := Apply(Run(Apply(start, Observe(r)), between), Fetch(r));
      && r in end.readers && end.readers[r].Answered?
      && end.readers[r].result == GetSecret(start.files, fingerprint, key)
  {
    var start := Run(Init(fingerprint, key, clock), before);
    RunKeeps(Init(fingerprint, key, clock), before);
    RunKeepsStore(Init(fingerprint, key, clock), before);
    ReadGivesLatestCommit(start);
    ReaderAnswersAsSeen(start, r, between);
  }
}
