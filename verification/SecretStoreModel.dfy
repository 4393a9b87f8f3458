/**
 The encrypted versioned secret store: one directory per secret, holding immutable record files,
 a metadata file replaced by rename, a lock file and temporary files. Each file-system call is one
 step, a process may stop between any two calls, and a step that is not enabled leaves the state
 unchanged. SHA-256 and AES-256-GCM are injective: a digest holds what was hashed, and a sealed
 value opens only with the key and the authenticated data it was sealed with.
 */
module SecretStoreModel {
  import opened Common
  import opened DecimalText

  type Key = nat
  type Millis = int
  type Fingerprint = nat
  type ProcessId = nat

  const LOCK_TIMEOUT_MS: Millis := 5000
  const STALE_LOCK_MS: Millis := 30000
  const KEY_CHECK_VALUE := "billing-local-secret-store-key-check-v1"

  // -- File contents -----------------------------------------------------------------------

  datatype Operation = Write | Delete

  datatype Aad = Aad(fingerprint: Fingerprint, version: nat, createdAt: Millis, operation: Operation)

  datatype Sealed = Sealed(key: Key, iv: nat, aad: Aad, plain: string)

  datatype Record = Record(
    fingerprint: Fingerprint,
    version: nat,
    createdAt: Millis,
    operation: Operation,
    keyId: Key,
    sealed: Sealed)

  datatype Digest = Sha256(preimage: Blob)

  datatype Entry = Entry(
    version: nat,
    createdAt: Millis,
    operation: Operation,
    fileName: string,
    recordSha256: Digest)

  datatype Metadata = Metadata(
    fingerprint: Fingerprint,
    currentVersion: nat,
    deleted: bool,
    versions: seq<Entry>)

  /** `Partial` is a file that was opened and not yet written to its end. */
  datatype Blob =
    | Partial
    | RecordFile(record: Record)
    | MetadataFile(metadata: Metadata)
    | LockText(owner: ProcessId, touchedAt: Millis)

  datatype TempKind = ForRecord | ForMetadata

  /** Temporary names carry a random UUID: no two processes ever share one. */
  datatype Name = MetaName | LockName | VersionName(text: string) | TempName(owner: ProcessId, kind: TempKind)

  type Files = map<Name, Blob>

  datatype SecretError =
    | NotFound
    | MetadataCorrupt
    | RecordMissing
    | IntegrityFailed
    | RecordCorrupt
    | MasterKeyMismatch
    | DecryptionFailed
    | ReadFailed
    | Busy
    | ValueEmpty

  // -- Names -------------------------------------------------------------------------------

  const VERSION_DIGITS: nat := 8
  const JSON_SUFFIX := ".json"

  function FileName(version: nat): string {
    "v" + PadStart(Digits(version), VERSION_DIGITS) + JSON_SUFFIX
  }

  /** The pattern v\d{8}.json, used when a record is read and when the directory is scanned. */
  predicate IsRecordName(text: string) {
    && |text| == 1 + VERSION_DIGITS + |JSON_SUFFIX|
    && text[0] == 'v'
    && AllDigits(text[1..1 + VERSION_DIGITS])
    && text[1 + VERSION_DIGITS..] == JSON_SUFFIX
  }

  function RecordNumber(text: string): nat
    requires IsRecordName(text)
  {
    Value(text[1..1 + VERSION_DIGITS])
  }

  lemma FileNameParts(version: nat)
    ensures
      var padded := PadStart(Digits(version), VERSION_DIGITS);
      && FileName(version)[1..|FileName(version)| - |JSON_SUFFIX|] == padded
      && |FileName(version)| == 1 + |padded| + |JSON_SUFFIX|
  {}

  lemma FileNameIsInjective(m: nat, n: nat)
    requires FileName(m) == FileName(n)
    ensures m == n
  {
    FileNameParts(m);
    FileNameParts(n);
    PaddedIsInjective(m, n, VERSION_DIGITS);
  }

  /** A version has a name the pattern recognises exactly up to 99 999 999, and the scan reads it back. */
  lemma RecognisedVersions(version: nat)
    ensures IsRecordName(FileName(version)) <==> version < Pow10(VERSION_DIGITS)
    ensures version < Pow10(VERSION_DIGITS) ==> RecordNumber(FileName(version)) == version
  {
    FileNameParts(version);
    PaddedFits(version, VERSION_DIGITS);
    PaddedRoundTrip(version, VERSION_DIGITS);
    var padded := PadStart(Digits(version), VERSION_DIGITS);
    if version < Pow10(VERSION_DIGITS) {
      var name := FileName(version);
      assert |name| == 1 + VERSION_DIGITS + |JSON_SUFFIX|;
      assert name[1 + VERSION_DIGITS..] == JSON_SUFFIX;
      assert name[1..1 + VERSION_DIGITS] == padded;
    }
  }

  ghost predicate EightDigits(text: string, digits: string) {
    |digits| == 8 && AllDigits(digits) && text == "v" + digits + ".json"
  }

  /** The names of records: v, eight digits, .json. */
  lemma RecordNamesMean(text: string)
    ensures IsRecordName(text) <==> exists digits :: EightDigits(text, digits)
  {
    if IsRecordName(text) {
      assert text == text[..1] + text[1..9] + text[9..];
      assert EightDigits(text, text[1..9]);
    }
    if digits :| EightDigits(text, digits) {
      assert text[1..9] == digits && text[9..] == ".json";
    }
  }

  // -- Reading -----------------------------------------------------------------------------

  predicate EntryValid(m: Metadata, i: nat)
    requires i < |m.versions|
  {
    && 1 <= m.versions[i].version
    && (i > 0 ==> m.versions[i - 1].version < m.versions[i].version)
    && m.versions[i].fileName == FileName(m.versions[i].version)
  }

  predicate AssertMetadata(m: Metadata) {
    && 1 <= |m.versions|
    && (forall i :: 0 <= i < |m.versions| ==> EntryValid(m, i))
    && 1 <= m.currentVersion
    && m.versions[|m.versions| - 1].version == m.currentVersion
    && (m.deleted <==> m.versions[|m.versions| - 1].operation == Delete)
  }

  function ReadMetadata(files: Files, fingerprint: Fingerprint): Result<Option<Metadata>, SecretError> {
    if MetaName !in files then Ok(None)
    else match files[MetaName]
      case MetadataFile(m) =>
        if AssertMetadata(m) && m.fingerprint == fingerprint then Ok(Some(m)) else Err(MetadataCorrupt)
      case _ => Err(MetadataCorrupt)
  }

  predicate AssertRecord(r: Record, fingerprint: Fingerprint, e: Entry) {
    && r.fingerprint == fingerprint
    && r.version == e.version
    && r.createdAt == e.createdAt
    && r.operation == e.operation
  }

  function DecryptRecord(r: Record, key: Key): Result<string, SecretError> {
    if r.keyId != key then Err(MasterKeyMismatch)
    else if r.sealed.key != key || r.sealed.aad != Aad(r.fingerprint, r.version, r.createdAt, r.operation) then
      Err(DecryptionFailed)
    else Ok(r.sealed.plain)
  }

  function OpenRecord(blob: Blob, fingerprint: Fingerprint, key: Key, e: Entry): Result<string, SecretError> {
    if Sha256(blob) != e.recordSha256 then Err(IntegrityFailed)
    else if !blob.RecordFile? || !AssertRecord(blob.record, fingerprint, e) then Err(RecordCorrupt)
    else DecryptRecord(blob.record, key)
  }

  /** The second half of getSecret: from the metadata read earlier to the value. */
  function FetchSecret(files: Files, fingerprint: Fingerprint, key: Key,
      found: Option<Metadata>): Result<string, SecretError> {
    match found
    case None => Err(NotFound)
    case Some(m) =>
      if m.deleted then Err(NotFound)
      else if m.versions == [] then Err(MetadataCorrupt)
      else
        var e := m.versions[|m.versions| - 1];
        if e.version != m.currentVersion || e.operation != Write || !IsRecordName(e.fileName) then Err(MetadataCorrupt)
        else if VersionName(e.fileName) !in files then Err(RecordMissing)
        else OpenRecord(files[VersionName(e.fileName)], fingerprint, key, e)
  }

  function GetSecret(files: Files, fingerprint: Fingerprint, key: Key): Result<string, SecretError> {
    match ReadMetadata(files, fingerprint)
    case Err(error) => Err(error)
    case Ok(found) => FetchSecret(files, fingerprint, key, found)
  }

  // -- Writing -----------------------------------------------------------------------------

  /** The numbers the directory scan sees. */
  function NumbersOnDisk(files: Files): set<nat> {
    set name | name in files && name.VersionName? && IsRecordName(name.text) :: RecordNumber(name.text)
  }

  ghost predicate IsMaximum(numbers: set<nat>, n: nat) {
    && (n in numbers || (n == 0 && numbers == {}))
    && forall k :: k in numbers ==> k <= n
  }

  lemma {:induction false} MaximumExists(numbers: set<nat>)
    ensures exists n: nat :: IsMaximum(numbers, n)
    decreases |numbers|
  {
    if numbers == {} {
      assert IsMaximum(numbers, 0);
    } else {
      var k :| k in numbers;
      MaximumExists(numbers - {k});
      var n: nat :| IsMaximum(numbers - {k}, n);
      assert forall j :: j in numbers ==> j == k || j in numbers - {k};
      assert IsMaximum(numbers, if k >= n then k else n);
    }
  }

  ghost function MaximumVersionOnDisk(files: Files): (n: nat)
    ensures IsMaximum(NumbersOnDisk(files), n)
  {
    MaximumExists(NumbersOnDisk(files));
    var n: nat :| IsMaximum(NumbersOnDisk(files), n);
    n
  }

  lemma ScanSees(files: Files, text: string)
    requires VersionName(text) in files && IsRecordName(text)
    ensures RecordNumber(text) <= MaximumVersionOnDisk(files)
  {
    assert RecordNumber(VersionName(text).text) in NumbersOnDisk(files);
  }

  function CurrentVersion(found: Option<Metadata>): nat {
    if found.Some? then found.value.currentVersion else 0
  }

  datatype Phase =
    | Acquiring
    | Refused
    | Breaking
    | Opened
    | Holding
    | Keyed
    | Looked(existing: Option<Metadata>)
    | Numbered(existing: Option<Metadata>, next: nat)
    | RecordOpened(existing: Option<Metadata>, next: nat)
    | RecordFilled(existing: Option<Metadata>, next: nat)
    | Linked(existing: Option<Metadata>, next: nat)
    | Recorded(existing: Option<Metadata>, next: nat)
    | MetaOpened(existing: Option<Metadata>, next: nat)
    | MetaFilled(existing: Option<Metadata>, next: nat)
    | Renamed
    | Cleaning
    | Releasing(stored: bool)
    | Finished(stored: bool)
    | Crashed

  datatype Writer = Writer(
    operation: Operation,
    value: string,
    key: Key,
    iv: nat,
    startedAt: Millis,
    createdAt: Millis,
    phase: Phase)

  function PlainText(w: Writer): string {
    if w.operation == Write then w.value else KEY_CHECK_VALUE
  }

  function RecordFor(fingerprint: Fingerprint, w: Writer, next: nat): Record {
    var aad := Aad(fingerprint, next, w.createdAt, w.operation);
    Record(fingerprint, next, w.createdAt, w.operation, w.key, Sealed(w.key, w.iv, aad, PlainText(w)))
  }

  function EntryFor(fingerprint: Fingerprint, w: Writer, next: nat): Entry {
    Entry(next, w.createdAt, w.operation, FileName(next), Sha256(RecordFile(RecordFor(fingerprint, w, next))))
  }

  function MetadataFor(fingerprint: Fingerprint, w: Writer, existing: Option<Metadata>, next: nat): Metadata {
    Metadata(
      fingerprint, next, w.operation == Delete,
      (if existing.Some? then existing.value.versions else []) + [EntryFor(fingerprint, w, next)])
  }

  // -- The machine -------------------------------------------------------------------------

  /** What getSecret has done so far. `seen` is the number of commits when it read the metadata. */
  datatype Reader =
    | ReadingRecord(found: Option<Metadata>, seen: nat)
    | Answered(result: Result<string, SecretError>, seen: nat)

  datatype Commit = Commit(writer: ProcessId, operation: Operation, value: string, version: nat)

  /** One secret directory. `commits` logs the renames of metadata.json, in their order. */
  datatype Directory = Directory(
    fingerprint: Fingerprint,
    key: Key,
    clock: Millis,
    files: Files,
    writers: map<ProcessId, Writer>,
    readers: map<ProcessId, Reader>,
    commits: seq<Commit>)

  datatype Step =
    | Tick(ms: nat)
    | Start(w: ProcessId, operation: Operation, value: string, key: Key, iv: nat)
    | Advance(w: ProcessId)
    | IoError(w: ProcessId)
    | Crash(w: ProcessId)
    | Observe(r: ProcessId)
    | Fetch(r: ProcessId)

  function Init(fingerprint: Fingerprint, key: Key, clock: Millis): Directory {
    Directory(fingerprint, key, clock, map[], map[], map[], [])
  }

  function SetPhase(d: Directory, w: ProcessId, phase: Phase): Directory
    requires w in d.writers
  {
    d.(writers := d.writers[w := d.writers[w].(phase := phase)])
  }

  function Without(files: Files, name: Name): Files {
    files - {name}
  }

  /** open with flag wx on the lock file. */
  function TryLock(d: Directory, w: ProcessId): Directory
    requires w in d.writers
  {
    if LockName in d.files then SetPhase(d, w, Refused)
    else SetPhase(d, w, Opened).(files := d.files[LockName := LockText(w, d.clock)])
  }

  /** The text goes through the open handle: it is lost if the lock was broken meanwhile. */
  function WriteLockText(d: Directory, w: ProcessId): Directory
    requires w in d.writers
  {
    var held := LockName in d.files && d.files[LockName].LockText? && d.files[LockName].owner == w;
    SetPhase(d, w, Holding).(files := if held then d.files[LockName := LockText(w, d.clock)] else d.files)
  }

  /** stat of a lock somebody else holds, then break it, give up, or sleep and try again. */
  function InspectLock(d: Directory, w: ProcessId): Directory
    requires w in d.writers
  {
    if LockName in d.files && d.files[LockName].LockText? && d.clock - d.files[LockName].touchedAt > STALE_LOCK_MS then
      SetPhase(d, w, Breaking)
    else if d.clock - d.writers[w].startedAt >= LOCK_TIMEOUT_MS then SetPhase(d, w, Finished(false))
    else SetPhase(d, w, Acquiring)
  }

  function Unlock(d: Directory, w: ProcessId, phase: Phase): Directory
    requires w in d.writers
  {
    SetPhase(d, w, phase).(files := Without(d.files, LockName))
  }

  function CheckKey(d: Directory, w: ProcessId): Directory
    requires w in d.writers
  {
    SetPhase(d, w, if d.writers[w].key == d.key then Keyed else Releasing(false))
  }

  function LookUp(d: Directory, w: ProcessId): Directory
    requires w in d.writers
  {
    match ReadMetadata(d.files, d.fingerprint)
    case Ok(found) => SetPhase(d, w, Looked(found))
    case Err(_) => SetPhase(d, w, Releasing(false))
  }

  ghost function Number(d: Directory, w: ProcessId, existing: Option<Metadata>): Directory
    requires w in d.writers
  {
    var next := Max(CurrentVersion(existing), MaximumVersionOnDisk(d.files)) + 1;
    d.(writers := d.writers[w := d.writers[w].(createdAt := d.clock, phase := Numbered(existing, next))])
  }

  function PutTemp(d: Directory, w: ProcessId, kind: TempKind, blob: Blob, phase: Phase): Directory
    requires w in d.writers
  {
    SetPhase(d, w, phase).(files := d.files[TempName(w, kind) := blob])
  }

  /** link fails when the version file exists. */
  function LinkRecord(d: Directory, w: ProcessId, existing: Option<Metadata>, next: nat): Directory
    requires w in d.writers
  {
    var temp, name := TempName(w, ForRecord), VersionName(FileName(next));
    if temp !in d.files || name in d.files then SetPhase(d, w, Cleaning)
    else SetPhase(d, w, Linked(existing, next)).(files := d.files[name := d.files[temp]])
  }

  function RenameMetadata(d: Directory, w: ProcessId, next: nat): Directory
    requires w in d.writers
  {
    var temp := TempName(w, ForMetadata);
    if temp !in d.files then SetPhase(d, w, Cleaning)
    else
      SetPhase(d, w, Renamed).(
        files := Without(d.files[MetaName := d.files[temp]], temp),
        commits := d.commits + [Commit(w, d.writers[w].operation, d.writers[w].value, next)])
  }

  /** The clean-up of writeAtomic after an error. */
  function CleanUp(d: Directory, w: ProcessId): Directory
    requires w in d.writers
  {
    SetPhase(d, w, Releasing(false)).(
      files := Without(Without(d.files, TempName(w, ForRecord)), TempName(w, ForMetadata)))
  }

  ghost function DoAdvance(d: Directory, w: ProcessId): Directory {
    if w !in d.writers then d
    else
      var wr := d.writers[w];
      match wr.phase
      case Acquiring => TryLock(d, w)
      case Refused => InspectLock(d, w)
      case Breaking => Unlock(d, w, Acquiring)
      case Opened => WriteLockText(d, w)
      case Holding => CheckKey(d, w)
      case Keyed => LookUp(d, w)
      case Looked(existing) => Number(d, w, existing)
      case Numbered(existing, next) => PutTemp(d, w, ForRecord, Partial, RecordOpened(existing, next))
      case RecordOpened(existing, next) =>
        PutTemp(d, w, ForRecord, RecordFile(RecordFor(d.fingerprint, wr, next)), RecordFilled(existing, next))
      case RecordFilled(existing, next) => LinkRecord(d, w, existing, next)
      case Linked(existing, next) =>
        SetPhase(d, w, Recorded(existing, next)).(files := Without(d.files, TempName(w, ForRecord)))
      case Recorded(existing, next) => PutTemp(d, w, ForMetadata, Partial, MetaOpened(existing, next))
      case MetaOpened(existing, next) =>
        PutTemp(d, w, ForMetadata, MetadataFile(MetadataFor(d.fingerprint, wr, existing, next)),
            MetaFilled(existing, next))
      case MetaFilled(existing, next) => RenameMetadata(d, w, next)
      case Renamed => SetPhase(d, w, Releasing(true))
      case Cleaning => CleanUp(d, w)
      case Releasing(stored) => Unlock(d, w, Finished(stored))
      case Finished(_) => d
      case Crashed => d
  }

  /** The phases in which a live process believes it holds the lock. */
  predicate InCritical(phase: Phase) {
    !(phase.Acquiring? || phase.Refused? || phase.Breaking? || phase.Finished? || phase.Crashed?)
  }

  /** storeSecret refuses an empty value before it touches the directory. */
  function DoStart(d: Directory, w: ProcessId, operation: Operation, value: string, key: Key, iv: nat): Directory {
    if w in d.writers || (operation == Write && value == "") then d
    else d.(writers := d.writers[w := Writer(operation, value, key, iv, d.clock, d.clock, Acquiring)])
  }

  /**
   Any call inside the critical section may fail; the clean-up runs, and the lock is released. An
   error while the lock text is written leaves the lock behind, a failing removal what it was to remove.
   The removal of the lock may fail without an effect on the answer.
   */
  function DoIoError(d: Directory, w: ProcessId): Directory {
    if w !in d.writers || !InCritical(d.writers[w].phase) then d
    else
      match d.writers[w].phase
      case Opened => SetPhase(d, w, Finished(false))
      case Cleaning => SetPhase(d, w, Releasing(false))
      case Releasing(stored) => SetPhase(d, w, Finished(stored))
      case _ => SetPhase(d, w, Cleaning)
  }

  function DoCrash(d: Directory, w: ProcessId): Directory {
    if w in d.writers && !d.writers[w].phase.Finished? then SetPhase(d, w, Crashed) else d
  }

  function DoObserve(d: Directory, r: ProcessId): Directory {
    if r in d.readers then d
    else
      var reader := match ReadMetadata(d.files, d.fingerprint)
        case Ok(found) => ReadingRecord(found, |d.commits|)
        case Err(error) => Answered(Err(error), |d.commits|);
      d.(readers := d.readers[r := reader])
  }

  function DoFetch(d: Directory, r: ProcessId): Directory {
    if r in d.readers && d.readers[r].ReadingRecord? then
      var result := FetchSecret(d.files, d.fingerprint, d.key, d.readers[r].found);
      d.(readers := d.readers[r := Answered(result, d.readers[r].seen)])
    else d
  }

  ghost function Apply(d: Directory, step: Step): Directory {
    match step
    case Tick(ms) => d.(clock := d.clock + ms)
    case Start(w, operation, value, key, iv) => DoStart(d, w, operation, value, key, iv)
    case Advance(w) => DoAdvance(d, w)
    case IoError(w) => DoIoError(d, w)
    case Crash(w) => DoCrash(d, w)
    case Observe(r) => DoObserve(d, r)
    case Fetch(r) => DoFetch(d, r)
  }

  ghost function Run(d: Directory, steps: seq<Step>): Directory
    decreases |steps|
  {
    if steps == [] then d else Run(Apply(d, steps[0]), steps[1..])
  }

  /** What the commits so far mean: the value a read should give. */
  function Meaning(commits: seq<Commit>): Option<string> {
    if commits == [] || commits[|commits| - 1].operation == Delete then None
    else Some(commits[|commits| - 1].value)
  }
}
