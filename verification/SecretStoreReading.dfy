/**
 What getSecret and the deep validation answer on any files, those no writer leaves included: every
 check of a read, and the error of the first one that fails.
 */
module SecretStoreReading {
  import opened Common
  import opened DecimalText
  import opened SecretStoreModel
  import opened SecretStore

  /** The name of a version: v, at least eight digits, .json. */
  function NameOf(version: nat): string {
    "v" + PadStart(Digits(version), 8) + ".json"
  }

  /** Versions count up from at least one under their names, and the last of them is current. */
  ghost predicate Healthy(m: Metadata) {
    && m.versions != []
    && (forall i :: 0 <= i < |m.versions| ==>
          1 <= m.versions[i].version && m.versions[i].fileName == NameOf(m.versions[i].version))
    && (forall i, j :: 0 <= i < j < |m.versions| ==> m.versions[i].version < m.versions[j].version)
    && m.currentVersion == m.versions[|m.versions| - 1].version
    && (m.deleted <==> m.versions[|m.versions| - 1].operation == Delete)
  }

  lemma {:induction false} VersionsRise(m: Metadata, i: nat, j: nat)
    requires AssertMetadata(m) && i < j < |m.versions|
    ensures m.versions[i].version < m.versions[j].version
    decreases j
  {
    assert EntryValid(m, j);
    if i < j - 1 {
      VersionsRise(m, i, j - 1);
    }
  }

  lemma HealthyMeaning(m: Metadata)
    ensures Healthy(m) <==> AssertMetadata(m)
  {
    if AssertMetadata(m) {
      forall i | 0 <= i < |m.versions|
        ensures 1 <= m.versions[i].version && m.versions[i].fileName == NameOf(m.versions[i].version)
      {
        assert EntryValid(m, i);
      }
      forall i: nat, j: nat | i < j < |m.versions| ensures m.versions[i].version < m.versions[j].version {
        VersionsRise(m, i, j);
      }
    }
    if Healthy(m) {
      forall i | 0 <= i < |m.versions| ensures EntryValid(m, i) {}
    }
  }

  /** There is metadata of this reference, and it is healthy. */
  ghost predicate Describes(files: Files, f: Fingerprint) {
    && MetaName in files && files[MetaName].MetadataFile?
    && Healthy(files[MetaName].metadata) && files[MetaName].metadata.fingerprint == f
  }

  /** The entry of the current version, with a name of exactly eight digits. */
  ghost predicate Current(files: Files, f: Fingerprint, e: Entry) {
    && Describes(files, f) && !files[MetaName].metadata.deleted
    && e == files[MetaName].metadata.versions[|files[MetaName].metadata.versions| - 1]
    && e.version < 100000000
  }

  ghost predicate OnDisk(files: Files, f: Fingerprint, e: Entry) {
    Current(files, f, e) && VersionName(e.fileName) in files
  }

  ghost predicate Untouched(files: Files, f: Fingerprint, e: Entry) {
    OnDisk(files, f, e) && e.recordSha256 == Sha256(files[VersionName(e.fileName)])
  }

  /** The file is a record of this reference, version, time and operation. */
  predicate RecordsEntry(blob: Blob, f: Fingerprint, e: Entry) {
    && blob.RecordFile?
    && blob.record.fingerprint == f && blob.record.version == e.version
    && blob.record.createdAt == e.createdAt && blob.record.operation == e.operation
  }

  ghost predicate Recorded(files: Files, f: Fingerprint, e: Entry) {
    Untouched(files, f, e) && RecordsEntry(files[VersionName(e.fileName)], f, e)
  }

  /** The text was sealed under this key, for this reference, version, time and operation. */
  predicate SealedFor(blob: Blob, f: Fingerprint, key: Key, e: Entry, value: string) {
    && blob.RecordFile? && blob.record.keyId == key
    && blob.record.sealed == Sealed(key, blob.record.sealed.iv, Aad(f, e.version, e.createdAt, e.operation), value)
  }

  lemma EightDigits(version: nat)
    ensures IsRecordName(NameOf(version)) <==> version < 100000000
  {
    RecognisedVersions(version);
    assert FileName(version) == NameOf(version);
    assert Pow10(8) == 10 * Pow10(7) && Pow10(7) == 10 * Pow10(6) && Pow10(6) == 10 * Pow10(5);
    assert Pow10(5) == 10 * Pow10(4) && Pow10(4) == 10 * Pow10(3) && Pow10(3) == 1000;
  }

  /** The one entry that can be current. */
  lemma CurrentIsLast(files: Files, f: Fingerprint)
    requires Describes(files, f) && !files[MetaName].metadata.deleted
    ensures
      var m := files[MetaName].metadata;
      var e := m.versions[|m.versions| - 1];
      && ReadMetadata(files, f) == Ok(Some(m))
      && e.operation == Write && e.version == m.currentVersion
      && (IsRecordName(e.fileName) <==> Current(files, f, e))
      && forall other :: Current(files, f, other) ==> other == e
  {
    var m := files[MetaName].metadata;
    HealthyMeaning(m);
    EightDigits(m.versions[|m.versions| - 1].version);
  }

  lemma NothingCurrent(files: Files, f: Fingerprint)
    requires !Describes(files, f) || files[MetaName].metadata.deleted
    ensures forall e :: !Current(files, f, e)
    ensures
      ReadMetadata(files, f) ==
        if MetaName !in files then Ok(None)
        else if Describes(files, f) then Ok(Some(files[MetaName].metadata))
        else Err(MetadataCorrupt)
  {
    if MetaName in files && files[MetaName].MetadataFile? {
      HealthyMeaning(files[MetaName].metadata);
    }
  }

  /** What opening a record file answers. */
  lemma OpeningAnswers(blob: Blob, f: Fingerprint, key: Key, e: Entry)
    ensures
      var r := OpenRecord(blob, f, key, e);
      && (forall value :: r == Ok(value) <==>
            e.recordSha256 == Sha256(blob) && RecordsEntry(blob, f, e) && SealedFor(blob, f, key, e, value))
      && (r == Err(IntegrityFailed) <==> e.recordSha256 != Sha256(blob))
      && (r == Err(RecordCorrupt) <==> e.recordSha256 == Sha256(blob) && !RecordsEntry(blob, f, e))
      && (r == Err(MasterKeyMismatch) <==>
            e.recordSha256 == Sha256(blob) && RecordsEntry(blob, f, e) && blob.record.keyId != key)
      && (r == Err(DecryptionFailed) <==>
            && e.recordSha256 == Sha256(blob) && RecordsEntry(blob, f, e) && blob.record.keyId == key
            && !SealedFor(blob, f, key, e, blob.record.sealed.plain))
      && (r.Err? ==> r.error in {IntegrityFailed, RecordCorrupt, MasterKeyMismatch, DecryptionFailed})
  {}

  /** A value is read exactly if metadata, record, digest, key and authenticated data all fit. */
  ghost predicate ReadsAs(files: Files, f: Fingerprint, key: Key, value: string) {
    exists e :: Recorded(files, f, e) && SealedFor(files[VersionName(e.fileName)], f, key, e, value)
  }

  lemma CurrentAnswers(files: Files, f: Fingerprint, key: Key, e: Entry)
    requires Current(files, f, e)
    ensures VersionName(e.fileName) !in files ==> GetSecret(files, f, key) == Err(RecordMissing)
    ensures VersionName(e.fileName) in files ==>
              GetSecret(files, f, key) == OpenRecord(files[VersionName(e.fileName)], f, key, e)
  {
    CurrentIsLast(files, f);
  }

  /** getSecret gives a value on any files exactly if every check passes, and then the sealed one. */
  lemma GetSecretReads(files: Files, f: Fingerprint, key: Key, value: string)
    ensures GetSecret(files, f, key) == Ok(value) <==> ReadsAs(files, f, key, value)
  {
    if Describes(files, f) && !files[MetaName].metadata.deleted {
      CurrentIsLast(files, f);
      var m := files[MetaName].metadata;
      var e := m.versions[|m.versions| - 1];
      if Current(files, f, e) {
        CurrentAnswers(files, f, key, e);
        if VersionName(e.fileName) in files {
          OpeningAnswers(files[VersionName(e.fileName)], f, key, e);
        }
      }
    } else {
      NothingCurrent(files, f);
    }
  }

  /** Each error of getSecret on any files, by the first check that fails. */
  lemma GetSecretFails(files: Files, f: Fingerprint, key: Key)
    ensures
      var r := GetSecret(files, f, key);
      && (r == Err(NotFound) <==>
            MetaName !in files || (Describes(files, f) && files[MetaName].metadata.deleted))
      && (r == Err(MetadataCorrupt) <==>
            && MetaName in files
            && (Describes(files, f) ==> !files[MetaName].metadata.deleted && forall e :: !Current(files, f, e)))
      && (r == Err(RecordMissing) <==> exists e :: Current(files, f, e) && VersionName(e.fileName) !in files)
      && (r == Err(IntegrityFailed) <==> exists e :: OnDisk(files, f, e) && !Untouched(files, f, e))
      && (r == Err(RecordCorrupt) <==> exists e :: Untouched(files, f, e) && !Recorded(files, f, e))
      && (r == Err(MasterKeyMismatch) <==>
            exists e :: Recorded(files, f, e) && files[VersionName(e.fileName)].record.keyId != key)
      && (r == Err(DecryptionFailed) <==>
            exists e :: Recorded(files, f, e) && files[VersionName(e.fileName)].record.keyId == key
                        && !ReadsAs(files, f, key, files[VersionName(e.fileName)].record.sealed.plain))
  {
    if Describes(files, f) && !files[MetaName].metadata.deleted {
      CurrentIsLast(files, f);
      var m := files[MetaName].metadata;
      var e := m.versions[|m.versions| - 1];
      if Current(files, f, e) {
        CurrentAnswers(files, f, key, e);
        if VersionName(e.fileName) in files {
          OpeningAnswers(files[VersionName(e.fileName)], f, key, e);
          assert OnDisk(files, f, e);
          assert Untouched(files, f, e) <==> GetSecret(files, f, key) != Err(IntegrityFailed);
          assert Untouched(files, f, e) && !Recorded(files, f, e) <==> GetSecret(files, f, key) == Err(RecordCorrupt);
        }
      }
    } else {
      NothingCurrent(files, f);
    }
  }

  /**
   The second half of a read answers as a whole read would on files whose metadata is still the one
   the first half found.
   */
  lemma FetchReads(files: Files, f: Fingerprint, key: Key, m: Metadata)
    requires Healthy(m) && m.fingerprint == f
    ensures FetchSecret(files, f, key, Some(m)) == GetSecret(files[MetaName := MetadataFile(m)], f, key)
    ensures FetchSecret(files, f, key, None) == Err(NotFound)
  {
    HealthyMeaning(m);
  }

  // -- Deep validation ---------------------------------------------------------------------

  /** The record of an entry is there, untouched, its own, and opens. */
  ghost predicate EntryOpens(files: Files, f: Fingerprint, key: Key, e: Entry) {
    && VersionName(e.fileName) in files
    && e.recordSha256 == Sha256(files[VersionName(e.fileName)])
    && RecordsEntry(files[VersionName(e.fileName)], f, e)
    && exists value :: SealedFor(files[VersionName(e.fileName)], f, key, e, value)
  }

  lemma EntryVerifies(files: Files, key: Key, m: Metadata, e: Entry)
    ensures VerifyEntry(files, key, m, e).Ok? <==> EntryOpens(files, m.fingerprint, key, e)
    ensures VerifyEntry(files, key, m, e) == Err(ReadFailed) <==> VersionName(e.fileName) !in files
  {
    if VersionName(e.fileName) in files {
      var blob := files[VersionName(e.fileName)];
      OpeningAnswers(blob, m.fingerprint, key, e);
      if VerifyEntry(files, key, m, e).Ok? {
        assert SealedFor(blob, m.fingerprint, key, e, VerifyEntry(files, key, m, e).value);
      }
    }
  }

  lemma {:induction false} EntriesVerify(files: Files, key: Key, m: Metadata, i: nat)
    requires i <= |m.versions|
    ensures VerifyEntries(files, key, m, i) == None <==>
              forall j :: i <= j < |m.versions| ==> EntryOpens(files, m.fingerprint, key, m.versions[j])
    decreases |m.versions| - i
  {
    if i == |m.versions| {
    } else {
      EntryVerifies(files, key, m, m.versions[i]);
      EntriesVerify(files, key, m, i + 1);
    }
  }

  /** Metadata whose every version opens under the key. */
  ghost predicate AllOpen(files: Files, key: Key) {
    && MetaName in files && files[MetaName].MetadataFile? && Healthy(files[MetaName].metadata)
    && forall i :: 0 <= i < |files[MetaName].metadata.versions| ==>
         EntryOpens(files, files[MetaName].metadata.fingerprint, key, files[MetaName].metadata.versions[i])
  }

  lemma DirectoryOpens(files: Files, key: Key)
    ensures VerifyDirectory(files, key).Ok? <==> AllOpen(files, key)
    ensures AllOpen(files, key) ==> VerifyDirectory(files, key) == Ok(files[MetaName].metadata)
  {
    if MetaName in files && files[MetaName].MetadataFile? {
      HealthyMeaning(files[MetaName].metadata);
      EntriesVerify(files, key, files[MetaName].metadata, 0);
    }
  }

  function Living(dirs: map<Fingerprint, Files>, listing: seq<Fingerprint>): nat {
    if listing == [] then 0
    else
      var n := |listing| - 1;
      var f := listing[n];
      var lives := f in dirs && MetaName in dirs[f] && dirs[f][MetaName].MetadataFile?
                   && !dirs[f][MetaName].metadata.deleted;
      Living(dirs, listing[..n]) + if lives then 1 else 0
  }

  function VersionCount(dirs: map<Fingerprint, Files>, listing: seq<Fingerprint>): nat {
    if listing == [] then 0
    else
      var n := |listing| - 1;
      var f := listing[n];
      var described := f in dirs && MetaName in dirs[f] && dirs[f][MetaName].MetadataFile?;
      VersionCount(dirs, listing[..n]) + if described then |dirs[f][MetaName].metadata.versions| else 0
  }

  /**
   On any directories, the deep validation passes exactly if each has healthy metadata and every version
   opens under the key; and then it counts the living references, the deleted ones, and all versions.
   */
  lemma {:induction false} ValidationMeans(dirs: map<Fingerprint, Files>, key: Key, listing: seq<Fingerprint>)
    requires forall f :: f in listing ==> f in dirs
    ensures Living(dirs, listing) <= |listing|
    ensures VerifyAll(dirs, key, listing).Ok? <==> forall f :: f in listing ==> AllOpen(dirs[f], key)
    ensures VerifyAll(dirs, key, listing).Ok? ==>
              VerifyAll(dirs, key, listing).value
              == Counts(Living(dirs, listing), |listing| - Living(dirs, listing), VersionCount(dirs, listing))
    decreases |listing|
  {
    if listing == [] {
    } else {
      var n := |listing| - 1;
      assert listing == listing[..n] + [listing[n]] && listing[n] in listing;
      ValidationMeans(dirs, key, listing[..n]);
      DirectoryOpens(dirs[listing[n]], key);
    }
  }
}
