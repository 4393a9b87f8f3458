/**
 The objects of one fiscal document in the local object store: what the evidence model takes as one
 atomic put is what the files go through, whatever interleaves, fails or stops between the calls.
 */
module FiscalStorage {
  import opened Common
  import opened PathText
  import FiscalEvidenceModel
  import LocalStorage

  type Key = FiscalEvidenceModel.Key
  type Bytes = LocalStorage.Bytes

  /** The storage keys of a document, resolved to paths. */
  datatype Names = Names(unsigned: Path, signed: Path, response: Path)

  predicate Different(n: Names) {
    n.unsigned != n.signed && n.unsigned != n.response && n.signed != n.response
  }

  function PathOf(n: Names, key: Key): Path {
    match key
    case UnsignedKey => n.unsigned
    case SignedKey => n.signed
    case ResponseKey => n.response
  }

  /** The document's part of the store. */
  function Seen(objects: map<Path, Bytes>, n: Names): map<Key, Bytes> {
    map key | key in {FiscalEvidenceModel.UnsignedKey, FiscalEvidenceModel.SignedKey, FiscalEvidenceModel.ResponseKey}
              && PathOf(n, key) in objects :: objects[PathOf(n, key)]
  }

  lemma SeenAt(objects: map<Path, Bytes>, n: Names, key: Key)
    ensures key in Seen(objects, n) <==> PathOf(n, key) in objects
    ensures key in Seen(objects, n) ==> Seen(objects, n)[key] == objects[PathOf(n, key)]
  {
    match key
    case UnsignedKey =>
    case SignedKey =>
    case ResponseKey =>
  }

  ghost predicate Has<K>(objects: map<K, Bytes>, key: K, bytes: Bytes) {
    key in objects && objects[key] == bytes
  }

  /** Each object of the document is the file with its name. */
  lemma SeenByName(objects: map<Path, Bytes>, n: Names, bytes: Bytes)
    ensures Has(Seen(objects, n), FiscalEvidenceModel.UnsignedKey, bytes) <==> Has(objects, n.unsigned, bytes)
    ensures Has(Seen(objects, n), FiscalEvidenceModel.SignedKey, bytes) <==> Has(objects, n.signed, bytes)
    ensures Has(Seen(objects, n), FiscalEvidenceModel.ResponseKey, bytes) <==> Has(objects, n.response, bytes)
  {
    SeenAt(objects, n, FiscalEvidenceModel.UnsignedKey);
    SeenAt(objects, n, FiscalEvidenceModel.SignedKey);
    SeenAt(objects, n, FiscalEvidenceModel.ResponseKey);
  }

  lemma PutIsSeen(objects: map<Path, Bytes>, n: Names, path: Path, bytes: Bytes)
    requires Different(n)
    ensures forall key :: PathOf(n, key) == path ==>
              && Seen(Put(objects, path, bytes), n) == Put(Seen(objects, n), key, bytes)
              && (PutSucceeds(objects, path, bytes) <==> PutSucceeds(Seen(objects, n), key, bytes))
    ensures (forall key :: PathOf(n, key) != path) ==> Seen(Put(objects, path, bytes), n) == Seen(objects, n)
  {
    var after := Put(objects, path, bytes);
    forall key ensures key in Seen(after, n) <==> key in Seen(objects, n) || PathOf(n, key) == path {
      SeenAt(after, n, key);
      SeenAt(objects, n, key);
    }
    forall key | key in Seen(objects, n) ensures Seen(after, n)[key] == Seen(objects, n)[key] {
      SeenAt(after, n, key);
      SeenAt(objects, n, key);
    }
    forall key | PathOf(n, key) == path
      ensures Seen(after, n) == Put(Seen(objects, n), key, bytes)
      ensures PutSucceeds(objects, path, bytes) <==> PutSucceeds(Seen(objects, n), key, bytes)
    {
      SeenAt(after, n, key);
      SeenAt(objects, n, key);
      assert forall other :: PathOf(n, other) == path ==> other == key;
    }
  }

  /** The uploads of this document among all uploads, with the object they are for. */
  ghost predicate IsFor(n: Names, w: LocalStorage.Uploader, key: Key) {
    w.path == PathOf(n, key)
  }

  /**
   A step of the store is nothing to a document, or one put of one of its objects: the put the
   evidence model makes, with the answer it gives.
   */
  lemma StepIsPut(s: LocalStorage.State, step: LocalStorage.Step, n: Names)
    requires LocalStorage.Inv(s) && !step.Delete? && Different(n)
    ensures
      var before := Seen(LocalStorage.Objects(s), n);
      var after := Seen(LocalStorage.Objects(LocalStorage.Apply(s, step)), n);
      match LocalStorage.Decides(s, step)
      case None => after == before
      case Some(w) =>
        && (forall key :: IsFor(n, w, key) ==>
              && after == Put(before, key, w.bytes)
              && step.u in LocalStorage.Apply(s, step).uploaders
              && LocalStorage.Answers(LocalStorage.Apply(s, step).uploaders[step.u], PutSucceeds(before, key, w.bytes)))
        && ((forall key :: !IsFor(n, w, key)) ==> after == before)
  {
    LocalStorage.UploadRefinesPut(s, step);
    match LocalStorage.Decides(s, step)
    case None =>
    case Some(w) =>
      PutIsSeen(LocalStorage.Objects(s), n, w.path, w.bytes);
      assert forall key :: IsFor(n, w, key) <==> PathOf(n, key) == w.path;
  }
}
