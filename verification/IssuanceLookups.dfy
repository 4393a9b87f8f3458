/**
 The lookups, the answer to a known key and the configuration of sequences on any rows, reachable or
 not: rows that were altered by hand, or are inconsistent, are refused as well.
 */
module IssuanceLookups {
  import opened Common
  import opened FiscalKey
  import opened IssuanceModel
  import FiscalForm
  import CanonicalJson

  /** The reservation is completed by this document, and the document has its owner, key and hash. */
  ghost predicate Vouches(db: Db, k: KeyId, environment: Environment, id: DocumentId) {
    && k in db.keys && db.keys[k].completed && db.keys[k].document == Some(id) && id in db.documents
    && var d := db.documents[id];
       && d.scope.tenant == k.tenant && d.scope.company == k.company && d.scope.documentType == k.operation
       && d.scope.environment == environment && d.key == k.key && d.hash == db.keys[k].hash
  }

  /**
   Whatever the rows are: an identity is found exactly if its key has this hash and its document
   vouches for it, and any other row with this key and hash is an integrity error.
   */
  lemma IdentityIsVouchedFor(db: Db, k: KeyId, environment: Environment, hash: RequestHash, id: DocumentId)
    ensures
      var found := LookUpIdentity(db, k, environment, hash);
      && (found == Ok(id) <==> Vouches(db, k, environment, id) && db.keys[k].hash == hash)
      && (found == Err(IdentityNotFound) <==> !(k in db.keys && db.keys[k].hash == hash))
      && (found.Err? ==> found.error in {IdentityNotFound, IntegrityError})
  {}

  /** The canonical form of the payload that a document keeps. */
  ghost predicate KeptHash(parse: CanonicalJson.JsString -> Option<CanonicalJson.JsString>, d: Document,
      hash: FiscalForm.PayloadHash)
  {
    var stored := FiscalForm.InputOfStored(d.form);
    stored.Ok? && FiscalForm.CanonicalHash(parse, stored.value) == Ok(hash)
  }

  /**
   Whatever the rows are: evidence is found exactly if the supplied payload has a canonical form, the
   document vouches for its key, and what it keeps has the same form.
   */
  lemma EvidenceIsVouchedFor(parse: CanonicalJson.JsString -> Option<CanonicalJson.JsString>, db: Db, k: KeyId,
                             environment: Environment, payload: FiscalForm.Input, id: DocumentId)
    ensures
      var found := LookUpEvidence(parse, db, k, environment, payload);
      var supplied := FiscalForm.CanonicalHash(parse, payload);
      && (found == Ok(id) <==>
            supplied.Ok? && Vouches(db, k, environment, id) && KeptHash(parse, db.documents[id], supplied.value))
      && (found == Err(EvidenceInvalid) <==> supplied.Err?)
      && (found == Err(IntegrityError) <==>
            supplied.Ok? && k in db.keys && forall other :: !Vouches(db, k, environment, other))
      && (Vouches(db, k, environment, id) ==>
            (found == Err(EvidenceIntegrityError) <==>
               supplied.Ok? && forall hash :: !KeptHash(parse, db.documents[id], hash)))
  {
    var supplied := FiscalForm.CanonicalHash(parse, payload);
    if supplied.Ok? && k in db.keys && db.keys[k].document.Some? {
      var other := db.keys[k].document.value;
      assert Associated(db, other, db.keys[k], k, environment) <==> Vouches(db, k, environment, other);
      if Vouches(db, k, environment, other) {
        var stored := FiscalForm.InputOfStored(db.documents[other].form);
        if stored.Ok? && FiscalForm.CanonicalHash(parse, stored.value).Ok? {
          assert KeptHash(parse, db.documents[other], FiscalForm.CanonicalHash(parse, stored.value).value);
        }
      }
    }
  }

  /** Whatever the rows are: a known key is refused for another request, replayed with its document, or in progress. */
  lemma KnownKeyOnAnyRows(db: Db, r: Request)
    requires KeyId(r.content.tenant, r.content.company, r.content.documentType, r.key) in db.keys
    ensures
      var row := db.keys[KeyId(r.content.tenant, r.content.company, r.content.documentType, r.key)];
      && (Resolve(db, r) == DifferentRequest <==> row.hash != Sha256(r.content))
      && (forall id: DocumentId :: Resolve(db, r) == Replayed(id) <==>
            row.hash == Sha256(r.content) && row.document == Some(id) && id in db.documents)
      && (Resolve(db, r) == InProgress <==>
            row.hash == Sha256(r.content) && forall id: DocumentId :: row.document == Some(id) ==> id !in db.documents)
  {
    var row := db.keys[KeyOf(r)];
    if row.document.Some? {
      assert row.document == Some(row.document.value);
    }
  }

  // -- Locks -------------------------------------------------------------------------------

  /** A transaction holds its key from its insert, and the sequence row from its allocation, until it ends. */
  lemma LocksFollowPhases(tx: Tx, k: KeyId, scope: Scope)
    ensures HoldsKey(tx, k) <==>
              && k == KeyId(tx.request.content.tenant, tx.request.content.company, tx.request.content.documentType,
                            tx.request.key)
              && (tx.phase == Reserved || tx.phase.Allocated? || tx.phase.Created?)
    ensures HoldsScope(tx, scope) <==>
              || (tx.phase.Allocated? && tx.phase.scope == scope)
              || (tx.phase.Created? && tx.phase.document.scope == scope)
  {}

  /** Rolling back gives up everything: no row is written and no lock is kept. */
  lemma AbortReleases(s: System, t: TxId, k: KeyId, scope: Scope)
    requires t in s.txs && !s.txs[t].phase.Ended?
    ensures
      var s' := Apply(s, Abort(t));
      && s'.db == s.db && s' == s.(txs := s'.txs) && t in s'.txs && s'.txs[t].phase == Ended(Rejected)
      && !HoldsKey(s'.txs[t], k) && !HoldsScope(s'.txs[t], scope)
  {}

  // -- Configuration -----------------------------------------------------------------------

  /** A sequence is set exactly if the value is a sequence value, nobody holds the row, and it has not started. */
  lemma ConfigurationDecides(s: System, scope: Scope, value: nat)
    ensures
      var s' := Apply(s, Configure(scope, value));
      if 1 <= value <= 9999999999 && (forall t :: t in s.txs ==> HeldScope(s.txs[t]) != Some(scope))
         && (scope in s.db.sequences ==> s.db.sequences[scope].last == None)
      then
        && s' == s.(db := s'.db) && s'.db == s.db.(sequences := s'.db.sequences)
        && s'.db.sequences == s.db.sequences[scope := Sequence(value, None, value)]
      else s' == s
  {}

  /** What the setup of a first value answers, alone: a new row, or one that is unstarted with the same value. */
  lemma LoneSetup(s: System, c: SetupId, scope: Scope, value: nat)
    requires c !in s.setups && 1 <= value <= 9999999999
    requires forall t :: t in s.txs ==> HeldScope(s.txs[t]) != Some(scope)
    ensures
      var s' := Apply(Apply(s, StartSetup(c, scope, value)), InsertSetup(c));
      && c in s'.setups && s'.txs == s.txs && s'.db.keys == s.db.keys && s'.db.documents == s.db.documents
      && if scope in s.db.sequences then
           && s'.db == s.db
           && s'.setups[c] == Setup(scope, value, Done(s.db.sequences[scope].last == None
                                                       && s.db.sequences[scope].next == value))
         else
           && s'.db.sequences == s.db.sequences[scope := Sequence(value, None, value)]
           && s'.setups[c] == Setup(scope, value, Done(true))
  {
    var begun := Apply(s, StartSetup(c, scope, value));
    assert begun.txs == s.txs && begun.db == s.db;
  }

  /** A setup that finds the row created by another looks again, and answers by what it finds. */
  lemma RacedSetup(s: System, c: SetupId)
    requires c in s.setups && s.setups[c].phase == Inserting && s.setups[c].scope in s.db.sequences
    requires forall t :: t in s.txs ==> HeldScope(s.txs[t]) != Some(s.setups[c].scope)
    ensures
      var s' := Apply(Apply(s, InsertSetup(c)), RelookSetup(c));
      var row, value := s.db.sequences[s.setups[c].scope], s.setups[c].value;
      s'.db == s.db && c in s'.setups && s'.setups[c].phase == Done(row.last == None && row.next == value)
  {
    var raced := Apply(s, InsertSetup(c));
    assert raced.db == s.db && raced.setups[c].phase == Raced;
  }

  /** Values that are no sequence values are never set up. */
  lemma InvalidSetup(s: System, c: SetupId, scope: Scope, value: nat)
    requires !(1 <= value <= 9999999999)
    ensures Apply(s, StartSetup(c, scope, value)) == s
  {}
}
