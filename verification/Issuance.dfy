/** Idempotent issuance: the main results over every run of the transactions. */
module Issuance {
  import opened Common
  import opened FiscalKey
  import opened IssuanceModel
  import opened IssuanceSafety
  import FiscalForm
  import CanonicalJson

  lemma InitIsOk()
    ensures Inv(Init())
  {}

  lemma Reached(steps: seq<Step>)
    ensures Inv(Run(Init(), steps))
  {
    InitIsOk();
    RunKeeps(Init(), steps);
  }

  // -- Idempotency -------------------------------------------------------------------------

  /** Each key has at most one committed document, and its reservation is completed and names it. */
  lemma OneDocumentPerKey(steps: seq<Step>, a: DocumentId, b: DocumentId)
    requires
      var db := Run(Init(), steps).db;
      a in db.documents && b in db.documents && KeyOfDocument(db.documents[a]) == KeyOfDocument(db.documents[b])
    ensures a == b
    ensures
      var db := Run(Init(), steps).db;
      var k := KeyOfDocument(db.documents[a]);
      k in db.keys && db.keys[k] == Reservation(db.documents[a].hash, true, Some(a))
  {
    Reached(steps);
    var s := Run(Init(), steps);
    assert DocumentOk(s.db, s.issued, a) && DocumentOk(s.db, s.issued, b);
    assert KeyOk(s.db, KeyOfDocument(s.db.documents[a]));
  }

  /** No transaction ever sees a reservation in progress. */
  lemma NobodySeesInProgress(steps: seq<Step>, t: TxId)
    requires t in Run(Init(), steps).txs
    ensures Run(Init(), steps).txs[t].phase != Ended(InProgress)
  {
    Reached(steps);
    var s := Run(Init(), steps);
    assert TxOk(s.db, t, s.txs[t]);
  }

  /** A replay got the document that was created for the same key from the same request. */
  lemma ReplaysReturnTheDocument(steps: seq<Step>, t: TxId)
    requires t in Run(Init(), steps).txs
    requires Run(Init(), steps).txs[t].phase.Ended? && Run(Init(), steps).txs[t].phase.outcome.Replayed?
    ensures
      var s := Run(Init(), steps);
      var id := s.txs[t].phase.outcome.document;
      && id in s.db.documents
      && KeyOfDocument(s.db.documents[id]) == KeyOf(s.txs[t].request)
      && s.db.documents[id].hash == HashOf(s.txs[t].request)
  {
    Reached(steps);
    var s := Run(Init(), steps);
    assert TxOk(s.db, t, s.txs[t]);
  }

  /** Only commits touch keys and documents; configuration touches sequences. */
  lemma OnlyCommitsWrite(s: System, step: Step)
    requires !step.Commit?
    ensures Apply(s, step).db.keys == s.db.keys && Apply(s, step).db.documents == s.db.documents
  {}

  lemma CommitKeepsRow(s: System, t: TxId, k: KeyId)
    requires TxsOk(s.db, s.txs) && k in s.db.keys
    ensures k in DoCommit(s, t).db.keys && DoCommit(s, t).db.keys[k] == s.db.keys[k]
  {
    if t in s.txs {
      assert TxOk(s.db, t, s.txs[t]);
    }
  }

  lemma KeyStays(s: System, step: Step, k: KeyId)
    requires TxsOk(s.db, s.txs) && k in s.db.keys
    ensures k in Apply(s, step).db.keys && Apply(s, step).db.keys[k] == s.db.keys[k]
  {
    if step.Commit? {
      CommitKeepsRow(s, step.t, k);
    } else {
      OnlyCommitsWrite(s, step);
    }
  }

  /** Once a key is committed, its row stays as it is. */
  lemma {:induction false} KeysStay(s: System, steps: seq<Step>, k: KeyId)
    requires Inv(s) && k in s.db.keys
    ensures k in Run(s, steps).db.keys && Run(s, steps).db.keys[k] == s.db.keys[k]
    decreases |steps|
  {
    if steps == [] {
    } else {
      StepKeeps(s, steps[0]);
      KeyStays(s, steps[0], k);
      KeysStay(Apply(s, steps[0]), steps[1..], k);
    }
  }

  /**
   With a committed key, every further request for it reads the row: the same request gets the
   document back, a different one is refused, and neither ever holds a sequence row or commits.
   */
  lemma CommittedKeyConsumesNothing(steps: seq<Step>, more: seq<Step>, k: KeyId, t: TxId)
    requires k in Run(Init(), steps).db.keys
    requires
      var later := Run(Run(Init(), steps), more);
      t in later.txs && KeyOf(later.txs[t].request) == k && later.txs[t].phase != Ended(Issued)
    ensures
      var row := Run(Init(), steps).db.keys[k];
      var later := Run(Run(Init(), steps), more);
      var tx := later.txs[t];
      && k in later.db.keys && later.db.keys[k] == row && row.completed && row.document.Some?
      && !Pending(tx) && HeldScope(tx) == None
      && Resolve(later.db, tx.request)
         == (if row.hash == HashOf(tx.request) then Replayed(row.document.value) else DifferentRequest)
  {
    Reached(steps);
    var s := Run(Init(), steps);
    KeysStay(s, more, k);
    RunKeeps(s, more);
    var later := Run(s, more);
    assert TxOk(later.db, t, later.txs[t]);
    assert KeyOk(later.db, k);
    ResolveIsSound(later.db, later.txs[t].request);
  }

  // -- Lookups -----------------------------------------------------------------------------

  /**
   The lookup by request hash finds the document of every committed key with that hash, exactly when
   it asks for the environment of the document; another environment is the only integrity error.
   */
  lemma LookupAgreesWithCreation(steps: seq<Step>, k: KeyId, environment: Environment, hash: RequestHash)
    ensures
      var db := Run(Init(), steps).db;
      var result := LookUpIdentity(db, k, environment, hash);
      if k !in db.keys || db.keys[k].hash != hash then result == Err(IdentityNotFound)
      else
        && db.keys[k].document.Some? && db.keys[k].document.value in db.documents
        && result ==
             if db.documents[db.keys[k].document.value].scope.environment == environment
             then Ok(db.keys[k].document.value) else Err(IntegrityError)
  {
    Reached(steps);
    var s := Run(Init(), steps);
    if k in s.db.keys {
      assert KeyOk(s.db, k);
    }
  }

  /** A caller whose hash covers the environment it asks for never meets an integrity error. */
  lemma ConsistentLookupHasNoIntegrityError(steps: seq<Step>, k: KeyId, request: Request)
    ensures
      LookUpIdentity(Run(Init(), steps).db, k, request.content.environment, HashOf(request)) != Err(IntegrityError)
  {
    Reached(steps);
    var s := Run(Init(), steps);
    LookupAgreesWithCreation(steps, k, request.content.environment, HashOf(request));
    if k in s.db.keys && s.db.keys[k].hash == HashOf(request) {
      assert KeyOk(s.db, k);
      assert DocumentOk(s.db, s.issued, s.db.keys[k].document.value);
    }
  }

  // -- Sequences ---------------------------------------------------------------------------

  /**
   Within a scope the committed values are exactly those from the first to the last assigned one,
   none above the limit, and a started row continues with the next.
   */
  lemma ValuesAreContiguous(steps: seq<Step>, scope: Scope, value: nat)
    ensures
      var s := Run(Init(), steps);
      && ((exists id ::
             id in s.db.documents && s.db.documents[id].scope == scope && s.db.documents[id].sequenceValue == value)
          <==> InRange(s.db, scope, value))
      && (scope in s.db.sequences && s.db.sequences[scope].last.Some? ==>
            && s.db.sequences[scope].next == s.db.sequences[scope].last.value + 1
            && 1 <= s.db.sequences[scope].first <= s.db.sequences[scope].last.value <= MAX_SEQUENCE)
  {
    Reached(steps);
    var s := Run(Init(), steps);
    assert (scope, value) in s.issued <==> InRange(s.db, scope, value);
    if (scope, value) in s.issued {
      assert LogOk(s.db, s.issued, (scope, value));
      var id := s.issued[(scope, value)];
      assert s.db.documents[id].scope == scope;
    }
    forall id | id in s.db.documents && s.db.documents[id].scope == scope && s.db.documents[id].sequenceValue == value
      ensures InRange(s.db, scope, value)
    {
      assert DocumentOk(s.db, s.issued, id);
    }
    if scope in s.db.sequences {
      assert SequenceOk(s.db.sequences[scope]);
    }
  }

  /** Two committed documents of one company and environment never share a consecutive. */
  lemma ConsecutivesAreUnique(steps: seq<Step>, a: DocumentId, b: DocumentId)
    requires
      var db := Run(Init(), steps).db;
      a in db.documents && b in db.documents && SameUniqueKey(db.documents[a], db.documents[b])
    ensures a == b
  {
    Reached(steps);
    var s := Run(Init(), steps);
    var d, e := s.db.documents[a], s.db.documents[b];
    assert DocumentOk(s.db, s.issued, a) && DocumentOk(s.db, s.issued, b);
    ConsecutiveIsInjective(
      d.scope.branch, d.scope.terminal, d.scope.documentType, d.sequenceValue,
      e.scope.branch, e.scope.terminal, e.scope.documentType, e.sequenceValue);
  }

  lemma ClashIsSameValue(db: Db, log: Log, e: DocumentId, d: Document)
    requires DocumentsOk(db, log) && e in db.documents && SameUniqueKey(db.documents[e], d)
    requires ConsecutiveOf(d.scope, d.sequenceValue) == Ok(d.consecutive)
    ensures (d.scope, d.sequenceValue) in log
  {
    assert DocumentOk(db, log, e);
    var c := db.documents[e];
    ConsecutiveIsInjective(
      c.scope.branch, c.scope.terminal, c.scope.documentType, c.sequenceValue,
      d.scope.branch, d.scope.terminal, d.scope.documentType, d.sequenceValue);
  }

  lemma NewValueDoesNotViolate(db: Db, log: Log, d: Document)
    requires DocumentsOk(db, log) && ValuesOk(db, log)
    requires d.sequenceValue == NextValue(db, d.scope) && ConsecutiveOf(d.scope, d.sequenceValue) == Ok(d.consecutive)
    ensures !Violates(db, d)
  {
    NextIsFree(db, log, d.scope);
    forall e | e in db.documents ensures !SameUniqueKey(db.documents[e], d) {
      if SameUniqueKey(db.documents[e], d) {
        ClashIsSameValue(db, log, e, d);
      }
    }
  }

  lemma AllocatedTx(db: Db, txs: map<TxId, Tx>, t: TxId)
    requires TxsOk(db, txs) && t in txs && txs[t].phase.Allocated?
    ensures AllocationOk(db, txs[t].request, txs[t].phase.scope, txs[t].phase.value)
  {
    assert TxOk(db, t, txs[t]);
  }

  /** The insert of a document never fails on the unique consecutive: an allocated value is always new. */
  lemma AllocatedConsecutiveIsNew(steps: seq<Step>, t: TxId, form: FiscalForm.StoredForm)
    requires t in Run(Init(), steps).txs && Run(Init(), steps).txs[t].phase.Allocated?
    requires FiscalForm.Stores(form, Run(Init(), steps).txs[t].request.content.payload)
    ensures Apply(Run(Init(), steps), Create(t, form)).txs[t].phase.Created?
  {
    Reached(steps);
    var s := Run(Init(), steps);
    var tx := s.txs[t];
    AllocatedTx(s.db, s.txs, t);
    var consecutive := ConsecutiveOf(tx.phase.scope, tx.phase.value).value;
    NewValueDoesNotViolate(s.db, s.issued, DocumentFor(tx.request, tx.phase.scope, tx.phase.value, consecutive, form));
  }

  predicate AdvancesBy(q: Sequence, after: Sequence, commit: bool) {
    after == q || (commit && after == Sequence(q.next + 1, Some(q.next), q.first))
  }

  lemma CommitAdvances(s: System, t: TxId, scope: Scope)
    requires TxsOk(s.db, s.txs) && scope in s.db.sequences && s.db.sequences[scope].last.Some?
    ensures scope in DoCommit(s, t).db.sequences
    ensures AdvancesBy(s.db.sequences[scope], DoCommit(s, t).db.sequences[scope], true)
  {
    if t in s.txs {
      assert TxOk(s.db, t, s.txs[t]);
    }
  }

  lemma OthersLeaveStartedRows(s: System, step: Step, scope: Scope)
    requires !step.Commit? && scope in s.db.sequences && s.db.sequences[scope].last.Some?
    ensures scope in Apply(s, step).db.sequences && Apply(s, step).db.sequences[scope] == s.db.sequences[scope]
  {}

  /** A started row is changed by commits only, which move it on by one. */
  lemma StartedRowsOnlyAdvance(steps: seq<Step>, step: Step, scope: Scope)
    requires
      var db := Run(Init(), steps).db;
      scope in db.sequences && db.sequences[scope].last.Some?
    ensures
      var s := Run(Init(), steps);
      && scope in Apply(s, step).db.sequences
      && AdvancesBy(s.db.sequences[scope], Apply(s, step).db.sequences[scope], step.Commit?)
  {
    Reached(steps);
    match step
    case Commit(t) => CommitAdvances(Run(Init(), steps), t, scope);
    case _ => OthersLeaveStartedRows(Run(Init(), steps), step, scope);
  }

  predicate Accepted(s: System, c: SetupId) {
    c in s.setups && s.setups[c].phase == Done(true)
  }

  /** The setup found, or made, an unstarted row that starts at its value, and changed no row that was there. */
  predicate StartsThere(s: System, s': System, u: Setup) {
    && u.scope in s'.db.sequences
    && s'.db.sequences[u.scope].last.None? && s'.db.sequences[u.scope].next == u.value
    && (u.scope in s.db.sequences ==> s'.db == s.db)
  }

  lemma AcceptanceStartsThere(s: System, step: Step, c: SetupId)
    requires !Accepted(s, c) && Accepted(Apply(s, step), c)
    ensures StartsThere(s, Apply(s, step), Apply(s, step).setups[c])
  {}

  lemma AcceptanceStays(s: System, step: Step, c: SetupId)
    requires Accepted(s, c)
    ensures Accepted(Apply(s, step), c) && Apply(s, step).setups[c] == s.setups[c]
  {}

  predicate Configures(step: Step, scope: Scope) {
    step.Configure? && step.scope == scope
  }

  /** Rows keep their first value, unless they are configured. */
  lemma FirstStays(s: System, step: Step, scope: Scope)
    requires scope in s.db.sequences && !Configures(step, scope)
    ensures scope in Apply(s, step).db.sequences
    ensures Apply(s, step).db.sequences[scope].first == s.db.sequences[scope].first
  {}

  /** At step n of a run a setup was accepted. */
  ghost predicate AcceptedAt(steps: seq<Step>, n: nat, c: SetupId, u: Setup)
    requires n < |steps|
  {
    var s := Run(Init(), steps[..n]);
    !Accepted(s, c) && Accepted(Apply(s, steps[n]), c) && StartsThere(s, Apply(s, steps[n]), u)
  }

  lemma NeverConfiguredStartsThere(s: System, step: Step, c: SetupId, u: Setup)
    requires Accepted(Apply(s, step), c) && Apply(s, step).setups[c] == u && !Configures(step, u.scope)
    requires Inv(Apply(s, step))
    requires Accepted(s, c) ==> u.scope in s.db.sequences && s.db.sequences[u.scope].first == u.value
    ensures u.scope in Apply(s, step).db.sequences && Apply(s, step).db.sequences[u.scope].first == u.value
  {
    if Accepted(s, c) {
      FirstStays(s, step, u.scope);
    } else {
      AcceptanceStartsThere(s, step, c);
      assert SequenceOk(Apply(s, step).db.sequences[u.scope]);
    }
  }

  /**
   An initial configuration that answers success, at once or after a race, did so at a moment when the
   row was unstarted and started at the requested value; and unless the row is configured by the other
   way, its values start there.
   */
  lemma {:induction false} AcceptedSetupStartsThere(steps: seq<Step>, c: SetupId)
    requires Accepted(Run(Init(), steps), c)
    ensures exists n :: 0 <= n < |steps| && AcceptedAt(steps, n, c, Run(Init(), steps).setups[c])
    ensures
      var s := Run(Init(), steps);
      var u := s.setups[c];
      (forall i :: 0 <= i < |steps| ==> !Configures(steps[i], u.scope)) ==>
        u.scope in s.db.sequences && s.db.sequences[u.scope].first == u.value
    decreases |steps|
  {
    if steps == [] {
      assert false;
    } else {
      var n := |steps| - 1;
      var before := Run(Init(), steps[..n]);
      RunLast(Init(), steps);
      Reached(steps);
      var u := Run(Init(), steps).setups[c];
      if Accepted(before, c) {
        AcceptanceStays(before, steps[n], c);
        AcceptedSetupStartsThere(steps[..n], c);
        var i :| 0 <= i < n && AcceptedAt(steps[..n], i, c, u);
        assert steps[..n][..i] == steps[..i];
        assert AcceptedAt(steps, i, c, u);
      } else {
        AcceptanceStartsThere(before, steps[n], c);
        assert AcceptedAt(steps, n, c, u);
      }
      if forall i :: 0 <= i < |steps| ==> !Configures(steps[i], u.scope) {
        NeverConfiguredStartsThere(before, steps[n], c, u);
      }
    }
  }

  // -- Evidence ----------------------------------------------------------------------------

  /** Documents and their transactions come from proper payloads, stored as the database stores them. */
  ghost predicate FormOk(content: Content, form: FiscalForm.StoredForm) {
    FiscalForm.ProperInput(content.payload) && FiscalForm.Stores(form, content.payload)
  }

  ghost predicate TxForm(tx: Tx) {
    && FiscalForm.ProperInput(tx.request.content.payload)
    && (tx.phase.Created? ==>
        FormOk(tx.request.content, tx.phase.document.form) && tx.phase.document.hash == HashOf(tx.request))
  }

  ghost predicate FormsOk(s: System) {
    && (forall t :: t in s.txs ==> TxForm(s.txs[t]))
    && (forall id :: id in s.db.documents ==> FormOk(s.db.documents[id].hash.content, s.db.documents[id].form))
  }

  /** At most one transaction moved, with the same request, and not into Created. */
  predicate SameRequests(s: System, s': System, t: TxId) {
    && s'.db.documents == s.db.documents
    && (s'.txs == s.txs
        || (t in s.txs && t in s'.txs && s'.txs == s.txs[t := s'.txs[t]]
            && s'.txs[t].request == s.txs[t].request && !s'.txs[t].phase.Created?))
  }

  lemma SameRequestsKeepForms(s: System, s': System, t: TxId)
    requires FormsOk(s) && SameRequests(s, s', t)
    ensures FormsOk(s')
  {
    if t in s.txs {
      assert TxForm(s.txs[t]);
    }
  }

  lemma MostStepsKeepRequests(s: System, step: Step, t: TxId)
    requires step in {Look(t), Insert(t), Relook(t), Abort(t)} || (step.Allocate? && step.t == t)
    ensures SameRequests(s, Apply(s, step), t)
  {}

  lemma SetupsKeepRequests(s: System, step: Step)
    requires step.Configure? || step.StartSetup? || step.InsertSetup? || step.RelookSetup?
    ensures SameRequests(s, Apply(s, step), 0)
  {}

  lemma BeginKeepsForms(s: System, t: TxId, request: Request)
    requires FormsOk(s)
    ensures FormsOk(DoBegin(s, t, request))
  {}

  lemma CreateKeepsForms(s: System, t: TxId, form: FiscalForm.StoredForm)
    requires FormsOk(s)
    ensures FormsOk(DoCreate(s, t, form))
  {
    if DoCreate(s, t, form) != s {
      assert TxForm(s.txs[t]);
    }
  }

  lemma CommitKeepsForms(s: System, t: TxId)
    requires FormsOk(s)
    ensures FormsOk(DoCommit(s, t))
  {
    if t in s.txs && s.txs[t].phase.Created? {
      assert TxForm(s.txs[t]);
    }
  }

  lemma StepKeepsForms(s: System, step: Step)
    requires FormsOk(s)
    ensures FormsOk(Apply(s, step))
  {
    if step.Begin? {
      BeginKeepsForms(s, step.t, step.request);
    } else if step.Create? {
      CreateKeepsForms(s, step.t, step.form);
    } else if step.Commit? {
      CommitKeepsForms(s, step.t);
    } else if step.Configure? || step.StartSetup? || step.InsertSetup? || step.RelookSetup? {
      SetupsKeepRequests(s, step);
      SameRequestsKeepForms(s, Apply(s, step), 0);
    } else {
      MostStepsKeepRequests(s, step, step.t);
      SameRequestsKeepForms(s, Apply(s, step), step.t);
    }
  }

  lemma {:induction false} RunKeepsForms(s: System, steps: seq<Step>)
    requires FormsOk(s)
    ensures FormsOk(Run(s, steps))
    decreases |steps|
  {
    if steps == [] {
    } else {
      StepKeepsForms(s, steps[0]);
      RunKeepsForms(Apply(s, steps[0]), steps[1..]);
    }
  }

  lemma EvidenceOfDocument(
    parse: CanonicalJson.JsString -> Option<CanonicalJson.JsString>, db: Db, id: DocumentId, supplied: FiscalForm.Input)
    requires id in db.documents && FiscalForm.ProperInput(supplied)
    requires
      var d := db.documents[id];
      var k := KeyOfDocument(d);
      && k in db.keys && db.keys[k].document == Some(id) && Associated(db, id, db.keys[k], k, d.scope.environment)
      && FormOk(d.hash.content, d.form)
      && FiscalForm.CanonicalHash(parse, d.hash.content.payload).Ok? && FiscalForm.CanonicalHash(parse, supplied).Ok?
    ensures
      var d := db.documents[id];
      LookUpEvidence(parse, db, KeyOfDocument(d), d.scope.environment, supplied) ==
        if FiscalForm.CanonicalHash(parse, supplied) == FiscalForm.CanonicalHash(parse, d.hash.content.payload)
        then Ok(id) else Err(IdentityNotFound)
  {
    var d := db.documents[id];
    FiscalForm.StoredFormAgrees(parse, d.form, d.hash.content.payload);
  }

  lemma DocumentIsAssociated(s: System, id: DocumentId)
    requires DbOk(s.db, s.issued) && id in s.db.documents
    ensures
      var k := KeyOfDocument(s.db.documents[id]);
      && k in s.db.keys && s.db.keys[k].document == Some(id)
      && Associated(s.db, id, s.db.keys[k], k, s.db.documents[id].scope.environment)
  {
    assert DocumentOk(s.db, s.issued, id);
    assert KeyOk(s.db, KeyOfDocument(s.db.documents[id]));
  }

  /**
   The lookup by payload finds the document of a key exactly when the supplied payload has the
   normal form of the payload the document was created from, whenever that has a canonical form.
   */
  lemma EvidenceLookupAgrees(
    parse: CanonicalJson.JsString -> Option<CanonicalJson.JsString>, steps: seq<Step>, id: DocumentId,
    supplied: FiscalForm.Input)
    requires id in Run(Init(), steps).db.documents && FiscalForm.ProperInput(supplied)
    requires
      var created := Run(Init(), steps).db.documents[id].hash.content.payload;
      FiscalForm.CanonicalHash(parse, created).Ok? && FiscalForm.CanonicalHash(parse, supplied).Ok?
    ensures
      var db := Run(Init(), steps).db;
      var d := db.documents[id];
      LookUpEvidence(parse, db, KeyOfDocument(d), d.scope.environment, supplied) ==
        if FiscalForm.NormalFormOf(parse, supplied) == FiscalForm.NormalFormOf(parse, d.hash.content.payload)
        then Ok(id) else Err(IdentityNotFound)
  {
    Reached(steps);
    RunKeepsForms(Init(), steps);
    var s := Run(Init(), steps);
    var d := s.db.documents[id];
    DocumentIsAssociated(s, id);
    assert FormOk(d.hash.content, d.form);
    EvidenceOfDocument(parse, s.db, id, supplied);
    FiscalForm.HashesAgreeExactlyWithNormalForms(parse, supplied, d.hash.content.payload);
  }
}
