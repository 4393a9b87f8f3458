/** What every run of the issuing transactions keeps. */
module IssuanceSafety {
  import opened Common
  import opened FiscalKey
  import opened IssuanceModel
  import FiscalForm

  // -- The invariant -----------------------------------------------------------------------

  type Log = map<(Scope, nat), DocumentId>

  /** A committed reservation is completed, and names the document that was created for it. */
  predicate KeyOk(db: Db, k: KeyId)
    requires k in db.keys
  {
    var r := db.keys[k];
    && r.completed && r.document.Some? && r.document.value in db.documents
    && var d := db.documents[r.document.value];
    && KeyOfDocument(d) == k && d.hash == r.hash
  }

  /** A committed document is named by the reservation of its key, and is in the log under its value. */
  predicate DocumentOk(db: Db, log: Log, id: DocumentId)
    requires id in db.documents
  {
    var d := db.documents[id];
    && KeyOfDocument(d) in db.keys && db.keys[KeyOfDocument(d)].document == Some(id)
    && (d.scope, d.sequenceValue) in log && log[(d.scope, d.sequenceValue)] == id
    && ConsecutiveOf(d.scope, d.sequenceValue) == Ok(d.consecutive)
    && d.scope == ScopeOf(Request(d.hash.content, d.key), d.scope.branch, d.scope.terminal)
  }

  predicate LogOk(db: Db, log: Log, entry: (Scope, nat))
    requires entry in log
  {
    var id := log[entry];
    id in db.documents && db.documents[id].scope == entry.0 && db.documents[id].sequenceValue == entry.1
  }

  predicate InRange(db: Db, scope: Scope, value: nat) {
    && scope in db.sequences && db.sequences[scope].last.Some?
    && db.sequences[scope].first <= value <= db.sequences[scope].last.value
  }

  predicate SequenceOk(q: Sequence) {
    && 1 <= q.first
    && match q.last
       case None => q.next == q.first <= MAX_SEQUENCE
       case Some(last) => q.next == last + 1 && q.first <= last <= MAX_SEQUENCE
  }

  ghost predicate KeysOk(db: Db) {
    forall k :: k in db.keys ==> KeyOk(db, k)
  }

  ghost predicate DocumentsOk(db: Db, log: Log) {
    forall id :: id in db.documents ==> DocumentOk(db, log, id)
  }

  /** The values issued in a scope are those from the first to the last assigned one. */
  ghost predicate ValuesOk(db: Db, log: Log) {
    && (forall entry :: entry in log ==> LogOk(db, log, entry))
    && (forall scope: Scope, value: nat :: (scope, value) in log <==> InRange(db, scope, value))
    && (forall scope :: scope in db.sequences ==> SequenceOk(db.sequences[scope]))
  }

  ghost predicate DbOk(db: Db, log: Log) {
    KeysOk(db) && DocumentsOk(db, log) && ValuesOk(db, log)
  }

  predicate Pending(tx: Tx) {
    tx.phase.Reserved? || tx.phase.Allocated? || tx.phase.Created?
  }

  predicate AllocationOk(db: Db, r: Request, scope: Scope, value: nat) {
    && scope == ScopeOf(r, scope.branch, scope.terminal)
    && value == NextValue(db, scope) && 1 <= value <= MAX_SEQUENCE
    && ConsecutiveOf(scope, value).Ok?
  }

  predicate ReplayOk(db: Db, r: Request, id: DocumentId) {
    && id in db.documents && KeyOfDocument(db.documents[id]) == KeyOf(r)
    && db.documents[id].hash == HashOf(r)
  }

  /** What a transaction knows about the committed state. */
  predicate TxOk(db: Db, t: TxId, tx: Tx) {
    && (Pending(tx) ==> KeyOf(tx.request) !in db.keys)
    && (tx.phase.Conflicted? ==> KeyOf(tx.request) in db.keys)
    && (!tx.phase.Ended? ==> t !in db.documents)
    && match tx.phase
       case Allocated(scope, value) => AllocationOk(db, tx.request, scope, value)
       case Created(d) =>
         && AllocationOk(db, tx.request, d.scope, d.sequenceValue)
         && ConsecutiveOf(d.scope, d.sequenceValue) == Ok(d.consecutive)
         && d.key == tx.request.key && d.hash == HashOf(tx.request)
       case Ended(outcome) => outcome != InProgress
                                 && (outcome.Replayed? ==> ReplayOk(db, tx.request, outcome.document))
       case _ => true
  }

  /** Two live transactions never hold the same key, or the same sequence row. */
  predicate Apart(a: Tx, b: Tx) {
    && (Pending(a) && Pending(b) ==> KeyOf(a.request) != KeyOf(b.request))
    && (HeldScope(a).Some? ==> HeldScope(a) != HeldScope(b))
  }

  ghost predicate AllApart(txs: map<TxId, Tx>) {
    forall t, u :: t in txs && u in txs && t != u ==> Apart(txs[t], txs[u])
  }

  ghost predicate TxsOk(db: Db, txs: map<TxId, Tx>) {
    forall t :: t in txs ==> TxOk(db, t, txs[t])
  }

  ghost predicate SetupsOk(setups: map<SetupId, Setup>) {
    forall c :: c in setups ==> ValidStart(setups[c].value)
  }

  ghost predicate Coherent(db: Db, txs: map<TxId, Tx>) {
    TxsOk(db, txs) && AllApart(txs)
  }

  ghost predicate Inv(s: System) {
    DbOk(s.db, s.issued) && Coherent(s.db, s.txs) && SetupsOk(s.setups)
  }

  // -- Steps inside a transaction ----------------------------------------------------------

  lemma OneMoves(txs: map<TxId, Tx>, t: TxId, tx: Tx)
    requires AllApart(txs)
    requires forall u :: u in txs && u != t ==> Apart(tx, txs[u])
    ensures AllApart(txs[t := tx])
  {
    var txs' := txs[t := tx];
    forall u, v | u in txs' && v in txs' && u != v ensures Apart(txs'[u], txs'[v]) {
      if u == t {
        assert Apart(tx, txs[v]);
      } else if v == t {
        assert Apart(tx, txs[u]);
      } else {
        assert Apart(txs[u], txs[v]);
      }
    }
  }

  /** A step that changes one transaction and nothing that is committed. */
  ghost predicate Private(s: System, s': System) {
    s' == s.(txs := s'.txs) && Coherent(s.db, s'.txs)
  }

  lemma PrivateStepKeeps(s: System, t: TxId, tx: Tx)
    requires Coherent(s.db, s.txs) && TxOk(s.db, t, tx)
    requires forall u :: u in s.txs && u != t ==> Apart(tx, s.txs[u])
    ensures Private(s, s.(txs := s.txs[t := tx]))
  {
    OneMoves(s.txs, t, tx);
  }

  /** The new phase holds nothing. */
  lemma QuietStepKeeps(s: System, t: TxId, phase: Phase)
    requires Coherent(s.db, s.txs) && t in s.txs && TxOk(s.db, t, s.txs[t].(phase := phase))
    requires phase.Missing? || phase.Conflicted? || phase.Ended?
    ensures Private(s, SetPhase(s, t, phase))
  {
    PrivateStepKeeps(s, t, s.txs[t].(phase := phase));
  }

  lemma BeginKeeps(s: System, t: TxId, request: Request)
    requires Coherent(s.db, s.txs)
    ensures Private(s, DoBegin(s, t, request))
  {
    if DoBegin(s, t, request) != s {
      PrivateStepKeeps(s, t, Tx(request, Begun));
    }
  }

  lemma ResolveIsSound(db: Db, r: Request)
    requires KeysOk(db) && KeyOf(r) in db.keys
    ensures db.keys[KeyOf(r)].document.Some?
    ensures Resolve(db, r) ==
      if db.keys[KeyOf(r)].hash != HashOf(r) then DifferentRequest
      else Replayed(db.keys[KeyOf(r)].document.value)
    ensures Resolve(db, r).Replayed? ==> ReplayOk(db, r, Resolve(db, r).document)
  {
    assert KeyOk(db, KeyOf(r));
  }

  lemma ResolvedStepKeeps(s: System, t: TxId)
    requires KeysOk(s.db) && Coherent(s.db, s.txs) && t in s.txs && KeyOf(s.txs[t].request) in s.db.keys
    ensures Private(s, SetPhase(s, t, Ended(Resolve(s.db, s.txs[t].request))))
  {
    ResolveIsSound(s.db, s.txs[t].request);
    QuietStepKeeps(s, t, Ended(Resolve(s.db, s.txs[t].request)));
  }

  lemma LookKeeps(s: System, t: TxId)
    requires KeysOk(s.db) && Coherent(s.db, s.txs)
    ensures Private(s, DoLook(s, t))
  {
    if At(s, t, Begun) {
      assert TxOk(s.db, t, s.txs[t]);
      if KeyOf(s.txs[t].request) in s.db.keys {
        ResolvedStepKeeps(s, t);
      } else {
        QuietStepKeeps(s, t, Missing);
      }
    }
  }

  lemma RelookKeeps(s: System, t: TxId)
    requires KeysOk(s.db) && Coherent(s.db, s.txs)
    ensures Private(s, DoRelook(s, t))
  {
    if At(s, t, Conflicted) {
      assert TxOk(s.db, t, s.txs[t]);
      ResolvedStepKeeps(s, t);
    }
  }

  lemma InsertKeeps(s: System, t: TxId)
    requires Coherent(s.db, s.txs)
    ensures Private(s, DoInsert(s, t))
  {
    if At(s, t, Missing) {
      assert TxOk(s.db, t, s.txs[t]);
      var k := KeyOf(s.txs[t].request);
      if k in s.db.keys {
        QuietStepKeeps(s, t, Conflicted);
      } else if !KeyLocked(s, k) {
        var tx := s.txs[t].(phase := Reserved);
        forall u | u in s.txs && u != t ensures Apart(tx, s.txs[u]) {
          assert !HoldsKey(s.txs[u], k);
        }
        PrivateStepKeeps(s, t, tx);
      }
    }
  }

  lemma NextIsFree(db: Db, log: Log, scope: Scope)
    requires ValuesOk(db, log)
    ensures 1 <= NextValue(db, scope) && (scope, NextValue(db, scope)) !in log
  {
    assert (scope, NextValue(db, scope)) in log <==> InRange(db, scope, NextValue(db, scope));
    if scope in db.sequences {
      assert SequenceOk(db.sequences[scope]);
    }
  }

  lemma AllocatedStepKeeps(s: System, t: TxId, scope: Scope, value: nat)
    requires Coherent(s.db, s.txs) && At(s, t, Reserved) && !ScopeLocked(s, scope)
    requires AllocationOk(s.db, s.txs[t].request, scope, value)
    ensures Private(s, SetPhase(s, t, Allocated(scope, value)))
  {
    assert TxOk(s.db, t, s.txs[t]);
    var tx := s.txs[t].(phase := Allocated(scope, value));
    forall u | u in s.txs && u != t ensures Apart(tx, s.txs[u]) {
      assert Apart(s.txs[t], s.txs[u]) && !HoldsScope(s.txs[u], scope);
    }
    PrivateStepKeeps(s, t, tx);
  }

  lemma AllocateKeeps(s: System, t: TxId, branch: string, terminal: string)
    requires ValuesOk(s.db, s.issued) && Coherent(s.db, s.txs)
    ensures Private(s, DoAllocate(s, t, branch, terminal))
  {
    if At(s, t, Reserved) {
      assert TxOk(s.db, t, s.txs[t]);
      var scope := ScopeOf(s.txs[t].request, branch, terminal);
      var value := NextValue(s.db, scope);
      NextIsFree(s.db, s.issued, scope);
      if !ScopeLocked(s, scope) {
        if value > MAX_SEQUENCE {
          QuietStepKeeps(s, t, Ended(Exhausted));
        } else if ConsecutiveOf(scope, value).Err? {
          QuietStepKeeps(s, t, Ended(Rejected));
        } else {
          AllocatedStepKeeps(s, t, scope, value);
        }
      }
    }
  }

  lemma CreateKeeps(s: System, t: TxId, form: FiscalForm.StoredForm)
    requires Coherent(s.db, s.txs)
    ensures Private(s, DoCreate(s, t, form))
  {
    var s' := DoCreate(s, t, form);
    if s' != s {
      assert TxOk(s.db, t, s.txs[t]);
      var tx := s'.txs[t];
      forall u | u in s.txs && u != t ensures Apart(tx, s.txs[u]) {
        assert Apart(s.txs[t], s.txs[u]);
      }
      PrivateStepKeeps(s, t, tx);
    }
  }

  lemma AbortKeeps(s: System, t: TxId)
    requires Coherent(s.db, s.txs)
    ensures Private(s, DoAbort(s, t))
  {
    if DoAbort(s, t) != s {
      assert TxOk(s.db, t, s.txs[t]);
      QuietStepKeeps(s, t, Ended(Rejected));
    }
  }

  // -- Commit ------------------------------------------------------------------------------

  /** What a commit adds: a new key, a new document and the next value of its scope. */
  predicate Commits(db: Db, t: TxId, r: Request, d: Document) {
    && KeyOf(r) !in db.keys && t !in db.documents
    && AllocationOk(db, r, d.scope, d.sequenceValue)
    && ConsecutiveOf(d.scope, d.sequenceValue) == Ok(d.consecutive)
    && d.key == r.key && d.hash == HashOf(r)
  }

  function Logged(log: Log, t: TxId, d: Document): Log {
    log[(d.scope, d.sequenceValue) := t]
  }

  lemma CommitKeepsKeys(db: Db, t: TxId, r: Request, d: Document)
    requires KeysOk(db) && Commits(db, t, r, d)
    ensures KeysOk(Committed(db, t, r, d))
  {
    var db' := Committed(db, t, r, d);
    forall k | k in db'.keys ensures KeyOk(db', k) {
      if k != KeyOf(r) {
        assert KeyOk(db, k);
      }
    }
  }

  lemma CommitKeepsDocument(db: Db, log: Log, t: TxId, r: Request, d: Document, id: DocumentId)
    requires DocumentsOk(db, log) && ValuesOk(db, log) && Commits(db, t, r, d) && id in Committed(db, t, r, d).documents
    ensures DocumentOk(Committed(db, t, r, d), Logged(log, t, d), id)
  {
    NextIsFree(db, log, d.scope);
    if id != t {
      assert DocumentOk(db, log, id);
    }
  }

  lemma CommitExtendsRange(db: Db, log: Log, t: TxId, r: Request, d: Document, scope: Scope, value: nat)
    requires ValuesOk(db, log) && Commits(db, t, r, d)
    ensures (scope, value) in Logged(log, t, d) <==> InRange(Committed(db, t, r, d), scope, value)
  {
    assert (scope, value) in log <==> InRange(db, scope, value);
    if d.scope in db.sequences {
      assert SequenceOk(db.sequences[d.scope]);
    }
  }

  lemma CommitKeepsValues(db: Db, log: Log, t: TxId, r: Request, d: Document)
    requires ValuesOk(db, log) && Commits(db, t, r, d)
    ensures ValuesOk(Committed(db, t, r, d), Logged(log, t, d))
  {
    var db', log' := Committed(db, t, r, d), Logged(log, t, d);
    forall entry | entry in log' ensures LogOk(db', log', entry) {
      if entry != (d.scope, d.sequenceValue) {
        assert LogOk(db, log, entry);
      }
    }
    forall scope: Scope, value: nat ensures (scope, value) in log' <==> InRange(db', scope, value) {
      CommitExtendsRange(db, log, t, r, d, scope, value);
    }
    if d.scope in db.sequences {
      assert SequenceOk(db.sequences[d.scope]);
    }
  }

  lemma CommitKeepsOther(db: Db, t: TxId, r: Request, d: Document, u: TxId, other: Tx)
    requires Commits(db, t, r, d) && TxOk(db, u, other) && u != t
    requires Pending(other) ==> KeyOf(other.request) != KeyOf(r)
    requires HeldScope(other) != Some(d.scope)
    ensures TxOk(Committed(db, t, r, d), u, other)
  {}

  lemma CommitKeepsTxs(db: Db, txs: map<TxId, Tx>, t: TxId)
    requires Coherent(db, txs) && t in txs && txs[t].phase.Created?
    ensures Commits(db, t, txs[t].request, txs[t].phase.document)
    ensures TxsOk(Committed(db, t, txs[t].request, txs[t].phase.document), txs[t := txs[t].(phase := Ended(Issued))])
  {
    var r, d := txs[t].request, txs[t].phase.document;
    assert TxOk(db, t, txs[t]);
    assert Commits(db, t, r, d);
    forall u | u in txs && u != t ensures TxOk(Committed(db, t, r, d), u, txs[u]) {
      assert TxOk(db, u, txs[u]) && Apart(txs[t], txs[u]);
      CommitKeepsOther(db, t, r, d, u, txs[u]);
    }
  }

  lemma CommitKeepsDb(db: Db, log: Log, t: TxId, r: Request, d: Document)
    requires DbOk(db, log) && Commits(db, t, r, d)
    ensures DbOk(Committed(db, t, r, d), Logged(log, t, d))
  {
    CommitKeepsKeys(db, t, r, d);
    CommitKeepsValues(db, log, t, r, d);
    forall id | id in Committed(db, t, r, d).documents
      ensures DocumentOk(Committed(db, t, r, d), Logged(log, t, d), id)
    {
      CommitKeepsDocument(db, log, t, r, d, id);
    }
  }

  lemma EndingKeepsApart(txs: map<TxId, Tx>, t: TxId)
    requires AllApart(txs) && t in txs
    ensures AllApart(txs[t := txs[t].(phase := Ended(Issued))])
  {
    OneMoves(txs, t, txs[t].(phase := Ended(Issued)));
  }

  lemma CommitKeepsAll(db: Db, log: Log, txs: map<TxId, Tx>, t: TxId)
    requires DbOk(db, log) && Coherent(db, txs) && t in txs && txs[t].phase.Created?
    ensures DbOk(Committed(db, t, txs[t].request, txs[t].phase.document), Logged(log, t, txs[t].phase.document))
    ensures Coherent(Committed(db, t, txs[t].request, txs[t].phase.document), txs[t := txs[t].(phase := Ended(Issued))])
  {
    CommitKeepsTxs(db, txs, t);
    CommitKeepsDb(db, log, t, txs[t].request, txs[t].phase.document);
    EndingKeepsApart(txs, t);
  }

  lemma CommitKeeps(s: System, t: TxId)
    requires Inv(s)
    ensures Inv(DoCommit(s, t))
  {
    if t in s.txs && s.txs[t].phase.Created? {
      CommitKeepsAll(s.db, s.issued, s.txs, t);
    }
  }

  // -- Configuration -----------------------------------------------------------------------

  function Configured(db: Db, scope: Scope, q: Sequence): Db {
    db.(sequences := db.sequences[scope := q])
  }

  lemma NewSequenceKeepsValues(db: Db, log: Log, scope: Scope, q: Sequence)
    requires ValuesOk(db, log) && SequenceOk(q) && q.last.None?
    requires scope in db.sequences ==> db.sequences[scope].last.None?
    ensures ValuesOk(Configured(db, scope, q), log)
  {
    var db' := Configured(db, scope, q);
    forall entry | entry in log ensures LogOk(db', log, entry) {
      assert LogOk(db, log, entry);
    }
    forall c: Scope, v: nat ensures (c, v) in log <==> InRange(db', c, v) {
      assert (c, v) in log <==> InRange(db, c, v);
    }
  }

  lemma NewSequenceKeepsRows(db: Db, log: Log, scope: Scope, q: Sequence)
    requires KeysOk(db) && DocumentsOk(db, log)
    ensures KeysOk(Configured(db, scope, q)) && DocumentsOk(Configured(db, scope, q), log)
  {
    var db' := Configured(db, scope, q);
    forall k | k in db'.keys ensures KeyOk(db', k) {
      assert KeyOk(db, k);
    }
    forall id | id in db'.documents ensures DocumentOk(db', log, id) {
      assert DocumentOk(db, log, id);
    }
  }

  lemma NewSequenceKeepsDb(db: Db, log: Log, scope: Scope, q: Sequence)
    requires DbOk(db, log) && SequenceOk(q) && q.last.None?
    requires scope in db.sequences ==> db.sequences[scope].last.None?
    ensures DbOk(Configured(db, scope, q), log)
  {
    NewSequenceKeepsValues(db, log, scope, q);
    NewSequenceKeepsRows(db, log, scope, q);
  }

  /** A row that has issued nothing may be created or changed while nobody holds it. */
  lemma NewSequenceKeeps(s: System, scope: Scope, value: nat)
    requires Inv(s) && ValidStart(value) && !ScopeLocked(s, scope)
    requires scope in s.db.sequences ==> s.db.sequences[scope].last.None?
    ensures Inv(WithSequence(s, scope, value))
  {
    var s' := WithSequence(s, scope, value);
    NewSequenceKeepsDb(s.db, s.issued, scope, Sequence(value, None, value));
    forall u | u in s'.txs ensures TxOk(s'.db, u, s'.txs[u]) {
      assert TxOk(s.db, u, s.txs[u]) && !HoldsScope(s.txs[u], scope);
    }
  }

  lemma ConfigureKeeps(s: System, scope: Scope, value: nat)
    requires Inv(s)
    ensures Inv(DoConfigure(s, scope, value))
  {
    if DoConfigure(s, scope, value) != s {
      NewSequenceKeeps(s, scope, value);
    }
  }

  lemma SetupStepKeeps(s: System, c: SetupId, u: Setup)
    requires Inv(s) && ValidStart(u.value)
    ensures Inv(s.(setups := s.setups[c := u]))
  {}

  lemma InsertSetupKeeps(s: System, c: SetupId)
    requires Inv(s)
    ensures Inv(DoInsertSetup(s, c))
  {
    var s' := DoInsertSetup(s, c);
    if s' != s {
      var u := s.setups[c];
      if u.scope in s.db.sequences {
        SetupStepKeeps(s, c, s'.setups[c]);
      } else {
        NewSequenceKeeps(s, u.scope, u.value);
        SetupStepKeeps(WithSequence(s, u.scope, u.value), c, s'.setups[c]);
      }
    }
  }

  lemma OtherSetupKeeps(s: System, s': System, c: SetupId)
    requires Inv(s)
    requires
      || s' == s
      || (c in s'.setups && s' == s.(setups := s.setups[c := s'.setups[c]]) && ValidStart(s'.setups[c].value))
    ensures Inv(s')
  {
    if s' != s {
      SetupStepKeeps(s, c, s'.setups[c]);
    }
  }

  lemma StepKeeps(s: System, step: Step)
    requires Inv(s)
    ensures Inv(Apply(s, step))
  {
    match step
    case Begin(t, request) => BeginKeeps(s, t, request);
    case Look(t) => LookKeeps(s, t);
    case Insert(t) => InsertKeeps(s, t);
    case Relook(t) => RelookKeeps(s, t);
    case Allocate(t, branch, terminal) => AllocateKeeps(s, t, branch, terminal);
    case Create(t, form) => CreateKeeps(s, t, form);
    case Commit(t) => CommitKeeps(s, t);
    case Abort(t) => AbortKeeps(s, t);
    case Configure(scope, value) => ConfigureKeeps(s, scope, value);
    case StartSetup(c, scope, value) => OtherSetupKeeps(s, DoStartSetup(s, c, scope, value), c);
    case InsertSetup(c) => InsertSetupKeeps(s, c);
    case RelookSetup(c) => OtherSetupKeeps(s, DoRelookSetup(s, c), c);
  }

  lemma {:induction false} RunKeeps(s: System, steps: seq<Step>)
    requires Inv(s)
    ensures Inv(Run(s, steps))
    decreases |steps|
  {
    if steps == [] {
    } else {
      StepKeeps(s, steps[0]);
      RunKeeps(Apply(s, steps[0]), steps[1..]);
    }
  }
}
