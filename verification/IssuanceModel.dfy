/**
 Issuing fiscal documents: transactions at READ COMMITTED that reserve an idempotency key, allocate
 a sequence value, insert a document, and commit or roll back together. What a transaction wrote is
 seen by nobody else before it commits, but its keys and rows block others. A step that is not
 enabled, or that would block, leaves the state unchanged.
 */
module IssuanceModel {
  import opened Common
  import opened FiscalKey
  import FiscalForm
  import CanonicalJson

  type TenantId = nat
  type CompanyId = nat
  type TxId = nat
  type SetupId = nat
  /** A document id is a fresh UUID; the transaction that draws it names it. */
  type DocumentId = TxId

  datatype Environment = Production | Sandbox

  /** The operation of a key is the document type with a fixed prefix. */
  datatype KeyId = KeyId(tenant: TenantId, company: CompanyId, operation: DocumentType, key: string)

  datatype Scope = Scope(
    tenant: TenantId, company: CompanyId, environment: Environment, branch: string, terminal: string,
    documentType: DocumentType)

  /** What the request hash covers: the command without actor, API key, idempotency key and evidence headers. */
  datatype Content = Content(
    tenant: TenantId, company: CompanyId, environment: Environment, documentType: DocumentType,
        payload: FiscalForm.Input)

  datatype RequestHash = Sha256(content: Content)

  datatype Request = Request(content: Content, key: string)

  datatype Reservation = Reservation(hash: RequestHash, completed: bool, document: Option<DocumentId>)

  datatype Document = Document(
    scope: Scope, sequenceValue: nat, consecutive: string, key: string, hash: RequestHash, form: FiscalForm.StoredForm)

  /** `first` remembers where the numbering started. */
  datatype Sequence = Sequence(next: nat, last: Option<nat>, first: nat)

  datatype Db = Db(
    keys: map<KeyId, Reservation>,
    documents: map<DocumentId, Document>,
    sequences: map<Scope, Sequence>)

  datatype Outcome =
    | Issued
    | Replayed(document: DocumentId)
    | DifferentRequest
    | InProgress
    | Exhausted
    | Rejected

  datatype Phase =
    | Begun
    | Missing
    | Conflicted
    | Reserved
    | Allocated(scope: Scope, value: nat)
    | Created(document: Document)
    | Ended(outcome: Outcome)

  datatype Tx = Tx(request: Request, phase: Phase)

  datatype SetupPhase = Inserting | Raced | Done(accepted: bool)

  datatype Setup = Setup(scope: Scope, value: nat, phase: SetupPhase)

  /** `issued` logs which document got which value. */
  datatype System = System(
    db: Db,
    txs: map<TxId, Tx>,
    setups: map<SetupId, Setup>,
    issued: map<(Scope, nat), DocumentId>)

  function Init(): System {
    System(Db(map[], map[], map[]), map[], map[], map[])
  }

  datatype Step =
    | Begin(t: TxId, request: Request)
    | Look(t: TxId)
    | Insert(t: TxId)
    | Relook(t: TxId)
    | Allocate(t: TxId, branch: string, terminal: string)
    | Create(t: TxId, form: FiscalForm.StoredForm)
    | Commit(t: TxId)
    | Abort(t: TxId)
    | Configure(scope: Scope, value: nat)
    | StartSetup(c: SetupId, scope: Scope, value: nat)
    | InsertSetup(c: SetupId)
    | RelookSetup(c: SetupId)

  function KeyOf(r: Request): KeyId {
    KeyId(r.content.tenant, r.content.company, r.content.documentType, r.key)
  }

  function HashOf(r: Request): RequestHash {
    Sha256(r.content)
  }

  function KeyOfDocument(d: Document): KeyId {
    KeyId(d.scope.tenant, d.scope.company, d.scope.documentType, d.key)
  }

  // -- Locks -------------------------------------------------------------------------------

  /** The transaction has inserted its reservation and not ended. */
  predicate HoldsKey(tx: Tx, k: KeyId) {
    (tx.phase.Reserved? || tx.phase.Allocated? || tx.phase.Created?) && KeyOf(tx.request) == k
  }

  /** The sequence row a transaction has locked. */
  function HeldScope(tx: Tx): Option<Scope> {
    match tx.phase
    case Allocated(scope, _) => Some(scope)
    case Created(d) => Some(d.scope)
    case _ => None
  }

  predicate HoldsScope(tx: Tx, scope: Scope) {
    HeldScope(tx) == Some(scope)
  }

  predicate KeyLocked(s: System, k: KeyId) {
    exists t :: t in s.txs && HoldsKey(s.txs[t], k)
  }

  predicate ScopeLocked(s: System, scope: Scope) {
    exists t :: t in s.txs && HoldsScope(s.txs[t], scope)
  }

  // -- Transactions ------------------------------------------------------------------------

  function SetPhase(s: System, t: TxId, phase: Phase): System
    requires t in s.txs
  {
    s.(txs := s.txs[t := s.txs[t].(phase := phase)])
  }

  /** resolveExistingIdempotencyKey */
  function Resolve(db: Db, r: Request): Outcome
    requires KeyOf(r) in db.keys
  {
    var existing := db.keys[KeyOf(r)];
    if existing.hash != HashOf(r) then DifferentRequest
    else if existing.document.Some? && existing.document.value in db.documents then Replayed(existing.document.value)
    else InProgress
  }

  function NextValue(db: Db, scope: Scope): nat {
    if scope in db.sequences then db.sequences[scope].next else 1
  }

  function ScopeOf(r: Request, branch: string, terminal: string): Scope {
    Scope(r.content.tenant, r.content.company, r.content.environment, branch, terminal, r.content.documentType)
  }

  function ConsecutiveOf(scope: Scope, value: nat): Result<string, KeyError> {
    BuildConsecutive(scope.branch, scope.terminal, scope.documentType, value)
  }

  /** The unique key of documents: tenant, company, environment, consecutive. */
  predicate SameUniqueKey(a: Document, b: Document) {
    && a.scope.tenant == b.scope.tenant && a.scope.company == b.scope.company
    && a.scope.environment == b.scope.environment && a.consecutive == b.consecutive
  }

  predicate Violates(db: Db, d: Document) {
    exists e :: e in db.documents && SameUniqueKey(db.documents[e], d)
  }

  predicate At(s: System, t: TxId, phase: Phase) {
    t in s.txs && s.txs[t].phase == phase
  }

  function DoBegin(s: System, t: TxId, request: Request): System {
    if t in s.txs || t in s.db.documents || !FiscalForm.ProperInput(request.content.payload) then s
    else s.(txs := s.txs[t := Tx(request, Begun)])
  }

  function DoLook(s: System, t: TxId): System {
    if !At(s, t, Begun) then s
    else if KeyOf(s.txs[t].request) in s.db.keys then SetPhase(s, t, Ended(Resolve(s.db, s.txs[t].request)))
    else SetPhase(s, t, Missing)
  }

  /** INSERT ... ON CONFLICT DO NOTHING waits for an uncommitted row with the same key. */
  function DoInsert(s: System, t: TxId): System {
    if !At(s, t, Missing) then s
    else if KeyOf(s.txs[t].request) in s.db.keys then SetPhase(s, t, Conflicted)
    else if KeyLocked(s, KeyOf(s.txs[t].request)) then s
    else SetPhase(s, t, Reserved)
  }

  function DoRelook(s: System, t: TxId): System {
    if !At(s, t, Conflicted) then s
    else if KeyOf(s.txs[t].request) in s.db.keys then SetPhase(s, t, Ended(Resolve(s.db, s.txs[t].request)))
    else SetPhase(s, t, Ended(InProgress))
  }

  /** The upsert of the sequence row waits for its lock; a failed check rolls everything back. */
  function DoAllocate(s: System, t: TxId, branch: string, terminal: string): System {
    if !At(s, t, Reserved) then s
    else
      var scope := ScopeOf(s.txs[t].request, branch, terminal);
      var value := NextValue(s.db, scope);
      if ScopeLocked(s, scope) then s
      else if value > MAX_SEQUENCE then SetPhase(s, t, Ended(Exhausted))
      else if ConsecutiveOf(scope, value).Err? then SetPhase(s, t, Ended(Rejected))
      else SetPhase(s, t, Allocated(scope, value))
  }

  function DocumentFor(r: Request, scope: Scope, value: nat, consecutive: string,
      form: FiscalForm.StoredForm): Document {
    Document(scope, value, consecutive, r.key, HashOf(r), form)
  }

  ghost function DoCreate(s: System, t: TxId, form: FiscalForm.StoredForm): System {
    if t !in s.txs || !s.txs[t].phase.Allocated? || !FiscalForm.Stores(form, s.txs[t].request.content.payload) then s
    else
      var tx := s.txs[t];
      match ConsecutiveOf(tx.phase.scope, tx.phase.value)
      case Err(_) => SetPhase(s, t, Ended(Rejected))
      case Ok(consecutive) =>
        var document := DocumentFor(tx.request, tx.phase.scope, tx.phase.value, consecutive, form);
        if Violates(s.db, document) then SetPhase(s, t, Ended(Rejected)) else SetPhase(s, t, Created(document))
  }

  /** The sequence row after an allocation. */
  function Advanced(db: Db, scope: Scope, value: nat): Sequence {
    Sequence(value + 1, Some(value), if scope in db.sequences then db.sequences[scope].first else 1)
  }

  function Committed(db: Db, t: TxId, r: Request, d: Document): Db {
    Db(db.keys[KeyOf(r) := Reservation(HashOf(r), true, Some(t))],
       db.documents[t := d],
       db.sequences[d.scope := Advanced(db, d.scope, d.sequenceValue)])
  }

  function DoCommit(s: System, t: TxId): System {
    if t !in s.txs || !s.txs[t].phase.Created? then s
    else
      var d := s.txs[t].phase.document;
      SetPhase(s, t, Ended(Issued)).(
        db := Committed(s.db, t, s.txs[t].request, d),
        issued := s.issued[(d.scope, d.sequenceValue) := t])
  }

  function DoAbort(s: System, t: TxId): System {
    if t !in s.txs || s.txs[t].phase.Ended? then s else SetPhase(s, t, Ended(Rejected))
  }

  // -- Configuration of sequences ----------------------------------------------------------

  predicate ValidStart(value: nat) {
    1 <= value <= MAX_SEQUENCE
  }

  function WithSequence(s: System, scope: Scope, value: nat): System {
    s.(db := s.db.(sequences := s.db.sequences[scope := Sequence(value, None, value)]))
  }

  /** configureSequence, its check and its upsert taken as one step. */
  function DoConfigure(s: System, scope: Scope, value: nat): System {
    if !ValidStart(value) || ScopeLocked(s, scope) then s
    else if scope in s.db.sequences && s.db.sequences[scope].last.Some? then s
    else WithSequence(s, scope, value)
  }

  /** resolveExistingSequence */
  predicate Accepts(q: Sequence, value: nat) {
    q.last.None? && q.next == value
  }

  function DoStartSetup(s: System, c: SetupId, scope: Scope, value: nat): System {
    if c in s.setups || !ValidStart(value) then s
    else
      var phase := if scope in s.db.sequences then Done(Accepts(s.db.sequences[scope], value)) else Inserting;
      s.(setups := s.setups[c := Setup(scope, value, phase)])
  }

  function DoInsertSetup(s: System, c: SetupId): System {
    if c !in s.setups || !s.setups[c].phase.Inserting? then s
    else
      var u := s.setups[c];
      if ScopeLocked(s, u.scope) then s
      else if u.scope in s.db.sequences then s.(setups := s.setups[c := u.(phase := Raced)])
      else WithSequence(s, u.scope, u.value).(setups := s.setups[c := u.(phase := Done(true))])
  }

  function DoRelookSetup(s: System, c: SetupId): System {
    if c !in s.setups || !s.setups[c].phase.Raced? then s
    else
      var u := s.setups[c];
      var accepted := u.scope in s.db.sequences && Accepts(s.db.sequences[u.scope], u.value);
      s.(setups := s.setups[c := u.(phase := Done(accepted))])
  }

  ghost function Apply(s: System, step: Step): System {
    match step
    case Begin(t, request) => DoBegin(s, t, request)
    case Look(t) => DoLook(s, t)
    case Insert(t) => DoInsert(s, t)
    case Relook(t) => DoRelook(s, t)
    case Allocate(t, branch, terminal) => DoAllocate(s, t, branch, terminal)
    case Create(t, form) => DoCreate(s, t, form)
    case Commit(t) => DoCommit(s, t)
    case Abort(t) => DoAbort(s, t)
    case Configure(scope, value) => DoConfigure(s, scope, value)
    case StartSetup(c, scope, value) => DoStartSetup(s, c, scope, value)
    case InsertSetup(c) => DoInsertSetup(s, c)
    case RelookSetup(c) => DoRelookSetup(s, c)
  }

  ghost function Run(s: System, steps: seq<Step>): System
    decreases |steps|
  {
    if steps == [] then s else Run(Apply(s, steps[0]), steps[1..])
  }

  lemma {:induction false} RunAppend(s: System, first: seq<Step>, second: seq<Step>)
    ensures Run(s, first + second) == Run(Run(s, first), second)
    decreases |first|
  {
    if first == [] {
      assert first + second == second;
    } else {
      assert (first + second)[1..] == first[1..] + second;
      RunAppend(Apply(s, first[0]), first[1..], second);
    }
  }

  lemma RunLast(s: System, steps: seq<Step>)
    requires steps != []
    ensures Run(s, steps) == Apply(Run(s, steps[..|steps| - 1]), steps[|steps| - 1])
  {
    var last := [steps[|steps| - 1]];
    assert steps == steps[..|steps| - 1] + last && last[1..] == [];
    RunAppend(s, steps[..|steps| - 1], last);
    assert Run(Run(s, steps[..|steps| - 1]), last) == Apply(Run(s, steps[..|steps| - 1]), steps[|steps| - 1]);
  }

  // -- Lookups -----------------------------------------------------------------------------

  datatype LookupError = IdentityNotFound | IntegrityError | EvidenceInvalid | EvidenceIntegrityError

  /** The association checks both lookups make. */
  predicate Associated(db: Db, id: DocumentId, r: Reservation, k: KeyId, environment: Environment) {
    && r.completed
    && id in db.documents
    && db.documents[id].scope.tenant == k.tenant
    && db.documents[id].scope.company == k.company
    && db.documents[id].scope.environment == environment
    && db.documents[id].scope.documentType == k.operation
    && db.documents[id].key == k.key
    && db.documents[id].hash == r.hash
  }

  /** Lookup by the hash of the original request. */
  function LookUpIdentity(db: Db, k: KeyId, environment: Environment, hash: RequestHash):
    Result<DocumentId, LookupError>
  {
    if k !in db.keys || db.keys[k].hash != hash then Err(IdentityNotFound)
    else if db.keys[k].document.Some? && Associated(db, db.keys[k].document.value, db.keys[k], k, environment) then
      Ok(db.keys[k].document.value)
    else Err(IntegrityError)
  }

  /** Lookup by the canonical form of the payload. */
  function LookUpEvidence(parse: CanonicalJson.JsString -> Option<CanonicalJson.JsString>, db: Db, k: KeyId,
                          environment: Environment, payload: FiscalForm.Input): Result<DocumentId, LookupError>
  {
    match FiscalForm.CanonicalHash(parse, payload)
    case Err(_) => Err(EvidenceInvalid)
    case Ok(supplied) =>
      if k !in db.keys then Err(IdentityNotFound)
      else if db.keys[k].document.None? || !Associated(db, db.keys[k].document.value, db.keys[k], k, environment) then
        Err(IntegrityError)
      else
        match FiscalForm.InputOfStored(db.documents[db.keys[k].document.value].form)
        case Err(_) => Err(EvidenceIntegrityError)
        case Ok(stored) =>
          match FiscalForm.CanonicalHash(parse, stored)
          case Err(_) => Err(EvidenceIntegrityError)
          case Ok(historical) =>
            if historical == supplied then Ok(db.keys[k].document.value) else Err(IdentityNotFound)
  }
}
