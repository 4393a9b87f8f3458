/** The issuing services as an object over the committed rows, one call at a time. */
module IssuanceService {
  import opened Common
  import opened FiscalKey
  import opened IssuanceModel
  import opened IssuanceSafety
  import FiscalForm

  datatype ConfigureError = InvalidValue | AlreadyStarted | InitialValueConflict

  /** What one undisturbed call of createDocument does to the rows. */
  function Creation(db: Db, t: TxId, r: Request, branch: string, terminal: string,
      form: FiscalForm.StoredForm): (Db, Outcome) {
    var scope := ScopeOf(r, branch, terminal);
    var value := NextValue(db, scope);
    if KeyOf(r) in db.keys then (db, Resolve(db, r))
    else if value > MAX_SEQUENCE then (db, Exhausted)
    else match ConsecutiveOf(scope, value)
      case Err(_) => (db, Rejected)
      case Ok(consecutive) =>
        var d := DocumentFor(r, scope, value, consecutive, form);
        if Violates(db, d) then (db, Rejected) else (Committed(db, t, r, d), Issued)
  }

  /** Repeating a successful call gives the same document and writes nothing; changing the request is refused. */
  lemma RepeatedCreation(db: Db, t: TxId, u: TxId, r: Request, again: Request, branch: string, terminal: string,
                         form: FiscalForm.StoredForm, other: FiscalForm.StoredForm)
    requires Creation(db, t, r, branch, terminal, form).1 == Issued && KeyOf(again) == KeyOf(r)
    ensures
      var after := Creation(db, t, r, branch, terminal, form).0;
      Creation(after, u, again, branch, terminal, other)
        == (after, if HashOf(again) == HashOf(r) then Replayed(t) else DifferentRequest)
  {}

  /** Nobody holds a key or a sequence row. */
  ghost predicate Quiet(s: System) {
    forall u :: u in s.txs ==> !s.txs[u].phase.Reserved? && !s.txs[u].phase.Allocated? && !s.txs[u].phase.Created?
  }

  /** The transaction a step belongs to. */
  function Actor(step: Step): Option<TxId> {
    match step
    case Begin(t, _) => Some(t)
    case Look(t) => Some(t)
    case Insert(t) => Some(t)
    case Relook(t) => Some(t)
    case Allocate(t, _, _) => Some(t)
    case Create(t, _) => Some(t)
    case Commit(t) => Some(t)
    case Abort(t) => Some(t)
    case _ => None
  }

  ghost predicate Foreign(steps: seq<Step>, t: TxId) {
    forall i :: 0 <= i < |steps| ==> Actor(steps[i]) != Some(t)
  }

  ghost predicate Holds(s: System, t: TxId, tx: Tx) {
    t in s.txs && s.txs[t] == tx
  }

  lemma OtherStepKeepsTx(s: System, step: Step, t: TxId, tx: Tx)
    requires Holds(s, t, tx) && Actor(step) != Some(t)
    ensures Holds(Apply(s, step), t, tx)
  {}

  lemma {:induction false} OthersKeepTx(s: System, steps: seq<Step>, t: TxId, tx: Tx)
    requires Holds(s, t, tx) && Foreign(steps, t)
    ensures Holds(Run(s, steps), t, tx)
    decreases |steps|
  {
    if steps == [] {
    } else {
      OtherStepKeepsTx(s, steps[0], t, tx);
      OthersKeepTx(Apply(s, steps[0]), steps[1..], t, tx);
    }
  }

  lemma RunTwo(s: System, a: Step, b: Step)
    ensures Run(s, [a, b]) == Apply(Apply(s, a), b)
  {
    assert [a, b][1..] == [b] && [b][1..] == [];
    assert Run(Apply(s, a), [b]) == Run(Apply(Apply(s, a), b), []);
  }

  lemma RunThree(s: System, a: Step, b: Step, c: Step)
    ensures Run(s, [a, b, c]) == Apply(Apply(Apply(s, a), b), c)
  {
    assert [a, b, c][1..] == [b, c];
    RunTwo(Apply(s, a), b, c);
  }

  /** The insert, and the second look after a conflict. */
  lemma ReserveIsRun(s: System, t: TxId, r: Request)
    requires Quiet(s) && Holds(s, t, Tx(r, Missing))
    ensures
      var s' := Run(s, [Insert(t), Relook(t)]);
      && s'.db == s.db && Holds(s', t, Tx(r, if KeyOf(r) in s.db.keys then Ended(Resolve(s.db, r)) else Reserved))
      && (forall u :: u in s'.txs && u != t ==> u in s.txs && s'.txs[u] == s.txs[u])
  {
    assert !KeyLocked(s, KeyOf(r));
    RunTwo(s, Insert(t), Relook(t));
  }

  /** The value it takes, and why it may end there. */
  function Allocation(db: Db, r: Request, branch: string, terminal: string): Phase {
    var scope := ScopeOf(r, branch, terminal);
    var value := NextValue(db, scope);
    if value > MAX_SEQUENCE then Ended(Exhausted)
    else if ConsecutiveOf(scope, value).Err? then Ended(Rejected)
    else Allocated(scope, value)
  }

  lemma AllocationSteps(s: System, t: TxId, r: Request, branch: string, terminal: string)
    requires Holds(s, t, Tx(r, Reserved)) && forall u :: u in s.txs && u != t ==> HeldScope(s.txs[u]) == None
    ensures DoAllocate(s, t, branch, terminal) == s.(txs := s.txs[t := Tx(r, Allocation(s.db, r, branch, terminal))])
  {
    assert !ScopeLocked(s, ScopeOf(r, branch, terminal));
  }

  lemma StoppedSteps(s: System, t: TxId, r: Request, outcome: Outcome, form: FiscalForm.StoredForm)
    requires Holds(s, t, Tx(r, Ended(outcome)))
    ensures DoCommit(DoCreate(s, t, form), t) == s
  {}

  lemma DraftSteps(s: System, t: TxId, r: Request, scope: Scope, value: nat, consecutive: string,
      form: FiscalForm.StoredForm)
    requires Holds(s, t, Tx(r, Allocated(scope, value))) && FiscalForm.Stores(form, r.content.payload)
    requires ConsecutiveOf(scope, value) == Ok(consecutive)
    ensures
      var d := DocumentFor(r, scope, value, consecutive, form);
      DoCreate(s, t, form) == s.(txs := s.txs[t := Tx(r, if Violates(s.db, d) then Ended(Rejected) else Created(d))])
  {}

  lemma CommitSteps(s: System, t: TxId, r: Request, d: Document)
    requires Holds(s, t, Tx(r, Created(d)))
    ensures DoCommit(s, t).db == Committed(s.db, t, r, d) && Holds(DoCommit(s, t), t, Tx(r, Ended(Issued)))
  {}

  lemma CreationSteps(s: System, t: TxId, r: Request, branch: string, terminal: string, form: FiscalForm.StoredForm)
    requires Holds(s, t, Tx(r, Allocation(s.db, r, branch, terminal))) && KeyOf(r) !in s.db.keys
    requires FiscalForm.Stores(form, r.content.payload)
    ensures
      var s' := DoCommit(DoCreate(s, t, form), t);
      var (db, outcome) := Creation(s.db, t, r, branch, terminal, form);
      s'.db == db && Holds(s', t, Tx(r, Ended(outcome)))
  {
    match Allocation(s.db, r, branch, terminal)
    case Ended(outcome) => StoppedSteps(s, t, r, outcome, form);
    case Allocated(scope, value) =>
      var consecutive := ConsecutiveOf(scope, value).value;
      var d := DocumentFor(r, scope, value, consecutive, form);
      DraftSteps(s, t, r, scope, value, consecutive, form);
      if Violates(s.db, d) {
        assert DoCommit(DoCreate(s, t, form), t) == DoCreate(s, t, form);
      } else {
        CommitSteps(DoCreate(s, t, form), t, r, d);
      }
  }

  lemma IssueIsRun(s: System, t: TxId, r: Request, branch: string, terminal: string, form: FiscalForm.StoredForm)
    requires Holds(s, t, Tx(r, Reserved)) && KeyOf(r) !in s.db.keys
    requires forall u :: u in s.txs && u != t ==> HeldScope(s.txs[u]) == None
    requires FiscalForm.Stores(form, r.content.payload)
    ensures
      var s' := Run(s, [Allocate(t, branch, terminal), Create(t, form), Commit(t)]);
      var (db, outcome) := Creation(s.db, t, r, branch, terminal, form);
      s'.db == db && Holds(s', t, Tx(r, Ended(outcome)))
  {
    RunThree(s, Allocate(t, branch, terminal), Create(t, form), Commit(t));
    AllocationSteps(s, t, r, branch, terminal);
    CreationSteps(DoAllocate(s, t, branch, terminal), t, r, branch, terminal, form);
  }

  lemma EndedStays(s: System, t: TxId, r: Request, outcome: Outcome, branch: string, terminal: string,
                   form: FiscalForm.StoredForm)
    requires Holds(s, t, Tx(r, Ended(outcome)))
    ensures Run(s, [Insert(t), Relook(t)]) == s
    ensures Run(s, [Allocate(t, branch, terminal), Create(t, form), Commit(t)]) == s
  {
    RunTwo(s, Insert(t), Relook(t));
    RunThree(s, Allocate(t, branch, terminal), Create(t, form), Commit(t));
  }

  /** The steps of one call, with what others do while its insert waits. */
  ghost function CallSteps(t: TxId, r: Request, others: seq<Step>, branch: string, terminal: string,
                           form: FiscalForm.StoredForm): seq<Step>
  {
    [Begin(t, r), Look(t)] + (others + ([Insert(t), Relook(t)] +
      [Allocate(t, branch, terminal), Create(t, form), Commit(t)]))
  }

  /**
   A call is a run of the transaction system, whatever others do between its first look and the
   moment its insert is granted: a key that is there answers it, before or after; otherwise it issues.
   */
  lemma CreationIsRun(s: System, t: TxId, r: Request, others: seq<Step>, branch: string, terminal: string,
                      form: FiscalForm.StoredForm)
    requires t !in s.txs && t !in s.db.documents && Foreign(others, t)
    requires FiscalForm.ProperInput(r.content.payload) && FiscalForm.Stores(form, r.content.payload)
    requires Quiet(Run(Run(s, [Begin(t, r), Look(t)]), others))
    ensures
      var later := Run(Run(s, [Begin(t, r), Look(t)]), others).db;
      var s' := Run(s, CallSteps(t, r, others, branch, terminal, form));
      var (db, outcome) :=
        if KeyOf(r) in s.db.keys then (later, Resolve(s.db, r)) else Creation(later, t, r, branch, terminal, form);
      s'.db == db && Holds(s', t, Tx(r, Ended(outcome)))
  {
    RunTwo(s, Begin(t, r), Look(t));
    var looked := Run(s, [Begin(t, r), Look(t)]);
    var waited := Run(looked, others);
    var reserved := Run(waited, [Insert(t), Relook(t)]);
    OthersKeepTx(looked, others, t, looked.txs[t]);
    var issue := [Allocate(t, branch, terminal), Create(t, form), Commit(t)];
    RunAppend(waited, [Insert(t), Relook(t)], issue);
    RunAppend(looked, others, [Insert(t), Relook(t)] + issue);
    RunAppend(s, [Begin(t, r), Look(t)], others + ([Insert(t), Relook(t)] + issue));
    if KeyOf(r) in s.db.keys {
      EndedStays(waited, t, r, Resolve(s.db, r), branch, terminal, form);
    } else {
      ReserveIsRun(waited, t, r);
      if KeyOf(r) in waited.db.keys {
        EndedStays(reserved, t, r, Resolve(waited.db, r), branch, terminal, form);
      } else {
        IssueIsRun(reserved, t, r, branch, terminal, form);
      }
    }
  }

  class FiscalDocumentService {
    var keys: map<KeyId, Reservation>
    var documents: map<DocumentId, Document>
    var sequences: map<Scope, Sequence>

    function Rows(): Db
      reads this
    {
      Db(keys, documents, sequences)
    }

    constructor ()
      ensures Rows() == Init().db
    {
      keys, documents, sequences := map[], map[], map[];
    }

    /** While an insert waits for another transaction, the committed rows become `later`. */
    method Await(later: Db)
      modifies this
      ensures Rows() == later
    {
      keys, documents, sequences := later.keys, later.documents, later.sequences;
    }

    /**
     The first look, the insert that does nothing on a conflict, and the second look: the answer for
     a key that exists, by then or by the time the insert is granted, or a reservation.
     */
    method ReserveIdempotencyKey(r: Request, later: Db) returns (answer: Option<Outcome>)
      modifies this
      ensures KeyOf(r) in old(keys) ==> Rows() == old(Rows()) && answer == Some(Resolve(old(Rows()), r))
      ensures KeyOf(r) !in old(keys) && KeyOf(r) in later.keys ==> Rows() == later && answer == Some(Resolve(later, r))
      ensures KeyOf(r) !in old(keys) && KeyOf(r) !in later.keys ==>
                answer == None && Rows() == later.(keys := later.keys[KeyOf(r) := Reservation(HashOf(r), false, None)])
    {
      if KeyOf(r) in keys {
        return Some(Resolve(Rows(), r));
      }
      Await(later);
      var inserted := KeyOf(r) !in keys;
      if inserted {
        keys := keys[KeyOf(r) := Reservation(HashOf(r), false, None)];
        return None;
      }
      return Some(Resolve(Rows(), r));
    }

    /** The upsert of the sequence row, returning the value it assigns. */
    method AllocateValue(scope: Scope) returns (value: nat)
      modifies this`sequences
      ensures value == NextValue(old(Rows()), scope)
      ensures sequences == old(sequences)[scope := Advanced(old(Rows()), scope, value)]
    {
      if scope in sequences {
        var q := sequences[scope];
        value := q.next;
        sequences := sequences[scope := Sequence(q.next + 1, Some(q.next), q.first)];
      } else {
        value := 1;
        sequences := sequences[scope := Sequence(2, Some(1), 1)];
      }
    }

    /** createDocument: every error rolls the transaction back, to what others have committed. */
    method CreateDocument(t: TxId, r: Request, later: Db, branch: string, terminal: string, form: FiscalForm.StoredForm)
      returns (outcome: Outcome)
      modifies this
      ensures
        (Rows(), outcome) ==
          if KeyOf(r) in old(keys) then (old(Rows()), Resolve(old(Rows()), r))
          else Creation(later, t, r, branch, terminal, form)
    {
      var answer := ReserveIdempotencyKey(r, later);
      if answer.Some? {
        return answer.value;
      }
      var before := later;
      var scope := ScopeOf(r, branch, terminal);
      var value := AllocateValue(scope);
      if value > MAX_SEQUENCE {
        Rollback(before);
        return Exhausted;
      }
      var consecutive := ConsecutiveOf(scope, value);
      if consecutive.Err? {
        Rollback(before);
        return Rejected;
      }
      var d := DocumentFor(r, scope, value, consecutive.value, form);
      var clash := FindClash(d);
      if clash {
        Rollback(before);
        return Rejected;
      }
      documents := documents[t := d];
      keys := keys[KeyOf(r) := Reservation(HashOf(r), true, Some(t))];
      assert keys == before.keys[KeyOf(r) := Reservation(HashOf(r), true, Some(t))];
      assert Rows() == Committed(before, t, r, d);
      return Issued;
    }

    method Rollback(before: Db)
      modifies this
      ensures Rows() == before
    {
      keys, documents, sequences := before.keys, before.documents, before.sequences;
    }

    /** The unique index on documents. */
    method FindClash(d: Document) returns (clash: bool)
      ensures clash == exists e :: e in documents && SameUniqueKey(documents[e], d)
    {
      clash := false;
      var rest := documents.Keys;
      while rest != {}
        invariant rest <= documents.Keys
        invariant clash == exists e :: e in documents.Keys - rest && SameUniqueKey(documents[e], d)
        decreases |rest|
      {
        var e :| e in rest;
        if SameUniqueKey(documents[e], d) {
          clash := true;
        }
        rest := rest - {e};
      }
      assert documents.Keys - rest == documents.Keys;
    }

    method ConfigureSequence(scope: Scope, value: int) returns (result: Result<Sequence, ConfigureError>)
      modifies this`sequences
      ensures result == Err(InvalidValue) <==> !(1 <= value <= MAX_SEQUENCE)
      ensures result == Err(AlreadyStarted) <==>
                1 <= value <= MAX_SEQUENCE && scope in old(sequences) && old(sequences)[scope].last.Some?
      ensures result.Ok? ==>
                result.value == Sequence(value, None, value) && sequences == old(sequences)[scope := result.value]
      ensures result.Err? ==> sequences == old(sequences) && result.error != InitialValueConflict
    {
      if value < 1 || value > MAX_SEQUENCE {
        return Err(InvalidValue);
      }
      if scope in sequences && sequences[scope].last.Some? {
        return Err(AlreadyStarted);
      }
      sequences := sequences[scope := Sequence(value, None, value)];
      return Ok(sequences[scope]);
    }

    method ConfigureInitialSequence(scope: Scope, value: int) returns (result: Result<Sequence, ConfigureError>)
      modifies this`sequences
      ensures result.Ok? ==> scope in sequences && result.value == sequences[scope]
                             && result.value.last.None? && result.value.next == value
      ensures scope in old(sequences) ==> sequences == old(sequences)
      ensures result == Err(AlreadyStarted) <==>
                1 <= value <= MAX_SEQUENCE && scope in old(sequences) && old(sequences)[scope].last.Some?
      ensures result == Err(InitialValueConflict) <==>
                1 <= value <= MAX_SEQUENCE && scope in old(sequences) && old(sequences)[scope].last.None?
                && old(sequences)[scope].next != value
      ensures result == Err(InvalidValue) <==> !(1 <= value <= MAX_SEQUENCE)
      ensures result.Ok? && scope !in old(sequences) ==>
          sequences == old(sequences)[scope := Sequence(value, None, value)]
      ensures result.Err? ==> sequences == old(sequences)
    {
      if value < 1 || value > MAX_SEQUENCE {
        return Err(InvalidValue);
      }
      if scope in sequences {
        if sequences[scope].last.Some? {
          return Err(AlreadyStarted);
        }
        if sequences[scope].next != value {
          return Err(InitialValueConflict);
        }
        return Ok(sequences[scope]);
      }
      sequences := sequences[scope := Sequence(value, None, value)];
      return Ok(sequences[scope]);
    }
  }
}
