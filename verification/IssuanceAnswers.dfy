/** What a creation answers, and what a document says: the numbers and the owner that were asked for. */
module IssuanceAnswers {
  import opened Common
  import opened FiscalKey
  import opened IssuanceModel
  import opened IssuanceSafety
  import opened Issuance
  import opened IssuanceService
  import FiscalForm

  /** A reservation key is the tenant, the company, the document type and the key of the request. */
  lemma SameKeyMeaning(a: Request, b: Request)
    ensures KeyOf(a) == KeyOf(b) <==>
              && a.content.tenant == b.content.tenant && a.content.company == b.content.company
              && a.content.documentType == b.content.documentType && a.key == b.key
    ensures HashOf(a) == HashOf(b) <==> a.content == b.content
  {}

  /** The text is the consecutive of this value: three digits, five digits, the type and ten digits. */
  predicate Numbers(consecutive: string, branch: string, terminal: string, documentType: DocumentType, value: nat) {
    DecodeConsecutive(consecutive) == Some(ConsecutiveParts(branch, terminal, documentType, value))
  }

  /** The document is the one that was asked for, and its consecutive says its branch, terminal and value. */
  predicate Answers(d: Document, content: Content, key: string) {
    && d.scope.tenant == content.tenant && d.scope.company == content.company
    && d.scope.environment == content.environment && d.scope.documentType == content.documentType
    && d.key == key && d.hash == Sha256(content)
    && Numbers(d.consecutive, d.scope.branch, d.scope.terminal, d.scope.documentType, d.sequenceValue)
  }

  lemma ConsecutiveNumbers(scope: Scope, value: nat)
    ensures
      ConsecutiveOf(scope, value).Ok? <==> IsDigits(scope.branch, 3) && IsDigits(scope.terminal, 5)
                                           && 1 <= value <= MAX_SEQUENCE
    ensures
      ConsecutiveOf(scope, value).Ok? ==>
        Numbers(ConsecutiveOf(scope, value).value, scope.branch, scope.terminal, scope.documentType, value)
  {
    ConsecutiveRoundTrip(scope.branch, scope.terminal, scope.documentType, value);
  }

  /** Over every run, each document is the one that the request behind its hash asked for. */
  lemma DocumentsAnswerRequests(steps: seq<Step>, id: DocumentId)
    requires id in Run(Init(), steps).db.documents
    ensures
      var d := Run(Init(), steps).db.documents[id];
      Answers(d, d.hash.content, d.key)
  {
    Reached(steps);
    var s := Run(Init(), steps);
    assert DocumentOk(s.db, s.issued, id);
    ConsecutiveNumbers(s.db.documents[id].scope, s.db.documents[id].sequenceValue);
  }

  /** The next value of the branch and terminal for the document type of a request. */
  function NextFor(db: Db, content: Content, branch: string, terminal: string): nat {
    var scope := Scope(content.tenant, content.company, content.environment, branch, terminal, content.documentType);
    if scope in db.sequences then db.sequences[scope].next else 1
  }

  /**
   On the rows that any run leaves, a request with a new key is issued exactly if branch and terminal
   are three and five digits and the sequence is not used up; its document gets the next value, its
   consecutive says so, and the row moves on by one. Anything else writes nothing.
   */
  lemma NewRequestIsIssued(steps: seq<Step>, t: TxId, content: Content, key: string, branch: string, terminal: string,
                           form: FiscalForm.StoredForm)
    requires
      var db := Run(Init(), steps).db;
      t !in db.documents && KeyId(content.tenant, content.company, content.documentType, key) !in db.keys
    ensures
      var db := Run(Init(), steps).db;
      var value := NextFor(db, content, branch, terminal);
      var (after, outcome) := Creation(db, t, Request(content, key), branch, terminal, form);
      && (outcome == Exhausted <==> value > 9999999999)
      && (outcome == Issued <==> value <= 9999999999 && IsDigits(branch, 3) && IsDigits(terminal, 5))
      && (outcome == Issued ==>
            && t in after.documents && after.documents == db.documents[t := after.documents[t]]
            && Answers(after.documents[t], content, key) && after.documents[t].form == form
            && after.documents[t].scope.branch == branch && after.documents[t].scope.terminal == terminal
            && after.documents[t].sequenceValue == value
            && NextFor(after, content, branch, terminal) == value + 1
            && after.keys == db.keys[KeyId(content.tenant, content.company, content.documentType, key) :=
                                     Reservation(Sha256(content), true, Some(t))])
      && (outcome != Issued ==> after == db && (outcome == Exhausted || outcome == Rejected))
  {
    Reached(steps);
    var s := Run(Init(), steps);
    var r := Request(content, key);
    var scope := ScopeOf(r, branch, terminal);
    var value := NextValue(s.db, scope);
    NextIsFree(s.db, s.issued, scope);
    ConsecutiveNumbers(scope, value);
    if ConsecutiveOf(scope, value).Ok? {
      NewValueDoesNotViolate(s.db, s.issued, DocumentFor(r, scope, value, ConsecutiveOf(scope, value).value, form));
    }
  }

  /** A known key writes nothing: the same request gets its document back, another one is refused. */
  lemma KnownKeyIsAnswered(steps: seq<Step>, t: TxId, content: Content, key: string, branch: string, terminal: string,
                           form: FiscalForm.StoredForm)
    requires
      var db := Run(Init(), steps).db;
      KeyId(content.tenant, content.company, content.documentType, key) in db.keys
    ensures
      var db := Run(Init(), steps).db;
      var (after, outcome) := Creation(db, t, Request(content, key), branch, terminal, form);
      && after == db
      && (outcome == DifferentRequest <==>
            forall id :: id in db.documents ==> !Answers(db.documents[id], content, key))
      && (outcome != DifferentRequest ==>
            && outcome.Replayed? && outcome.document in db.documents
            && Answers(db.documents[outcome.document], content, key))
  {
    Reached(steps);
    var s := Run(Init(), steps);
    var k := KeyId(content.tenant, content.company, content.documentType, key);
    assert KeyOf(Request(content, key)) == k && KeyOk(s.db, k);
    var id := s.db.keys[k].document.value;
    DocumentsAnswerRequests(steps, id);
    assert DocumentOk(s.db, s.issued, id);
    forall other | other in s.db.documents && Answers(s.db.documents[other], content, key)
      ensures other == id
    {
      assert DocumentOk(s.db, s.issued, other);
    }
  }
}
