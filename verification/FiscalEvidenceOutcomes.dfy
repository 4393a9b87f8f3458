/**
 What the calls over one document leave when nobody disturbs them, in statuses, hashes and objects,
 and which statuses of a submission may follow which.
 */
module FiscalEvidenceOutcomes {
  import opened Common
  import opened FiscalEvidenceModel
  import opened FiscalEvidence
  import opened FiscalEvidenceCalls

  // -- Transitions -------------------------------------------------------------------------

  /** What may lead to a status, from another one. */
  ghost function Sources(to: SubmissionStatus): set<SubmissionStatus> {
    match to
    case Requested => {}
    case Queued => {Requested, TechnicalRetryPending, ManualReviewRequired}
    case Submitting => {Queued}
    case Acknowledged => {Submitting}
    case PostOutcomeUnknown => {Submitting, ManualReviewRequired}
    case Processing => {PostOutcomeUnknown, Acknowledged}
    case TechnicalRetryPending => {Submitting, Acknowledged, Processing}
    case ManualReviewRequired => {Submitting, PostOutcomeUnknown}
    case Decided(_) => {Submitting, PostOutcomeUnknown, Acknowledged, Processing}
    case SubmissionSuperseded => {}
  }

  /** A transition is applied from a source or to itself; a decided or superseded submission ignores others. */
  lemma TransitionSources(from: SubmissionStatus, to: SubmissionStatus)
    ensures EvaluateTransition(from, to) ==
            if from == to || from in Sources(to) then Applied
            else if from.Decided? || from == SubmissionSuperseded then IgnoredStaleTerminal
            else Refused
  {
    assert to.Decided? ==> to.verdict == Accepted || to.verdict == Rejected;
  }

  ghost predicate Path(ps: seq<SubmissionStatus>) {
    forall i :: 0 <= i < |ps| - 1 ==> EvaluateTransition(ps[i], ps[i + 1]) == Applied
  }

  /** Every submission that is neither decided nor superseded can still get either verdict, in three transitions. */
  lemma VerdictIsReachable(from: SubmissionStatus, verdict: Verdict) returns (ps: seq<SubmissionStatus>)
    requires !from.Decided? && from != SubmissionSuperseded
    ensures 2 <= |ps| <= 4 && ps[0] == from && ps[|ps| - 1] == Decided(verdict) && Path(ps)
  {
    match from
    case Requested => ps := [Requested, Queued, Submitting, Decided(verdict)];
    case Queued => ps := [Queued, Submitting, Decided(verdict)];
    case TechnicalRetryPending => ps := [TechnicalRetryPending, Queued, Submitting, Decided(verdict)];
    case ManualReviewRequired => ps := [ManualReviewRequired, PostOutcomeUnknown, Decided(verdict)];
    case _ => ps := [from, Decided(verdict)];
  }

  /** A new submission gets a verdict only after it was being submitted. */
  lemma {:induction false} VerdictNeedsSubmitting(ps: seq<SubmissionStatus>, verdict: Verdict)
    requires ps != [] && ps[0] in {Requested, Queued} && ps[|ps| - 1] == Decided(verdict) && Path(ps)
    ensures Submitting in ps
    decreases |ps|
  {
    TransitionSources(ps[0], ps[1]);
    if ps[1] in {Requested, Queued} {
      forall i | 0 <= i < |ps[1..]| - 1 ensures EvaluateTransition(ps[1..][i], ps[1..][i + 1]) == Applied {
        assert EvaluateTransition(ps[i + 1], ps[i + 2]) == Applied;
      }
      VerdictNeedsSubmitting(ps[1..], verdict);
    }
  }

  // -- Preparations ------------------------------------------------------------------------

  /** The key is free, or holds these bytes. */
  ghost predicate Takes(s: State, key: Key, bytes: Bytes) {
    key !in s.objects || s.objects[key] == bytes
  }

  ghost predicate OnlyRun(s: State, s': State, r: TaskId, ready: bool) {
    s'.runs == s.runs[r := RunEnded(ready)] && s'.submission == s.submission
    && s'.results == s.results && s'.submits == s.submits
  }

  /** The end of a preparation of these texts. */
  ghost predicate PreparedAs(s: State, s': State, r: TaskId, unsigned: Bytes, signedXml: Bytes) {
    var known := if s.artifact.Some? then s.artifact.value else Artifact(None, None);
    if s.status in {ReadyForXml, XmlGenerated, XmlValidated, Signed} then
      if !Takes(s, UnsignedKey, unsigned) then
        OnlyRun(s, s', r, false) && s'.status == s.status && s'.objects == s.objects && s'.artifact == Some(known)
      else if !Takes(s, SignedKey, signedXml) then
        && OnlyRun(s, s', r, false) && s'.status == Signed && s'.objects == s.objects[UnsignedKey := unsigned]
        && s'.artifact == Some(Artifact(Some(Sha256(unsigned)), known.signedSha))
      else
        && OnlyRun(s, s', r, true) && s'.status == ReadyToSubmit
        && s'.objects == s.objects[UnsignedKey := unsigned][SignedKey := signedXml]
        && s'.artifact == Some(Artifact(Some(Sha256(unsigned)), Some(Sha256(signedXml))))
    else
      && OnlyRun(s, s', r, s.status == ReadyToSubmit && s.artifact.Some? && s.artifact.value.signedSha.Some?)
      && s'.status == s.status && s'.objects == s.objects && s'.artifact == s.artifact
  }

  lemma SameObject(objects: map<Key, Bytes>, key: Key, bytes: Bytes)
    requires key in objects ==> objects[key] == bytes
    ensures Put(objects, key, bytes) == objects[key := bytes]
  {}

  /**
   A preparation that nobody disturbs: a document that awaits its XML gets ready exactly if both keys
   are free or hold the same texts, with both hashes; otherwise it stops where the store refuses.
   */
  lemma PreparationOutcome(s: State, r: TaskId, unsigned: Bytes, signedXml: Bytes) returns (s': State)
    requires r !in s.runs
    ensures Completes(s, Preparing(r, Good(unsigned, signedXml)), s') && PreparedAs(s, s', r, unsigned, signedXml)
  {
    var t := Preparing(r, Good(unsigned, signedXml));
    if AwaitsXml(s.status) {
      LonePreparation(s, r, unsigned, signedXml);
      var ready := Takes(s, UnsignedKey, unsigned) && Takes(s, SignedKey, signedXml);
      s' := Prepares(s, r, RunEnded(ready), PreparedRows(RowsOf(s), unsigned, signedXml));
      if Takes(s, UnsignedKey, unsigned) {
        SameObject(s.objects, UnsignedKey, unsigned);
        if Takes(s, SignedKey, signedXml) {
          SameObject(s.objects[UnsignedKey := unsigned], SignedKey, signedXml);
        }
      }
    } else {
      s' := Apply(s, StartRun(r));
      Issues(s, t, StartRun(r));
    }
  }

  /** Where a preparation stops when a part of it throws: nothing later happens, and nothing is taken back. */
  ghost predicate StoppedAs(s: State, s': State, r: TaskId, io: Answers) {
    var known := if s.artifact.Some? then s.artifact.value else Artifact(None, None);
    && OnlyRun(s, s', r, false)
    && if !io.storageReady then
         s'.status == s.status && s'.objects == s.objects && s'.artifact == s.artifact
       else if io.unsigned.None? || !Takes(s, UnsignedKey, io.unsigned.value) then
         s'.status == s.status && s'.objects == s.objects && s'.artifact == Some(known)
       else
         && s'.status == (if io.signedXml.None? then XmlGenerated else Signed)
         && s'.objects == s.objects[UnsignedKey := io.unsigned.value]
         && s'.artifact == Some(Artifact(Some(Sha256(io.unsigned.value)), known.signedSha))
  }

  lemma FailsAt(s: State, r: TaskId, io: Answers, phase: RunPhase, rows: Rows)
    requires NextRunStep(phase, r, io) == Some(FailRun(r)) && !phase.RunEnded?
    ensures Completes(Prepares(s, r, phase, rows), Preparing(r, io), Prepares(s, r, RunEnded(false), rows))
  {
    var at := Prepares(s, r, phase, rows);
    assert at.runs[r := RunEnded(false)] == s.runs[r := RunEnded(false)];
    Goes(s, r, io, phase, rows, RunEnded(false), rows);
  }

  lemma StopsThen(s: State, t: Task, middle: State, s': State)
    requires Reaches(s, t, middle) && Completes(middle, t, s')
    ensures Completes(s, t, s')
  {
    ReachesThen(s, t, middle, s');
  }

  /** Without its unsigned text, or with one the store refuses. */
  lemma StopsUnsigned(s: State, r: TaskId, io: Answers) returns (s': State)
    requires r !in s.runs && AwaitsXml(s.status) && io.storageReady
    requires io.unsigned.None? || !Takes(s, UnsignedKey, io.unsigned.value)
    ensures Completes(s, Preparing(r, io), s') && StoppedAs(s, s', r, io)
  {
    var rows := RowsOf(s).(artifact := Some(Begun(RowsOf(s))));
    LoneStart(s, r, io);
    if io.unsigned.None? {
      FailsAt(s, r, io, Attempted, rows);
    } else {
      LoneConflict(s, r, io, Attempted, rows, UnsignedKey, io.unsigned.value);
    }
    s' := Prepares(s, r, RunEnded(false), rows);
    StopsThen(s, Preparing(r, io), Prepares(s, r, Attempted, rows), s');
  }

  /** The rows once the unsigned text is stored and recorded. */
  ghost function GeneratedRows(s: State, unsigned: Bytes): Rows {
    RowsOf(s).(status := XmlGenerated, objects := Put(s.objects, UnsignedKey, unsigned),
               artifact := Some(Begun(RowsOf(s)).(unsignedSha := Some(Sha256(unsigned)))))
  }

  lemma GetsGenerated(s: State, r: TaskId, io: Answers)
    requires r !in s.runs && AwaitsXml(s.status) && io.storageReady
    requires io.unsigned.Some? && Takes(s, UnsignedKey, io.unsigned.value)
    ensures Reaches(s, Preparing(r, io), Prepares(s, r, Generated, GeneratedRows(s, io.unsigned.value)))
  {
    var rows := RowsOf(s).(artifact := Some(Begun(RowsOf(s))));
    LoneStart(s, r, io);
    LoneGeneration(s, r, io, rows, io.unsigned.value);
    ReachesThen(s, Preparing(r, io), Prepares(s, r, Attempted, rows),
                Prepares(s, r, Generated, GeneratedRows(s, io.unsigned.value)));
  }

  lemma StopsUnsigning(s: State, r: TaskId, io: Answers) returns (s': State)
    requires r !in s.runs && AwaitsXml(s.status) && io.storageReady
    requires io.unsigned.Some? && Takes(s, UnsignedKey, io.unsigned.value) && io.signedXml.None?
    ensures Completes(s, Preparing(r, io), s') && StoppedAs(s, s', r, io)
  {
    var rows := GeneratedRows(s, io.unsigned.value);
    GetsGenerated(s, r, io);
    FailsAt(s, r, io, Generated, rows);
    s' := Prepares(s, r, RunEnded(false), rows);
    StopsThen(s, Preparing(r, io), Prepares(s, r, Generated, rows), s');
    SameObject(s.objects, UnsignedKey, io.unsigned.value);
  }

  lemma StopsInvalid(s: State, r: TaskId, io: Answers) returns (s': State)
    requires r !in s.runs && AwaitsXml(s.status) && io.storageReady
    requires io.unsigned.Some? && Takes(s, UnsignedKey, io.unsigned.value) && io.signedXml.Some? && !io.valid
    ensures Completes(s, Preparing(r, io), s') && StoppedAs(s, s', r, io)
  {
    var rows := GeneratedRows(s, io.unsigned.value);
    var at := Prepares(s, r, Marked(io.signedXml.value), rows.(status := Signed));
    GetsGenerated(s, r, io);
    LoneSigning(s, r, io, rows, io.signedXml.value);
    ReachesThen(s, Preparing(r, io), Prepares(s, r, Generated, rows), at);
    FailsAt(s, r, io, Marked(io.signedXml.value), rows.(status := Signed));
    s' := Prepares(s, r, RunEnded(false), rows.(status := Signed));
    StopsThen(s, Preparing(r, io), at, s');
    SameObject(s.objects, UnsignedKey, io.unsigned.value);
  }

  /** A preparation of which a part throws is never ready. */
  lemma FailedPreparationOutcome(s: State, r: TaskId, io: Answers) returns (s': State)
    requires r !in s.runs && s.status in {ReadyForXml, XmlGenerated, XmlValidated, Signed}
    requires !io.storageReady || io.unsigned.None? || io.signedXml.None? || !io.valid
    ensures Completes(s, Preparing(r, io), s') && StoppedAs(s, s', r, io)
  {
    if !io.storageReady {
      var loaded := Prepares(s, r, Loaded(s.artifact.Some?), RowsOf(s));
      Issues(s, Preparing(r, io), StartRun(r));
      FailsAt(s, r, io, Loaded(s.artifact.Some?), RowsOf(s));
      s' := Prepares(s, r, RunEnded(false), RowsOf(s));
      StopsThen(s, Preparing(r, io), loaded, s');
    } else if io.unsigned.None? || !Takes(s, UnsignedKey, io.unsigned.value) {
      s' := StopsUnsigned(s, r, io);
    } else if io.signedXml.None? {
      s' := StopsUnsigning(s, r, io);
    } else {
      s' := StopsInvalid(s, r, io);
    }
  }

  // -- Submits -----------------------------------------------------------------------------

  /** The submission row a submit leaves. */
  ghost predicate SubmittedAs(s: State, s': State, p: TaskId) {
    && s' == s.(submits := s'.submits, submission := s'.submission) && s'.submits == s.submits[p := SubmitEnded]
    && if s.status != ReadyToSubmit then s'.submission == s.submission
       else match s.submission
         case None =>
           && s.artifact.Some? && s.artifact.value.signedSha.Some?
           && s'.submission == Some(Submission(Queued, s.artifact.value.signedSha.value, None))
         case Some(row) =>
           s'.submission ==
             if row.status in {Requested, Queued, TechnicalRetryPending, ManualReviewRequired}
             then Some(row.(status := Queued)) else s.submission
  }

  /** Only a document that is ready is submitted, with the recorded hash; only what is not under way is queued. */
  lemma SubmitOutcome(s: State, p: TaskId) returns (s': State)
    requires RecordsOk(s) && p !in s.submits
    ensures Completes(s, Requesting(p), s') && SubmittedAs(s, s', p)
  {
    LoneSubmit(s, p);
    s' := Requests(s, p, SubmitEnded, SubmittedRow(s));
  }

  // -- Provider results --------------------------------------------------------------------

  /** The rows and the response a result leaves. */
  ghost predicate ResultAs(s: State, s': State, q: TaskId, next: SubmissionStatus, response: Option<Bytes>) {
    && s'.results == s.results[q := ProviderResult(next, response, ResultEnded)]
    && s'.runs == s.runs && s'.submits == s.submits && s'.artifact == s.artifact
    && match s.submission
       case None => s'.submission == None && s'.status == s.status && s'.objects == s.objects
       case Some(row) =>
         if row.status != next && row.status !in Sources(next) then
           s'.submission == s.submission && s'.status == s.status && s'.objects == s.objects
         else if response.Some? && !Takes(s, ResponseKey, response.value) then
           s'.submission == s.submission && s'.status == s.status && s'.objects == s.objects
         else
           && s'.objects == (if response.Some? then s.objects[ResponseKey := response.value] else s.objects)
           && if row.status.Decided? || row.status == SubmissionSuperseded then
                s'.submission == s.submission && s'.status == s.status
              else
                && s'.submission == Some(Submission(next, row.signedSha,
                     if response.Some? then Some(Sha256(response.value)) else row.responseSha))
                && s'.status == if next.Decided? && !s.status.Final? && s.status != Superseded
                                then Final(next.verdict) else s.status
  }

  /**
   A result that nobody disturbs is applied exactly if its status may follow the submission's and its
   response is new or the stored one. A verdict goes to the submission and to an undecided document.
   */
  lemma ResultOutcome(s: State, q: TaskId, next: SubmissionStatus, response: Option<Bytes>) returns (s': State)
    requires q !in s.results
    ensures Completes(s, Applying(q, next, response), s') && ResultAs(s, s', q, next, response)
  {
    LoneResult(s, q, next, response);
    s' := Receives(s, q, ProviderResult(next, response, ResultEnded), AppliedRows(RowsOf(s), next, response));
    if s.submission.Some? {
      TransitionSources(s.submission.value.status, next);
    }
    if response.Some? && Takes(s, ResponseKey, response.value) {
      SameObject(s.objects, ResponseKey, response.value);
    }
  }

  // -- The worker and the operator ---------------------------------------------------------

  /** A worker takes what is queued or due again; an operator supersedes what has no verdict. */
  lemma ClaimAndSupersede(s: State)
    ensures
      Apply(s, Claim) == match s.submission
        case None => s
        case Some(row) =>
          if row.status == Queued || row.status == TechnicalRetryPending
          then s.(submission := Some(row.(status := Submitting))) else s
    ensures
      Apply(s, Supersede) ==
        if s.status.Final? || s.status == Superseded then s else s.(status := Superseded)
  {}

  // -- Answers -----------------------------------------------------------------------------

  /** The calls of this name that have ended have ended later too, with the same answer. */
  ghost predicate AnswersKept(s: State, later: State, id: TaskId) {
    && (id in s.runs && s.runs[id].RunEnded? ==> id in later.runs && later.runs[id] == s.runs[id])
    && (id in s.results && s.results[id].phase.ResultEnded? ==>
          id in later.results && later.results[id] == s.results[id])
    && (id in s.submits && s.submits[id].SubmitEnded? ==> id in later.submits && later.submits[id] == s.submits[id])
  }

  lemma PreparingKeepsAnswers(s: State, r: TaskId, id: TaskId)
    ensures AnswersKept(s, DoStartRun(s, r), id)
    ensures AnswersKept(s, DoFailRun(s, r), id)
  {}

  lemma AdvancingKeepsAnswers(s: State, r: TaskId, bytes: Bytes, id: TaskId)
    ensures AnswersKept(s, DoAdvanceRun(s, r, bytes), id)
  {}

  lemma ReceivingKeepsAnswers(s: State, q: TaskId, next: SubmissionStatus, response: Option<Bytes>, id: TaskId)
    ensures AnswersKept(s, DoFetchResult(s, q, next, response), id)
    ensures AnswersKept(s, DoStoreResponse(s, q), id)
    ensures AnswersKept(s, DoCommitResult(s, q), id)
  {}

  lemma SubmittingKeepsAnswers(s: State, p: TaskId, id: TaskId)
    ensures AnswersKept(s, DoLoadSubmit(s, p), id)
    ensures AnswersKept(s, DoCreateSubmission(s, p), id)
    ensures AnswersKept(s, DoMarkQueued(s, p), id)
  {}

  lemma StepKeepsAnswers(s: State, step: Step, id: TaskId)
    ensures AnswersKept(s, Apply(s, step), id)
  {
    match step
    case StartRun(r) => PreparingKeepsAnswers(s, r, id);
    case AdvanceRun(r, bytes) => AdvancingKeepsAnswers(s, r, bytes, id);
    case FailRun(r) => PreparingKeepsAnswers(s, r, id);
    case FetchResult(q, next, response) => ReceivingKeepsAnswers(s, q, next, response, id);
    case StoreResponse(q) => ReceivingKeepsAnswers(s, q, Queued, None, id);
    case CommitResult(q) => ReceivingKeepsAnswers(s, q, Queued, None, id);
    case LoadSubmit(p) => SubmittingKeepsAnswers(s, p, id);
    case CreateSubmission(p) => SubmittingKeepsAnswers(s, p, id);
    case MarkQueued(p) => SubmittingKeepsAnswers(s, p, id);
    case Claim =>
    case Supersede =>
  }

  /** Whatever happens after a call has ended, it does not start again and its answer stays. */
  lemma {:induction false} EndedCallsStay(s: State, steps: seq<Step>, id: TaskId)
    ensures AnswersKept(s, Run(s, steps), id)
    decreases |steps|
  {
    if steps != [] {
      StepKeepsAnswers(s, steps[0], id);
      EndedCallsStay(Apply(s, steps[0]), steps[1..], id);
    }
  }
}
