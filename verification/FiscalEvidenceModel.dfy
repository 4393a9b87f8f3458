/**
 One fiscal document from XML preparation to its verdict: its row, its artifact and submission rows,
 and its stored objects. Preparation runs, provider results and submit requests interleave with
 separate reads and writes, and each may stop anywhere. An upload puts an object if there is none,
 and otherwise succeeds only on equal bytes. Documents share no rows and no keys.
 */
module FiscalEvidenceModel {
  import opened Common

  type Bytes = seq<nat>
  type TaskId = nat

  datatype Hash = Sha256(preimage: Bytes)

  datatype Verdict = Accepted | Rejected

  datatype DocumentStatus =
    | ReadyForXml
    | XmlGenerated
    | XmlValidated
    | Signed
    | ReadyToSubmit
    | Final(verdict: Verdict)
    | Superseded

  datatype SubmissionStatus =
    | Requested
    | Queued
    | Submitting
    | PostOutcomeUnknown
    | Acknowledged
    | Processing
    | TechnicalRetryPending
    | ManualReviewRequired
    | Decided(verdict: Verdict)
    | SubmissionSuperseded

  // -- The submission state machine --------------------------------------------------------

  datatype Transition = Applied | Refused | IgnoredStaleTerminal

  predicate IsTerminal(s: SubmissionStatus) {
    s.Decided? || s == SubmissionSuperseded
  }

  function AllowedTransitions(from: SubmissionStatus): set<SubmissionStatus> {
    match from
    case Requested => {Queued}
    case Queued => {Submitting}
    case Submitting =>
      {Acknowledged, Decided(Accepted), Decided(Rejected), PostOutcomeUnknown, TechnicalRetryPending,
          ManualReviewRequired}
    case PostOutcomeUnknown => {Processing, Decided(Accepted), Decided(Rejected), ManualReviewRequired}
    case Acknowledged => {Processing, Decided(Accepted), Decided(Rejected), TechnicalRetryPending}
    case Processing => {Decided(Accepted), Decided(Rejected), TechnicalRetryPending}
    case TechnicalRetryPending => {Queued}
    case ManualReviewRequired => {Queued, PostOutcomeUnknown}
    case Decided(_) => {}
    case SubmissionSuperseded => {}
  }

  predicate CanTransition(from: SubmissionStatus, to: SubmissionStatus) {
    from == to || to in AllowedTransitions(from)
  }

  function EvaluateTransition(from: SubmissionStatus, to: SubmissionStatus): Transition {
    if from == to then Applied
    else if IsTerminal(from) then IgnoredStaleTerminal
    else if CanTransition(from, to) then Applied
    else Refused
  }

  /**
   Applied are exactly the allowed transitions; terminal states allow none but themselves, and
   nothing leads to superseded.
   */
  lemma TransitionMeaning(from: SubmissionStatus, to: SubmissionStatus)
    ensures EvaluateTransition(from, to) == Applied <==> CanTransition(from, to)
    ensures IsTerminal(from) ==> (CanTransition(from, to) <==> to == from)
    ensures to == SubmissionSuperseded ==> (CanTransition(from, to) <==> from == SubmissionSuperseded)
  {}

  // -- Rows and tasks ----------------------------------------------------------------------

  datatype Artifact = Artifact(unsignedSha: Option<Hash>, signedSha: Option<Hash>)

  datatype Submission = Submission(status: SubmissionStatus, signedSha: Hash, responseSha: Option<Hash>)

  datatype Key = UnsignedKey | SignedKey | ResponseKey

  datatype RunPhase =
    | Loaded(hadArtifact: bool)
    | Attempted
    | UnsignedStored(bytes: Bytes)
    | Generated
    | Marked(bytes: Bytes)
    | SignedStored(bytes: Bytes)
    | RunEnded(ready: bool)

  datatype ResultPhase = Fetched(previous: Option<Hash>) | ResponseStored(sha: Option<Hash>) | ResultEnded

  datatype ProviderResult = ProviderResult(next: SubmissionStatus, response: Option<Bytes>, phase: ResultPhase)

  /** A submit request has read the hash it will submit, or the status of an existing submission. */
  datatype SubmitPhase = Chosen(sha: Hash) | Existing(status: SubmissionStatus) | SubmitEnded

  datatype State = State(
    status: DocumentStatus,
    artifact: Option<Artifact>,
    submission: Option<Submission>,
    objects: map<Key, Bytes>,
    runs: map<TaskId, RunPhase>,
    results: map<TaskId, ProviderResult>,
    submits: map<TaskId, SubmitPhase>)

  function Init(): State {
    State(ReadyForXml, None, None, map[], map[], map[], map[])
  }

  datatype Step =
    | StartRun(r: TaskId)
    | AdvanceRun(r: TaskId, bytes: Bytes)
    | FailRun(r: TaskId)
    | FetchResult(q: TaskId, next: SubmissionStatus, response: Option<Bytes>)
    | StoreResponse(q: TaskId)
    | CommitResult(q: TaskId)
    | LoadSubmit(p: TaskId)
    | CreateSubmission(p: TaskId)
    | MarkQueued(p: TaskId)
    | Claim
    | Supersede

  // -- XML preparation ---------------------------------------------------------------------

  predicate TerminalDocument(status: DocumentStatus) {
    status.Final? || status == Superseded
  }

  predicate AwaitsXml(status: DocumentStatus) {
    status in {ReadyForXml, XmlGenerated, XmlValidated, Signed}
  }

  function SetRun(s: State, r: TaskId, phase: RunPhase): State {
    s.(runs := s.runs[r := phase])
  }

  function DoStartRun(s: State, r: TaskId): State {
    if r in s.runs then s
    else if s.status == ReadyToSubmit && s.artifact.Some? && s.artifact.value.signedSha.Some?
    then SetRun(s, r, RunEnded(true))
    else if AwaitsXml(s.status) then SetRun(s, r, Loaded(s.artifact.Some?))
    else SetRun(s, r, RunEnded(false))
  }

  /** The artifact row is unique: of two runs that saw none, one fails to create it. */
  function DoAttempt(s: State, r: TaskId, hadArtifact: bool): State {
    if hadArtifact then SetRun(s, r, Attempted)
    else if s.artifact.Some? then SetRun(s, r, RunEnded(false))
    else SetRun(s, r, Attempted).(artifact := Some(Artifact(None, None)))
  }

  function DoStoreUnsigned(s: State, r: TaskId, bytes: Bytes): State {
    if PutSucceeds(s.objects, UnsignedKey, bytes)
    then SetRun(s, r, UnsignedStored(bytes)).(objects := Put(s.objects, UnsignedKey, bytes))
    else SetRun(s, r, RunEnded(false))
  }

  function DoGenerate(s: State, r: TaskId, bytes: Bytes): State {
    if TerminalDocument(s.status) || s.artifact.None? then SetRun(s, r, RunEnded(false))
    else SetRun(s, r, Generated).(
      status := XmlGenerated, artifact := Some(s.artifact.value.(unsignedSha := Some(Sha256(bytes)))))
  }

  /** Signing gives bytes that may differ from run to run. */
  function DoMark(s: State, r: TaskId, signedBytes: Bytes): State {
    if TerminalDocument(s.status) then SetRun(s, r, RunEnded(false))
    else SetRun(s, r, Marked(signedBytes)).(status := Signed)
  }

  function DoStoreSigned(s: State, r: TaskId, bytes: Bytes): State {
    if PutSucceeds(s.objects, SignedKey, bytes)
    then SetRun(s, r, SignedStored(bytes)).(objects := Put(s.objects, SignedKey, bytes))
    else SetRun(s, r, RunEnded(false))
  }

  /** The last transaction: hash and status together. */
  function DoComplete(s: State, r: TaskId, bytes: Bytes): State {
    if TerminalDocument(s.status) || s.artifact.None? then SetRun(s, r, RunEnded(false))
    else SetRun(s, r, RunEnded(true)).(
      status := ReadyToSubmit, artifact := Some(s.artifact.value.(signedSha := Some(Sha256(bytes)))))
  }

  function DoAdvanceRun(s: State, r: TaskId, bytes: Bytes): State {
    if r !in s.runs then s
    else match s.runs[r]
      case Loaded(hadArtifact) => DoAttempt(s, r, hadArtifact)
      case Attempted => DoStoreUnsigned(s, r, bytes)
      case UnsignedStored(stored) => DoGenerate(s, r, stored)
      case Generated => DoMark(s, r, bytes)
      case Marked(signedBytes) => DoStoreSigned(s, r, signedBytes)
      case SignedStored(stored) => DoComplete(s, r, stored)
      case RunEnded(_) => s
  }

  function DoFailRun(s: State, r: TaskId): State {
    if r in s.runs && !s.runs[r].RunEnded? then SetRun(s, r, RunEnded(false)) else s
  }

  // -- Provider results --------------------------------------------------------------------

  function SetResult(s: State, q: TaskId, phase: ResultPhase): State
    requires q in s.results
  {
    s.(results := s.results[q := s.results[q].(phase := phase)])
  }

  /** applyProviderResult reads the submission and evaluates the transition on what it read. */
  function DoFetchResult(s: State, q: TaskId, next: SubmissionStatus, response: Option<Bytes>): State {
    if q in s.results then s
    else
      var phase :=
        if s.submission.Some? && EvaluateTransition(s.submission.value.status, next) == Applied
        then Fetched(s.submission.value.responseSha) else ResultEnded;
      s.(results := s.results[q := ProviderResult(next, response, phase)])
  }

  function DoStoreResponse(s: State, q: TaskId): State {
    if q !in s.results || !s.results[q].phase.Fetched? then s
    else match s.results[q].response
      case None => SetResult(s, q, ResponseStored(s.results[q].phase.previous))
      case Some(bytes) =>
        if PutSucceeds(s.objects, ResponseKey, bytes)
        then SetResult(s, q, ResponseStored(Some(Sha256(bytes)))).(objects := Put(s.objects, ResponseKey, bytes))
        else SetResult(s, q, ResultEnded)
  }

  /** Both rows in one transaction, each guarded against terminal states. */
  function Decide(s: State, next: SubmissionStatus, sha: Option<Hash>): State
    requires s.submission.Some?
  {
    if IsTerminal(s.submission.value.status) then s
    else s.(
      submission := Some(s.submission.value.(status := next, responseSha := sha)),
      status := if next.Decided? && !TerminalDocument(s.status) then Final(next.verdict) else s.status)
  }

  function DoCommitResult(s: State, q: TaskId): State {
    if q !in s.results || !s.results[q].phase.ResponseStored? || s.submission.None? then s
    else SetResult(Decide(s, s.results[q].next, s.results[q].phase.sha), q, ResultEnded)
  }

  // -- Submitting --------------------------------------------------------------------------

  function SetSubmit(s: State, p: TaskId, phase: SubmitPhase): State {
    s.(submits := s.submits[p := phase])
  }

  function DoLoadSubmit(s: State, p: TaskId): State {
    if p in s.submits then s
    else if s.submission.Some? && IsTerminal(s.submission.value.status) then SetSubmit(s, p, SubmitEnded)
    else if s.status != ReadyToSubmit then SetSubmit(s, p, SubmitEnded)
    else if s.artifact.None? || s.artifact.value.signedSha.None? then SetSubmit(s, p, SubmitEnded)
    else if s.submission.Some? then SetSubmit(s, p, Existing(s.submission.value.status))
    else SetSubmit(s, p, Chosen(s.artifact.value.signedSha.value))
  }

  /** createOrLoadSubmission: a submission that exists by now is loaded, whatever its status. */
  function DoCreateSubmission(s: State, p: TaskId): State {
    if p !in s.submits || !s.submits[p].Chosen? then s
    else match s.submission
      case Some(existing) => SetSubmit(s, p, Existing(existing.status))
      case None =>
        SetSubmit(s, p, Existing(Requested)).(submission := Some(Submission(Requested, s.submits[p].sha, None)))
  }

  /** Statuses whose job is a reconciliation, or that have no job. */
  predicate NotForSubmission(status: SubmissionStatus) {
    status in {Acknowledged, Processing, PostOutcomeUnknown, Submitting}
  }

  /** markQueuedWhenSafeToSubmit decides on the status read before; its update has no guard. */
  function DoMarkQueued(s: State, p: TaskId): State {
    if p !in s.submits || !s.submits[p].Existing? || s.submission.None? then s
    else if NotForSubmission(s.submits[p].status) then SetSubmit(s, p, SubmitEnded)
    else SetSubmit(s, p, SubmitEnded).(submission := Some(s.submission.value.(status := Queued)))
  }

  function DoClaim(s: State): State {
    if s.submission.Some? && s.submission.value.status in {Queued, TechnicalRetryPending}
    then s.(submission := Some(s.submission.value.(status := Submitting))) else s
  }

  /** An operator supersedes a document that has no verdict. */
  function DoSupersede(s: State): State {
    if TerminalDocument(s.status) then s else s.(status := Superseded)
  }

  function Apply(s: State, step: Step): State {
    match step
    case StartRun(r) => DoStartRun(s, r)
    case AdvanceRun(r, bytes) => DoAdvanceRun(s, r, bytes)
    case FailRun(r) => DoFailRun(s, r)
    case FetchResult(q, next, response) => DoFetchResult(s, q, next, response)
    case StoreResponse(q) => DoStoreResponse(s, q)
    case CommitResult(q) => DoCommitResult(s, q)
    case LoadSubmit(p) => DoLoadSubmit(s, p)
    case CreateSubmission(p) => DoCreateSubmission(s, p)
    case MarkQueued(p) => DoMarkQueued(s, p)
    case Claim => DoClaim(s)
    case Supersede => DoSupersede(s)
  }

  function Run(s: State, steps: seq<Step>): State
    decreases |steps|
  {
    if steps == [] then s else Run(Apply(s, steps[0]), steps[1..])
  }
}
