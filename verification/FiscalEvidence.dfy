/** What every run keeps of the evidence and of the verdict of a fiscal document. */
module FiscalEvidence {
  import opened Common
  import opened FiscalEvidenceModel

  // -- Evidence ----------------------------------------------------------------------------

  predicate HashMatches(objects: map<Key, Bytes>, key: Key, sha: Hash) {
    key in objects && sha == Sha256(objects[key])
  }

  predicate RecordMatches(objects: map<Key, Bytes>, key: Key, sha: Option<Hash>) {
    sha.Some? ==> HashMatches(objects, key, sha.value)
  }

  predicate ArtifactOk(objects: map<Key, Bytes>, artifact: Option<Artifact>) {
    artifact.Some? ==>
      && RecordMatches(objects, UnsignedKey, artifact.value.unsignedSha)
      && RecordMatches(objects, SignedKey, artifact.value.signedSha)
  }

  predicate SubmissionOk(objects: map<Key, Bytes>, submission: Option<Submission>) {
    submission.Some? ==>
      && HashMatches(objects, SignedKey, submission.value.signedSha)
      && RecordMatches(objects, ResponseKey, submission.value.responseSha)
  }

  predicate RunOk(s: State, phase: RunPhase) {
    match phase
    case UnsignedStored(bytes) => UnsignedKey in s.objects && s.objects[UnsignedKey] == bytes
    case SignedStored(bytes) => SignedKey in s.objects && s.objects[SignedKey] == bytes
    case _ => true
  }

  predicate ResultOk(objects: map<Key, Bytes>, phase: ResultPhase) {
    match phase
    case Fetched(previous) => RecordMatches(objects, ResponseKey, previous)
    case ResponseStored(sha) => RecordMatches(objects, ResponseKey, sha)
    case ResultEnded => true
  }

  predicate SubmitOk(objects: map<Key, Bytes>, phase: SubmitPhase) {
    phase.Chosen? ==> HashMatches(objects, SignedKey, phase.sha)
  }

  predicate RecordsOk(s: State) {
    && ArtifactOk(s.objects, s.artifact)
    && SubmissionOk(s.objects, s.submission)
    && (s.status == ReadyToSubmit ==> s.artifact.Some? && s.artifact.value.signedSha.Some?)
  }

  ghost predicate Inv(s: State) {
    && RecordsOk(s)
    && (forall r :: r in s.runs ==> RunOk(s, s.runs[r]))
    && (forall q :: q in s.results ==> ResultOk(s.objects, s.results[q].phase))
    && (forall p :: p in s.submits ==> SubmitOk(s.objects, s.submits[p]))
  }

  /** Objects are put once and never changed. */
  ghost predicate Kept(objects: map<Key, Bytes>, objects': map<Key, Bytes>) {
    forall key :: key in objects ==> key in objects' && objects'[key] == objects[key]
  }

  lemma TasksKeep(s: State, s': State)
    requires Inv(s) && Kept(s.objects, s'.objects)
    ensures forall r :: r in s.runs ==> RunOk(s', s.runs[r])
    ensures forall q :: q in s.results ==> ResultOk(s'.objects, s.results[q].phase)
    ensures forall p :: p in s.submits ==> SubmitOk(s'.objects, s.submits[p])
  {
    forall r | r in s.runs ensures RunOk(s', s.runs[r]) {
      assert RunOk(s, s.runs[r]);
    }
    forall q | q in s.results ensures ResultOk(s'.objects, s.results[q].phase) {
      assert ResultOk(s.objects, s.results[q].phase);
    }
    forall p | p in s.submits ensures SubmitOk(s'.objects, s.submits[p]) {
      assert SubmitOk(s.objects, s.submits[p]);
    }
  }

  lemma RunStepKeeps(s: State, s': State, r: TaskId)
    requires Inv(s) && Kept(s.objects, s'.objects) && RecordsOk(s')
    requires s'.results == s.results && s'.submits == s.submits
    requires r in s'.runs && s'.runs == s.runs[r := s'.runs[r]] && RunOk(s', s'.runs[r])
    ensures Inv(s')
  {
    TasksKeep(s, s');
  }

  /** The rows stay true, objects stay, and the run knows what it stored. */
  ghost predicate RunStepOk(s: State, s': State, r: TaskId) {
    && Kept(s.objects, s'.objects) && RecordsOk(s')
    && s'.results == s.results && s'.submits == s.submits
    && r in s'.runs && s'.runs == s.runs[r := s'.runs[r]] && RunOk(s', s'.runs[r])
  }

  lemma AttemptOk(s: State, r: TaskId, hadArtifact: bool)
    requires RecordsOk(s)
    ensures RunStepOk(s, DoAttempt(s, r, hadArtifact), r)
  {}

  lemma StoreUnsignedOk(s: State, r: TaskId, bytes: Bytes)
    requires RecordsOk(s)
    ensures RunStepOk(s, DoStoreUnsigned(s, r, bytes), r)
  {}

  lemma GenerateOk(s: State, r: TaskId, bytes: Bytes)
    requires RecordsOk(s) && RunOk(s, UnsignedStored(bytes))
    ensures RunStepOk(s, DoGenerate(s, r, bytes), r)
  {}

  lemma MarkOk(s: State, r: TaskId, bytes: Bytes)
    requires RecordsOk(s)
    ensures RunStepOk(s, DoMark(s, r, bytes), r)
  {}

  lemma StoreSignedOk(s: State, r: TaskId, bytes: Bytes)
    requires RecordsOk(s)
    ensures RunStepOk(s, DoStoreSigned(s, r, bytes), r)
  {}

  lemma CompleteOk(s: State, r: TaskId, bytes: Bytes)
    requires RecordsOk(s) && RunOk(s, SignedStored(bytes))
    ensures RunStepOk(s, DoComplete(s, r, bytes), r)
  {}

  lemma AdvanceRunOk(s: State, r: TaskId, bytes: Bytes)
    requires RecordsOk(s) && r in s.runs && RunOk(s, s.runs[r])
    ensures RunStepOk(s, DoAdvanceRun(s, r, bytes), r)
  {
    match s.runs[r]
    case Loaded(hadArtifact) => AttemptOk(s, r, hadArtifact);
    case Attempted => StoreUnsignedOk(s, r, bytes);
    case UnsignedStored(stored) => GenerateOk(s, r, stored);
    case Generated => MarkOk(s, r, bytes);
    case Marked(signedBytes) => StoreSignedOk(s, r, signedBytes);
    case SignedStored(stored) => CompleteOk(s, r, stored);
    case RunEnded(_) => assert s.runs == s.runs[r := s.runs[r]];
  }

  lemma AdvanceRunKeeps(s: State, r: TaskId, bytes: Bytes)
    requires Inv(s) && r in s.runs
    ensures Inv(DoAdvanceRun(s, r, bytes))
  {
    assert RunOk(s, s.runs[r]);
    AdvanceRunOk(s, r, bytes);
    RunStepKeeps(s, DoAdvanceRun(s, r, bytes), r);
  }

  lemma StoreResponseKeeps(s: State, q: TaskId)
    requires Inv(s)
    ensures Inv(DoStoreResponse(s, q))
  {
    if q in s.results {
      assert ResultOk(s.objects, s.results[q].phase);
      TasksKeep(s, DoStoreResponse(s, q));
    }
  }

  lemma CommitResultKeeps(s: State, q: TaskId)
    requires Inv(s)
    ensures Inv(DoCommitResult(s, q))
  {
    if q in s.results {
      assert ResultOk(s.objects, s.results[q].phase);
    }
  }

  lemma LoadSubmitKeeps(s: State, p: TaskId)
    requires Inv(s)
    ensures Inv(DoLoadSubmit(s, p))
  {}

  lemma CreateSubmissionKeeps(s: State, p: TaskId)
    requires Inv(s)
    ensures Inv(DoCreateSubmission(s, p))
  {
    if p in s.submits {
      assert SubmitOk(s.objects, s.submits[p]);
    }
  }

  lemma MarkQueuedKeeps(s: State, p: TaskId)
    requires Inv(s)
    ensures Inv(DoMarkQueued(s, p))
  {}

  lemma FetchResultKeeps(s: State, q: TaskId, next: SubmissionStatus, response: Option<Bytes>)
    requires Inv(s)
    ensures Inv(DoFetchResult(s, q, next, response))
  {}

  lemma StepKeeps(s: State, step: Step)
    requires Inv(s)
    ensures Inv(Apply(s, step))
  {
    match step
    case StartRun(r) => if r !in s.runs { RunStepKeeps(s, DoStartRun(s, r), r); }
    case AdvanceRun(r, bytes) => if r in s.runs { AdvanceRunKeeps(s, r, bytes); }
    case FailRun(r) => if DoFailRun(s, r) != s { RunStepKeeps(s, DoFailRun(s, r), r); }
    case FetchResult(q, next, response) => FetchResultKeeps(s, q, next, response);
    case StoreResponse(q) => StoreResponseKeeps(s, q);
    case CommitResult(q) => CommitResultKeeps(s, q);
    case LoadSubmit(p) => LoadSubmitKeeps(s, p);
    case CreateSubmission(p) => CreateSubmissionKeeps(s, p);
    case MarkQueued(p) => MarkQueuedKeeps(s, p);
    case Claim =>
    case Supersede =>
  }

  lemma {:induction false} RunKeeps(s: State, steps: seq<Step>)
    requires Inv(s)
    ensures Inv(Run(s, steps))
    decreases |steps|
  {
    if steps == [] {
    } else {
      StepKeeps(s, steps[0]);
      RunKeeps(Apply(s, steps[0]), steps[1..]);
    }
  }

  lemma ObjectsStay(s: State, step: Step)
    ensures Kept(s.objects, Apply(s, step).objects)
  {}

  lemma {:induction false} ObjectsStayForever(s: State, steps: seq<Step>)
    ensures Kept(s.objects, Run(s, steps).objects)
    decreases |steps|
  {
    if steps == [] {
    } else {
      ObjectsStay(s, steps[0]);
      ObjectsStayForever(Apply(s, steps[0]), steps[1..]);
    }
  }

  /**
   Every recorded hash is the hash of the bytes at its key, in the artifact and as copied into the
   submission, at that time and for all time; and a document ready to submit has one recorded.
   */
  lemma RecordedHashesAreForever(steps: seq<Step>, more: seq<Step>)
    ensures
      var s := Run(Init(), steps);
      var later := Run(s, more);
      && ArtifactOk(later.objects, s.artifact) && SubmissionOk(later.objects, s.submission)
      && ArtifactOk(s.objects, s.artifact) && SubmissionOk(s.objects, s.submission)
      && (s.status == ReadyToSubmit ==> s.artifact.Some? && s.artifact.value.signedSha.Some?)
  {
    RunKeeps(Init(), steps);
    ObjectsStayForever(Run(Init(), steps), more);
  }

  /** What is submitted is what was recorded: the two copies of the signed hash never differ. */
  lemma SubmittedIsRecorded(steps: seq<Step>)
    requires
      var s := Run(Init(), steps);
      s.submission.Some? && s.artifact.Some? && s.artifact.value.signedSha.Some?
    ensures Run(Init(), steps).submission.value.signedSha == Run(Init(), steps).artifact.value.signedSha.value
  {
    RunKeeps(Init(), steps);
  }

  // -- Verdicts ----------------------------------------------------------------------------

  /** A mark that does not hit a decided submission. */
  predicate MarkIsSafe(s: State, step: Step) {
    step.MarkQueued? && step.p in s.submits && s.submits[step.p].Existing? && s.submission.Some?
      && !NotForSubmission(s.submits[step.p].status)
    ==> !IsTerminal(s.submission.value.status)
  }

  predicate SafeRun(s: State, steps: seq<Step>)
    decreases |steps|
  {
    steps == [] || (MarkIsSafe(s, steps[0]) && SafeRun(Apply(s, steps[0]), steps[1..]))
  }

  predicate RunStep(step: Step) {
    step.StartRun? || step.AdvanceRun? || step.FailRun?
  }

  lemma AdvanceRunKeepsVerdict(s: State, r: TaskId, bytes: Bytes)
    ensures
      var s' := DoAdvanceRun(s, r, bytes);
      && s'.submission == s.submission && s'.results == s.results && s'.submits == s.submits
      && (s'.status == s.status || (!TerminalDocument(s.status) && !TerminalDocument(s'.status)))
  {}

  /** Preparation never touches a submission, nor a document in a terminal state. */
  lemma RunStepsKeepVerdict(s: State, step: Step)
    requires RunStep(step)
    ensures
      var s' := Apply(s, step);
      && s'.submission == s.submission && s'.results == s.results && s'.submits == s.submits
      && (s'.status == s.status || (!TerminalDocument(s.status) && !TerminalDocument(s'.status)))
  {
    if step.AdvanceRun? {
      AdvanceRunKeepsVerdict(s, step.r, step.bytes);
    }
  }

  lemma OtherStepsKeepDocument(s: State, step: Step)
    requires !RunStep(step)
    ensures TerminalDocument(s.status) ==> Apply(s, step).status == s.status
    ensures Apply(s, step).status == Superseded && s.status != Superseded ==> step == Supersede
  {}

  /** The verdict of a document is never left, whatever happens. */
  lemma DocumentVerdictIsFinal(s: State, step: Step)
    requires s.status.Final?
    ensures Apply(s, step).status == s.status
  {
    if RunStep(step) {
      RunStepsKeepVerdict(s, step);
    } else {
      OtherStepsKeepDocument(s, step);
    }
  }

  lemma OtherStepsKeepSubmission(s: State, step: Step)
    requires !RunStep(step) && s.submission.Some? && s.submission.value.status.Decided?
    ensures Apply(s, step).submission.Some?
    ensures Apply(s, step).submission.value.status == s.submission.value.status <==> MarkIsSafe(s, step)
  {}

  /** The verdict of a submission is left exactly by a mark that does not see it. */
  lemma SubmissionVerdictIsFinal(s: State, step: Step)
    requires s.submission.Some? && s.submission.value.status.Decided?
    ensures Apply(s, step).submission.Some?
    ensures Apply(s, step).submission.value.status == s.submission.value.status <==> MarkIsSafe(s, step)
  {
    if RunStep(step) {
      RunStepsKeepVerdict(s, step);
    } else {
      OtherStepsKeepSubmission(s, step);
    }
  }

  predicate DecidedAs(s: State, v: Verdict) {
    s.submission.Some? && s.submission.value.status == Decided(v)
  }

  /** A document with a verdict has its submission's; a decided submission has its document's, unless superseded. */
  ghost predicate Agree(s: State) {
    && (forall v :: s.status == Final(v) ==> DecidedAs(s, v))
    && (forall v :: DecidedAs(s, v) ==> s.status == Final(v) || s.status == Superseded)
    && (s.submission.Some? ==> s.submission.value.status != SubmissionSuperseded)
    && (forall q :: q in s.results && !s.results[q].phase.ResultEnded? ==> s.results[q].next != SubmissionSuperseded)
  }

  lemma FetchKeepsAgree(s: State, q: TaskId, next: SubmissionStatus, response: Option<Bytes>)
    requires Agree(s)
    ensures Agree(DoFetchResult(s, q, next, response))
  {
    if s.submission.Some? {
      TransitionMeaning(s.submission.value.status, next);
    }
  }

  lemma CommitKeepsAgree(s: State, q: TaskId)
    requires Agree(s)
    ensures Agree(DoCommitResult(s, q))
  {}

  lemma StoreKeepsAgree(s: State, q: TaskId)
    requires Agree(s)
    ensures Agree(DoStoreResponse(s, q))
  {}

  lemma SubmitKeepsAgree(s: State, step: Step)
    requires Agree(s) && MarkIsSafe(s, step)
    requires step.LoadSubmit? || step.CreateSubmission? || step.MarkQueued? || step.Claim? || step.Supersede?
    ensures Agree(Apply(s, step))
  {}

  lemma RunStepKeepsAgree(s: State, step: Step)
    requires Agree(s) && RunStep(step)
    ensures Agree(Apply(s, step))
  {
    RunStepsKeepVerdict(s, step);
  }

  lemma StepKeepsAgree(s: State, step: Step)
    requires Agree(s) && MarkIsSafe(s, step)
    ensures Agree(Apply(s, step))
  {
    if RunStep(step) {
      RunStepKeepsAgree(s, step);
    } else if step.FetchResult? {
      FetchKeepsAgree(s, step.q, step.next, step.response);
    } else if step.CommitResult? {
      CommitKeepsAgree(s, step.q);
    } else if step.StoreResponse? {
      StoreKeepsAgree(s, step.q);
    } else {
      SubmitKeepsAgree(s, step);
    }
  }

  lemma {:induction false} RunKeepsAgree(s: State, steps: seq<Step>)
    requires Agree(s) && SafeRun(s, steps)
    ensures Agree(Run(s, steps))
    decreases |steps|
  {
    if steps == [] {
    } else {
      StepKeepsAgree(s, steps[0]);
      RunKeepsAgree(Apply(s, steps[0]), steps[1..]);
    }
  }

  lemma NotSuperseded(s: State, step: Step)
    requires s.status != Superseded && step != Supersede
    ensures Apply(s, step).status != Superseded
  {
    if RunStep(step) {
      RunStepsKeepVerdict(s, step);
    } else {
      OtherStepsKeepDocument(s, step);
    }
  }

  lemma {:induction false} NeverSuperseded(s: State, steps: seq<Step>)
    requires s.status != Superseded && Supersede !in steps
    ensures Run(s, steps).status != Superseded
    decreases |steps|
  {
    if steps == [] {
    } else {
      assert steps[0] in steps;
      NotSuperseded(s, steps[0]);
      NeverSuperseded(Apply(s, steps[0]), steps[1..]);
    }
  }

  /** Without superseding, a document and its submission always carry the same verdict, or neither has one. */
  lemma VerdictsAgree(steps: seq<Step>, v: Verdict)
    requires SafeRun(Init(), steps) && Supersede !in steps
    ensures Run(Init(), steps).status == Final(v) <==> DecidedAs(Run(Init(), steps), v)
  {
    RunKeepsAgree(Init(), steps);
    NeverSuperseded(Init(), steps);
  }

  /** Once decided, a document and its submission keep their verdict over every further safe run. */
  lemma {:induction false} VerdictsAreForever(s: State, steps: seq<Step>)
    requires SafeRun(s, steps)
    ensures s.status.Final? ==> Run(s, steps).status == s.status
    ensures s.submission.Some? && s.submission.value.status.Decided? ==>
              Run(s, steps).submission.Some? && Run(s, steps).submission.value.status == s.submission.value.status
    decreases |steps|
  {
    if steps == [] {
    } else {
      if s.submission.Some? && s.submission.value.status.Decided? {
        SubmissionVerdictIsFinal(s, steps[0]);
      }
      if s.status.Final? {
        DocumentVerdictIsFinal(s, steps[0]);
      }
      VerdictsAreForever(Apply(s, steps[0]), steps[1..]);
    }
  }

  // -- Where it falls short ----------------------------------------------------------------

  ghost predicate Reachable(s: State) {
    exists steps :: Run(Init(), steps) == s
  }

  lemma {:induction false} RunThen(start: State, steps: seq<Step>, step: Step)
    ensures Run(start, steps + [step]) == Apply(Run(start, steps), step)
    decreases |steps|
  {
    if steps == [] {
      assert Run(start, [step]) == Run(Apply(start, step), []);
    } else {
      assert (steps + [step])[1..] == steps[1..] + [step];
      RunThen(Apply(start, steps[0]), steps[1..], step);
    }
  }

  lemma Extend(s: State, step: Step) returns (s': State)
    requires Reachable(s)
    ensures Reachable(s') && s' == Apply(s, step)
  {
    var steps :| Run(Init(), steps) == s;
    RunThen(Init(), steps, step);
    s' := Apply(s, step);
  }

  /** The states of one undisturbed preparation run. */
  function Stage(status: DocumentStatus, artifact: Option<Artifact>, objects: map<Key, Bytes>, phase: RunPhase): State {
    State(status, artifact, None, objects, map[0 := phase], map[], map[])
  }

  lemma HalfPrepared(unsigned: Bytes)
    ensures Reachable(Stage(ReadyForXml, Some(Artifact(None, None)), map[UnsignedKey := unsigned],
        UnsignedStored(unsigned)))
  {
    assert Run(Init(), []) == Init();
    var s := Extend(Init(), StartRun(0));
    assert s == Stage(ReadyForXml, None, map[], Loaded(false));
    s := Extend(s, AdvanceRun(0, []));
    assert s == Stage(ReadyForXml, Some(Artifact(None, None)), map[], Attempted);
    s := Extend(s, AdvanceRun(0, unsigned));
    assert s == Stage(ReadyForXml, Some(Artifact(None, None)), map[UnsignedKey := unsigned], UnsignedStored(unsigned));
  }

  lemma SignedStage(unsigned: Bytes, signedXml: Bytes)
    ensures Reachable(Stage(Signed, Some(Artifact(Some(Sha256(unsigned)), None)), map[UnsignedKey := unsigned],
        Marked(signedXml)))
  {
    HalfPrepared(unsigned);
    var s := Extend(
      Stage(ReadyForXml, Some(Artifact(None, None)), map[UnsignedKey := unsigned], UnsignedStored(unsigned)),
          AdvanceRun(0, []));
    assert s == Stage(XmlGenerated, Some(Artifact(Some(Sha256(unsigned)), None)), map[UnsignedKey := unsigned],
        Generated);
    s := Extend(s, AdvanceRun(0, signedXml));
    assert s == Stage(Signed, Some(Artifact(Some(Sha256(unsigned)), None)), map[UnsignedKey := unsigned],
        Marked(signedXml));
  }

  function ReadyStage(unsigned: Bytes, signedXml: Bytes): State {
    Stage(ReadyToSubmit, Some(Artifact(Some(Sha256(unsigned)), Some(Sha256(signedXml)))),
          map[UnsignedKey := unsigned, SignedKey := signedXml], RunEnded(true))
  }

  /** A prepared document: both texts are stored and recorded. */
  lemma Prepared(unsigned: Bytes, signedXml: Bytes)
    ensures Reachable(ReadyStage(unsigned, signedXml))
  {
    SignedStage(unsigned, signedXml);
    var objects := map[UnsignedKey := unsigned, SignedKey := signedXml];
    var s := Extend(
      Stage(Signed, Some(Artifact(Some(Sha256(unsigned)), None)), map[UnsignedKey := unsigned], Marked(signedXml)),
          AdvanceRun(0, []));
    assert s == Stage(Signed, Some(Artifact(Some(Sha256(unsigned)), None)), objects, SignedStored(signedXml));
    s := Extend(s, AdvanceRun(0, []));
    assert s == ReadyStage(unsigned, signedXml);
  }

  /** A prepared document with a queued submission and two submit requests. */
  function QueuedStage(unsigned: Bytes, signedXml: Bytes, other: SubmitPhase): State {
    ReadyStage(unsigned, signedXml).(
      submission := Some(Submission(Queued, Sha256(signedXml), None)),
      submits := map[0 := SubmitEnded, 1 := other])
  }

  function DecidedStage(unsigned: Bytes, signedXml: Bytes, other: SubmitPhase): State {
    QueuedStage(unsigned, signedXml, other).(
      status := Final(Accepted),
      submission := Some(Submission(Decided(Accepted), Sha256(signedXml), None)),
      results := map[0 := ProviderResult(Decided(Accepted), None, ResultEnded)])
  }

  function ClaimedStage(
    unsigned: Bytes, signedXml: Bytes, other: SubmitPhase, results: map<TaskId, ProviderResult>): State
  {
    QueuedStage(unsigned, signedXml, other).(
      submission := Some(Submission(Submitting, Sha256(signedXml), None)), results := results)
  }

  function AcceptedResult(phase: ResultPhase): map<TaskId, ProviderResult> {
    map[0 := ProviderResult(Decided(Accepted), None, phase)]
  }

  lemma GetsAnswer(unsigned: Bytes, signedXml: Bytes, other: SubmitPhase)
    requires Reachable(QueuedStage(unsigned, signedXml, other))
    ensures Reachable(ClaimedStage(unsigned, signedXml, other, AcceptedResult(Fetched(None))))
  {
    var s := Extend(QueuedStage(unsigned, signedXml, other), Claim);
    assert s == ClaimedStage(unsigned, signedXml, other, map[]);
    s := Extend(s, FetchResult(0, Decided(Accepted), None));
    assert s == ClaimedStage(unsigned, signedXml, other, AcceptedResult(Fetched(None)));
  }

  lemma StoresNothing(unsigned: Bytes, signedXml: Bytes, other: SubmitPhase)
    requires Reachable(ClaimedStage(unsigned, signedXml, other, AcceptedResult(Fetched(None))))
    ensures Reachable(ClaimedStage(unsigned, signedXml, other, AcceptedResult(ResponseStored(None))))
  {
    var s := Extend(ClaimedStage(unsigned, signedXml, other, AcceptedResult(Fetched(None))), StoreResponse(0));
    assert s == ClaimedStage(unsigned, signedXml, other, AcceptedResult(ResponseStored(None)));
  }

  lemma GetsVerdict(unsigned: Bytes, signedXml: Bytes, other: SubmitPhase)
    requires Reachable(QueuedStage(unsigned, signedXml, other))
    ensures Reachable(DecidedStage(unsigned, signedXml, other))
  {
    GetsAnswer(unsigned, signedXml, other);
    StoresNothing(unsigned, signedXml, other);
    var s := Extend(ClaimedStage(unsigned, signedXml, other, AcceptedResult(ResponseStored(None))), CommitResult(0));
    assert s == DecidedStage(unsigned, signedXml, other);
  }

  function RequestedStage(unsigned: Bytes, signedXml: Bytes, submits: map<TaskId, SubmitPhase>): State {
    ReadyStage(unsigned, signedXml).(
      submission := Some(Submission(Requested, Sha256(signedXml), None)), submits := submits)
  }

  function ChosenStage(unsigned: Bytes, signedXml: Bytes, submits: map<TaskId, SubmitPhase>): State {
    ReadyStage(unsigned, signedXml).(submits := submits)
  }

  lemma FirstChooses(unsigned: Bytes, signedXml: Bytes)
    ensures Reachable(ChosenStage(unsigned, signedXml, map[0 := Chosen(Sha256(signedXml))]))
  {
    Prepared(unsigned, signedXml);
    var s := Extend(ReadyStage(unsigned, signedXml), LoadSubmit(0));
    assert s == ChosenStage(unsigned, signedXml, map[0 := Chosen(Sha256(signedXml))]);
  }

  lemma FirstMarks(unsigned: Bytes, signedXml: Bytes, other: SubmitPhase)
    requires Reachable(RequestedStage(unsigned, signedXml, map[0 := Existing(Requested), 1 := other]))
    ensures Reachable(QueuedStage(unsigned, signedXml, other))
  {
    var s := Extend(RequestedStage(unsigned, signedXml, map[0 := Existing(Requested), 1 := other]), MarkQueued(0));
    assert s == QueuedStage(unsigned, signedXml, other);
  }

  /** The second request loads the submission the first one created. */
  lemma SecondLoads(unsigned: Bytes, signedXml: Bytes)
    ensures Reachable(QueuedStage(unsigned, signedXml, Existing(Requested)))
  {
    FirstChooses(unsigned, signedXml);
    var s := Extend(ChosenStage(unsigned, signedXml, map[0 := Chosen(Sha256(signedXml))]), CreateSubmission(0));
    assert s == RequestedStage(unsigned, signedXml, map[0 := Existing(Requested)]);
    s := Extend(s, LoadSubmit(1));
    assert s == RequestedStage(unsigned, signedXml, map[0 := Existing(Requested), 1 := Existing(Requested)]);
    FirstMarks(unsigned, signedXml, Existing(Requested));
  }

  /** The second request finds no submission either, before the first one creates it. */
  lemma SecondChooses(unsigned: Bytes, signedXml: Bytes)
    ensures Reachable(QueuedStage(unsigned, signedXml, Chosen(Sha256(signedXml))))
  {
    FirstChooses(unsigned, signedXml);
    var chosen := Chosen(Sha256(signedXml));
    var s := Extend(ChosenStage(unsigned, signedXml, map[0 := chosen]), LoadSubmit(1));
    assert s == ChosenStage(unsigned, signedXml, map[0 := chosen, 1 := chosen]);
    s := Extend(s, CreateSubmission(0));
    assert s == RequestedStage(unsigned, signedXml, map[0 := Existing(Requested), 1 := chosen]);
    FirstMarks(unsigned, signedXml, chosen);
  }

  /**
   Two submit requests load the submission; one marks it, a worker submits it, and it is accepted;
   then the other marks it queued again, on what it had read before.
   */
  lemma StaleMarkReopensAccepted(unsigned: Bytes, signedXml: Bytes)
    ensures exists s ::
      Reachable(s) && s.status == Final(Accepted) && s.submission.Some? && s.submission.value.status == Queued
  {
    SecondLoads(unsigned, signedXml);
    GetsVerdict(unsigned, signedXml, Existing(Requested));
    var s := Extend(DecidedStage(unsigned, signedXml, Existing(Requested)), MarkQueued(1));
  }

  /**
   Even with the mark at the same instant as the load: a request that loses the creation loads the
   accepted submission without looking at its status, and marks it queued.
   */
  lemma LoadedAcceptedIsRequeued(unsigned: Bytes, signedXml: Bytes)
    ensures exists s ::
      && Reachable(s) && DecidedAs(s, Accepted) && 1 in s.submits && s.submits[1].Chosen?
      && DoMarkQueued(DoCreateSubmission(s, 1), 1).submission.Some?
      && DoMarkQueued(DoCreateSubmission(s, 1), 1).submission.value.status == Queued
  {
    SecondChooses(unsigned, signedXml);
    GetsVerdict(unsigned, signedXml, Chosen(Sha256(signedXml)));
    var s := DecidedStage(unsigned, signedXml, Chosen(Sha256(signedXml)));
    assert DecidedAs(s, Accepted) && s.submits[1].Chosen?;
  }
}
