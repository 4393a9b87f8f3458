/**
 The services over one fiscal document in the form of the code: methods over its rows and objects,
 awaiting one call after the other, while everybody else may take any number of steps.
 */
module FiscalEvidenceService {
  import opened Common
  import opened FiscalEvidenceModel
  import opened FiscalEvidence
  import opened FiscalEvidenceCalls

  datatype PrepareOutcome = Ready | NotReady

  datatype SubmitOutcome = SubmittedAs(status: SubmissionStatus) | DocumentNotReady | ArtifactRequired

  class FiscalDocumentCase {
    var status: DocumentStatus
    var artifact: Option<Artifact>
    var submission: Option<Submission>
    var objects: map<Key, Bytes>
    /** The rows and objects together with all calls under way. */
    var state: State

    ghost predicate Valid()
      reads this
    {
      && status == state.status && artifact == state.artifact && submission == state.submission
      && objects == state.objects && Inv(state)
    }

    constructor ()
      ensures Valid() && state == Init()
    {
      status, artifact, submission, objects, state := ReadyForXml, None, None, map[], Init();
    }

    /** While one call awaits, everybody else may take any number of steps. */
    method Await(t: Task, others: seq<Step>)
      requires Valid() && Foreign(others, t)
      modifies this
      ensures Valid() && state == Run(old(state), others) && SameTask(old(state), state, t)
    {
      OthersKeepTask(state, others, t);
      RunKeeps(state, others);
      state := Run(state, others);
      status, artifact, submission, objects := state.status, state.artifact, state.submission, state.objects;
    }

    /** The put-if-absent that every upload refines. */
    method Upload(key: Key, bytes: Bytes) returns (ok: bool)
      modifies this`objects
      ensures ok == PutSucceeds(old(objects), key, bytes)
      ensures objects == Put(old(objects), key, bytes)
    {
      if key in objects {
        return objects[key] == bytes;
      }
      objects := objects[key := bytes];
      return true;
    }

    ghost predicate Waits(others: seq<seq<Step>>, t: Task) {
      others != [] && Foreign(others[0], t)
    }

    ghost predicate AllForeign(others: seq<seq<Step>>, t: Task) {
      forall i :: 0 <= i < |others| ==> Foreign(others[i], t)
    }

    // -- Preparing -------------------------------------------------------------------------

    ghost predicate RunAt(r: TaskId, phase: RunPhase)
      reads this
    {
      r in state.runs && state.runs[r] == phase
    }

    /** The query, the answer for a prepared document, and the status check. */
    method LoadDocument(r: TaskId, io: Answers, others: seq<seq<Step>>) returns (phase: RunPhase)
      requires Valid() && r !in state.runs && Waits(others, Preparing(r, io))
      modifies this
      ensures Valid() && Turned(old(state), state, Preparing(r, io), others)
      ensures RunAt(r, phase) && (phase.Loaded? || phase.RunEnded?)
    {
      PlayTurn(state, Preparing(r, io), others);
      Await(Preparing(r, io), others[0]);
      StepKeeps(state, StartRun(r));
      if status == ReadyToSubmit && artifact.Some? && artifact.value.signedSha.Some? {
        phase := RunEnded(true);
      } else if AwaitsXml(status) {
        phase := Loaded(artifact.Some?);
      } else {
        phase := RunEnded(false);
      }
      state := Apply(state, StartRun(r));
    }

    /** Anything else that throws ends the run. */
    method Fail(r: TaskId, io: Answers, phase: RunPhase, others: seq<seq<Step>>)
      requires Valid() && RunAt(r, phase) && NextRunStep(phase, r, io) == Some(FailRun(r))
      requires Waits(others, Preparing(r, io))
      modifies this
      ensures Valid() && RunAt(r, RunEnded(false)) && Turned(old(state), state, Preparing(r, io), others)
    {
      PlayTurn(state, Preparing(r, io), others);
      Await(Preparing(r, io), others[0]);
      StepKeeps(state, FailRun(r));
      state := Apply(state, FailRun(r));
    }

    /** upsertAttemptArtifact: of two runs that saw no artifact, one fails to create it. */
    method RecordAttempt(r: TaskId, io: Answers, hadArtifact: bool, others: seq<seq<Step>>) returns (ok: bool)
      requires Valid() && RunAt(r, Loaded(hadArtifact)) && io.storageReady && Waits(others, Preparing(r, io))
      modifies this
      ensures Valid() && Turned(old(state), state, Preparing(r, io), others)
      ensures RunAt(r, if ok then Attempted else RunEnded(false))
    {
      PlayTurn(state, Preparing(r, io), others);
      Await(Preparing(r, io), others[0]);
      StepKeeps(state, AdvanceRun(r, []));
      ok := hadArtifact || artifact.None?;
      if !hadArtifact && artifact.None? {
        artifact := Some(Artifact(None, None));
      }
      state := Apply(state, AdvanceRun(r, []));
    }

    method StoreUnsigned(r: TaskId, io: Answers, bytes: Bytes, others: seq<seq<Step>>) returns (ok: bool)
      requires Valid() && RunAt(r, Attempted) && io.unsigned == Some(bytes) && Waits(others, Preparing(r, io))
      modifies this
      ensures Valid() && Turned(old(state), state, Preparing(r, io), others)
      ensures RunAt(r, if ok then UnsignedStored(bytes) else RunEnded(false))
    {
      PlayTurn(state, Preparing(r, io), others);
      Await(Preparing(r, io), others[0]);
      StepKeeps(state, AdvanceRun(r, bytes));
      ok := Upload(UnsignedKey, bytes);
      state := Apply(state, AdvanceRun(r, bytes));
    }

    /** The first transaction: the guarded status, and the hash of the unsigned text. */
    method RecordGenerated(r: TaskId, io: Answers, bytes: Bytes, others: seq<seq<Step>>) returns (ok: bool)
      requires Valid() && RunAt(r, UnsignedStored(bytes)) && Waits(others, Preparing(r, io))
      modifies this
      ensures Valid() && Turned(old(state), state, Preparing(r, io), others)
      ensures RunAt(r, if ok then Generated else RunEnded(false))
    {
      PlayTurn(state, Preparing(r, io), others);
      Await(Preparing(r, io), others[0]);
      StepKeeps(state, AdvanceRun(r, []));
      ok := !TerminalDocument(status) && artifact.Some?;
      if ok {
        status, artifact := XmlGenerated, Some(artifact.value.(unsignedSha := Some(Sha256(bytes))));
      }
      state := Apply(state, AdvanceRun(r, []));
    }

    /** advanceDocumentStatus */
    method AdvanceDocumentStatus(r: TaskId, io: Answers, signedXml: Bytes, others: seq<seq<Step>>) returns (ok: bool)
      requires Valid() && RunAt(r, Generated) && io.signedXml == Some(signedXml) && Waits(others, Preparing(r, io))
      modifies this
      ensures Valid() && Turned(old(state), state, Preparing(r, io), others)
      ensures RunAt(r, if ok then Marked(signedXml) else RunEnded(false))
    {
      PlayTurn(state, Preparing(r, io), others);
      Await(Preparing(r, io), others[0]);
      StepKeeps(state, AdvanceRun(r, signedXml));
      ok := !TerminalDocument(status);
      if ok {
        status := Signed;
      }
      state := Apply(state, AdvanceRun(r, signedXml));
    }

    method StoreSigned(r: TaskId, io: Answers, signedXml: Bytes, others: seq<seq<Step>>) returns (ok: bool)
      requires Valid() && RunAt(r, Marked(signedXml)) && io.valid && Waits(others, Preparing(r, io))
      modifies this
      ensures Valid() && Turned(old(state), state, Preparing(r, io), others)
      ensures RunAt(r, if ok then SignedStored(signedXml) else RunEnded(false))
    {
      PlayTurn(state, Preparing(r, io), others);
      Await(Preparing(r, io), others[0]);
      StepKeeps(state, AdvanceRun(r, []));
      ok := Upload(SignedKey, signedXml);
      state := Apply(state, AdvanceRun(r, []));
    }

    /** The last transaction: hash and status together. */
    method Complete(r: TaskId, io: Answers, signedXml: Bytes, others: seq<seq<Step>>) returns (ok: bool)
      requires Valid() && RunAt(r, SignedStored(signedXml)) && Waits(others, Preparing(r, io))
      modifies this
      ensures Valid() && Turned(old(state), state, Preparing(r, io), others)
      ensures RunAt(r, RunEnded(ok))
    {
      PlayTurn(state, Preparing(r, io), others);
      Await(Preparing(r, io), others[0]);
      StepKeeps(state, AdvanceRun(r, []));
      ok := !TerminalDocument(status) && artifact.Some?;
      if ok {
        status := XmlValidated;
        artifact := Some(artifact.value.(signedSha := Some(Sha256(signedXml))));
        status := ReadyToSubmit;
      }
      state := Apply(state, AdvanceRun(r, []));
    }

    /** execute, with arbitrary interference at every await. */
    method Prepare(r: TaskId, io: Answers, others: seq<seq<Step>>) returns (outcome: PrepareOutcome)
      requires Valid() && r !in state.runs && |others| == 7 && AllForeign(others, Preparing(r, io))
      modifies this
      ensures Valid() && state == Play(old(state), Preparing(r, io), others)
      ensures RunAt(r, RunEnded(outcome == Ready))
    {
      var phase := LoadDocument(r, io, others);
      if phase.RunEnded? {
        PlayEnds(state, Preparing(r, io), others[1..]);
        return if phase.ready then Ready else NotReady;
      }
      var ok := false;
      if io.storageReady {
        ok := RecordAttempt(r, io, phase.hadArtifact, others[1..]);
      } else {
        Fail(r, io, phase, others[1..]);
      }
      if ok {
        outcome := Generate(r, io, others[2..]);
      } else {
        PlayEnds(state, Preparing(r, io), others[2..]);
        outcome := NotReady;
      }
    }

    /** The unsigned text. */
    method Generate(r: TaskId, io: Answers, others: seq<seq<Step>>) returns (outcome: PrepareOutcome)
      requires Valid() && RunAt(r, Attempted) && |others| == 5 && AllForeign(others, Preparing(r, io))
      modifies this
      ensures Valid() && state == Play(old(state), Preparing(r, io), others)
      ensures RunAt(r, RunEnded(outcome == Ready))
    {
      outcome := NotReady;
      var ok := false;
      if io.unsigned.Some? {
        ok := StoreUnsigned(r, io, io.unsigned.value, others);
      } else {
        Fail(r, io, Attempted, others);
      }
      if !ok {
        PlayEnds(state, Preparing(r, io), others[1..]);
        return;
      }
      ok := RecordGenerated(r, io, io.unsigned.value, others[1..]);
      if ok {
        outcome := Sign(r, io, others[2..]);
      } else {
        PlayEnds(state, Preparing(r, io), others[2..]);
      }
    }

    /** The signed text: signature, checks, upload, and the last transaction. */
    method Sign(r: TaskId, io: Answers, others: seq<seq<Step>>) returns (outcome: PrepareOutcome)
      requires Valid() && RunAt(r, Generated) && |others| == 3 && AllForeign(others, Preparing(r, io))
      modifies this
      ensures Valid() && state == Play(old(state), Preparing(r, io), others)
      ensures RunAt(r, RunEnded(outcome == Ready))
    {
      outcome := NotReady;
      var ok := false;
      if io.signedXml.Some? {
        ok := AdvanceDocumentStatus(r, io, io.signedXml.value, others);
      } else {
        Fail(r, io, Generated, others);
      }
      if !ok {
        PlayEnds(state, Preparing(r, io), others[1..]);
        return;
      }
      if io.valid {
        ok := StoreSigned(r, io, io.signedXml.value, others[1..]);
      } else {
        Fail(r, io, Marked(io.signedXml.value), others[1..]);
        ok := false;
      }
      if !ok {
        PlayEnds(state, Preparing(r, io), others[2..]);
        return;
      }
      ok := Complete(r, io, io.signedXml.value, others[2..]);
      PlayEnds(state, Preparing(r, io), others[3..]);
      outcome := if ok then Ready else NotReady;
    }

    // -- Submitting ------------------------------------------------------------------------

    ghost predicate SubmitAt(p: TaskId, phase: SubmitPhase)
      reads this
    {
      p in state.submits && state.submits[p] == phase
    }

    /** The query and the early answers; otherwise the hash to submit, or the existing submission. */
    method LoadForSubmit(p: TaskId, others: seq<seq<Step>>) returns (answer: Option<SubmitOutcome>, phase: SubmitPhase)
      requires Valid() && p !in state.submits && Waits(others, Requesting(p))
      modifies this
      ensures Valid() && Turned(old(state), state, Requesting(p), others)
      ensures state == Apply(Run(old(state), others[0]), LoadSubmit(p)) && SubmitAt(p, phase)
      ensures answer.Some? <==> phase.SubmitEnded?
      ensures phase.Existing? ==> submission.Some?
      ensures answer.Some? ==> answer.value != ArtifactRequired
      ensures answer.Some? && answer.value.SubmittedAs? ==>
                submission.Some? && answer.value.status == submission.value.status && IsTerminal(answer.value.status)
    {
      PlayTurn(state, Requesting(p), others);
      Await(Requesting(p), others[0]);
      StepKeeps(state, LoadSubmit(p));
      answer, phase := None, SubmitEnded;
      if submission.Some? && IsTerminal(submission.value.status) {
        answer := Some(SubmittedAs(submission.value.status));
      } else if status != ReadyToSubmit {
        answer := Some(DocumentNotReady);
      } else if artifact.None? || artifact.value.signedSha.None? {
        answer := Some(ArtifactRequired);
      } else if submission.Some? {
        phase := Existing(submission.value.status);
      } else {
        phase := Chosen(artifact.value.signedSha.value);
      }
      state := Apply(state, LoadSubmit(p));
    }

    /**
     createOrLoadSubmission: the insert meets the unique key of documents; after a violation the
     existing row is read, by another statement.
     */
    method CreateOrLoad(p: TaskId, sha: Hash, others: seq<Step>, reload: seq<Step>, rest: seq<seq<Step>>)
      returns (loaded: SubmissionStatus)
      requires Valid() && SubmitAt(p, Chosen(sha))
      requires Foreign(others, Requesting(p)) && Foreign(reload, Requesting(p))
      modifies this
      ensures Valid() && SubmitAt(p, Existing(loaded)) && submission.Some?
      ensures
        var waits := if Run(old(state), others).submission.Some? then others + reload else others;
        Turned(old(state), state, Requesting(p), [waits] + rest)
    {
      ghost var waits := if Run(state, others).submission.Some? then others + reload else others;
      PlayTurn(state, Requesting(p), [waits] + rest);
      assert ([waits] + rest)[1..] == rest;
      RunAppend(state, others, reload);
      Await(Requesting(p), others);
      loaded := Requested;
      if submission.None? {
        StepKeeps(state, CreateSubmission(p));
        submission := Some(Submission(Requested, sha, None));
      } else {
        SubmissionStays(state, reload);
        Await(Requesting(p), reload);
        StepKeeps(state, CreateSubmission(p));
        loaded := submission.value.status;
      }
      state := Apply(state, CreateSubmission(p));
    }

    /** markQueuedWhenSafeToSubmit, on the status read before: its update has no guard. */
    method MarkQueuedWhenSafe(p: TaskId, loaded: SubmissionStatus, others: seq<seq<Step>>)
      returns (answer: SubmissionStatus)
      requires Valid() && SubmitAt(p, Existing(loaded)) && submission.Some? && Waits(others, Requesting(p))
      modifies this
      ensures Valid() && SubmitAt(p, SubmitEnded) && Turned(old(state), state, Requesting(p), others)
      ensures submission.Some? && answer == submission.value.status
      ensures !NotForSubmission(loaded) ==> answer == Queued
    {
      PlayTurn(state, Requesting(p), others);
      SubmissionStays(state, others[0]);
      Await(Requesting(p), others[0]);
      StepKeeps(state, MarkQueued(p));
      if !NotForSubmission(loaded) {
        submission := Some(submission.value.(status := Queued));
      }
      answer := submission.value.status;
      state := Apply(state, MarkQueued(p));
    }

    /** execute, with arbitrary interference at every await, and between a failed insert and its reload. */
    method Submit(p: TaskId, others: seq<seq<Step>>, reload: seq<Step>) returns (outcome: SubmitOutcome)
      requires Valid() && p !in state.submits && |others| == 3
      requires AllForeign(others, Requesting(p)) && Foreign(reload, Requesting(p))
      modifies this
      ensures Valid() && SubmitAt(p, SubmitEnded)
      ensures state == Play(old(state), Requesting(p), SubmitWaits(old(state), p, others, reload))
      ensures outcome.SubmittedAs? ==> submission.Some? && outcome.status == submission.value.status
      ensures outcome != ArtifactRequired
    {
      ghost var waits := SubmitWaits(state, p, others, reload);
      assert waits[0] == others[0];
      ghost var start := state;
      var answer, phase := LoadForSubmit(p, [others[0], others[1], others[2]]);
      PlayFirst(start, Requesting(p), [others[0], others[1], others[2]], waits);
      if answer.Some? {
        PlayEnds(state, Requesting(p), waits[1..]);
        return answer.value;
      }
      var loaded;
      if phase.Chosen? {
        assert waits[1..] == [waits[1]] + [others[2]];
        loaded := CreateOrLoad(p, phase.sha, others[1], reload, [others[2]]);
        loaded := MarkQueuedWhenSafe(p, loaded, [others[2]]);
        PlayEnds(state, Requesting(p), []);
      } else {
        assert waits[1..] == [others[1], others[2]];
        loaded := MarkQueuedWhenSafe(p, phase.status, [others[1], others[2]]);
        PlayEnds(state, Requesting(p), [others[2]]);
      }
      outcome := SubmittedAs(loaded);
    }

    // -- Provider results ------------------------------------------------------------------

    ghost predicate ResultAt(q: TaskId, result: ProviderResult)
      reads this
    {
      q in state.results && state.results[q] == result
    }

    /** The query and the evaluated transition. */
    method LoadForResult(q: TaskId, next: SubmissionStatus, response: Option<Bytes>, others: seq<seq<Step>>)
      returns (phase: ResultPhase)
      requires Valid() && q !in state.results && Waits(others, Applying(q, next, response))
      modifies this
      ensures Valid() && Turned(old(state), state, Applying(q, next, response), others)
      ensures ResultAt(q, ProviderResult(next, response, phase)) && !phase.ResponseStored?
      ensures phase.Fetched? ==> submission.Some?
    {
      PlayTurn(state, Applying(q, next, response), others);
      Await(Applying(q, next, response), others[0]);
      StepKeeps(state, FetchResult(q, next, response));
      phase := ResultEnded;
      if submission.Some? && EvaluateTransition(submission.value.status, next) == Applied {
        phase := Fetched(submission.value.responseSha);
      }
      state := Apply(state, FetchResult(q, next, response));
    }

    /** storeResponseArtifactIfPresent */
    method StoreResponseIfPresent(q: TaskId, result: ProviderResult, others: seq<seq<Step>>)
      returns (phase: ResultPhase)
      requires Valid() && ResultAt(q, result) && result.phase.Fetched? && submission.Some?
      requires Waits(others, Applying(q, result.next, result.response))
      modifies this
      ensures Valid() && Turned(old(state), state, Applying(q, result.next, result.response), others)
      ensures ResultAt(q, result.(phase := phase)) && !phase.Fetched? && submission.Some?
    {
      PlayTurn(state, Applying(q, result.next, result.response), others);
      SubmissionStays(state, others[0]);
      Await(Applying(q, result.next, result.response), others[0]);
      StepKeeps(state, StoreResponse(q));
      phase := ResponseStored(result.phase.previous);
      if result.response.Some? {
        var stored := Upload(ResponseKey, result.response.value);
        phase := if stored then ResponseStored(Some(Sha256(result.response.value))) else ResultEnded;
      }
      state := Apply(state, StoreResponse(q));
    }

    /** The transaction: both rows, each guarded against terminal states. */
    method CommitGuarded(q: TaskId, result: ProviderResult, others: seq<seq<Step>>) returns (applied: bool)
      requires Valid() && ResultAt(q, result) && result.phase.ResponseStored? && submission.Some?
      requires Waits(others, Applying(q, result.next, result.response))
      modifies this
      ensures Valid() && Turned(old(state), state, Applying(q, result.next, result.response), others)
      ensures ResultAt(q, result.(phase := ResultEnded))
      ensures applied && result.next.Decided? ==> TerminalDocument(status)
    {
      PlayTurn(state, Applying(q, result.next, result.response), others);
      SubmissionStays(state, others[0]);
      Await(Applying(q, result.next, result.response), others[0]);
      StepKeeps(state, CommitResult(q));
      applied := !IsTerminal(submission.value.status);
      if applied {
        submission := Some(submission.value.(status := result.next, responseSha := result.phase.sha));
        if result.next.Decided? && !TerminalDocument(status) {
          status := Final(result.next.verdict);
        }
      }
      state := Apply(state, CommitResult(q));
    }

    /** applyProviderResult, with arbitrary interference at every await. */
    method ApplyProviderResult(q: TaskId, next: SubmissionStatus, response: Option<Bytes>, others: seq<seq<Step>>)
      returns (applied: bool)
      requires Valid() && q !in state.results && |others| == 3 && AllForeign(others, Applying(q, next, response))
      modifies this
      ensures Valid() && state == Play(old(state), Applying(q, next, response), others)
      ensures ResultAt(q, ProviderResult(next, response, ResultEnded))
      ensures applied && next.Decided? ==> TerminalDocument(status)
    {
      applied := false;
      var phase := LoadForResult(q, next, response, others);
      if !phase.Fetched? {
        PlayEnds(state, Applying(q, next, response), others[1..]);
        return;
      }
      phase := StoreResponseIfPresent(q, ProviderResult(next, response, phase), others[1..]);
      if !phase.ResponseStored? {
        PlayEnds(state, Applying(q, next, response), others[2..]);
        return;
      }
      applied := CommitGuarded(q, ProviderResult(next, response, phase), others[2..]);
      PlayEnds(state, Applying(q, next, response), others[3..]);
    }
  }
}
