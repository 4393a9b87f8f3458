/**
 The calls of the services over one fiscal document: what each does between its awaits, that every
 execution is a path of the transition system, and what an undisturbed one achieves.
 */
module FiscalEvidenceCalls {
  import opened Common
  import opened FiscalEvidenceModel
  import opened FiscalEvidence

  /** What the parts that are not modelled answer to one preparation: no text means that they threw. */
  datatype Answers = Answers(storageReady: bool, unsigned: Option<Bytes>, signedXml: Option<Bytes>, valid: bool)

  /** One call of a service, with its inputs. */
  datatype Task =
    | Preparing(r: TaskId, io: Answers)
    | Applying(q: TaskId, next: SubmissionStatus, response: Option<Bytes>)
    | Requesting(p: TaskId)

  // -- Executions --------------------------------------------------------------------------

  predicate Owns(t: Task, step: Step) {
    match step
    case StartRun(r) => t.Preparing? && t.r == r
    case AdvanceRun(r, _) => t.Preparing? && t.r == r
    case FailRun(r) => t.Preparing? && t.r == r
    case FetchResult(q, _, _) => t.Applying? && t.q == q
    case StoreResponse(q) => t.Applying? && t.q == q
    case CommitResult(q) => t.Applying? && t.q == q
    case LoadSubmit(p) => t.Requesting? && t.p == p
    case CreateSubmission(p) => t.Requesting? && t.p == p
    case MarkQueued(p) => t.Requesting? && t.p == p
    case Claim => false
    case Supersede => false
  }

  ghost predicate Foreign(steps: seq<Step>, t: Task) {
    forall i :: 0 <= i < |steps| ==> !Owns(t, steps[i])
  }

  predicate SameAt<T(==)>(tasks: map<TaskId, T>, tasks': map<TaskId, T>, v: TaskId) {
    (v in tasks <==> v in tasks') && (v in tasks ==> tasks'[v] == tasks[v])
  }

  predicate SameTask(s: State, s': State, t: Task) {
    match t
    case Preparing(r, _) => SameAt(s.runs, s'.runs, r)
    case Applying(q, _, _) => SameAt(s.results, s'.results, q)
    case Requesting(p) => SameAt(s.submits, s'.submits, p)
  }

  lemma AdvanceKeepsOthers(s: State, r: TaskId, bytes: Bytes, v: TaskId)
    requires v != r
    ensures SameAt(s.runs, DoAdvanceRun(s, r, bytes).runs, v)
  {}

  lemma RunStepKeepsOthers(s: State, step: Step, v: TaskId)
    requires RunStep(step) && step.r != v
    ensures SameAt(s.runs, Apply(s, step).runs, v)
  {
    if step.AdvanceRun? {
      AdvanceKeepsOthers(s, step.r, step.bytes, v);
    }
  }

  predicate ResultStep(step: Step) {
    step.FetchResult? || step.StoreResponse? || step.CommitResult?
  }

  lemma ResultStepKeepsOthers(s: State, step: Step, v: TaskId)
    requires ResultStep(step)
    ensures Apply(s, step).runs == s.runs && Apply(s, step).submits == s.submits
    ensures step.q != v ==> SameAt(s.results, Apply(s, step).results, v)
  {}

  lemma SubmitStepKeepsOthers(s: State, step: Step, v: TaskId)
    requires step.LoadSubmit? || step.CreateSubmission? || step.MarkQueued?
    ensures Apply(s, step).runs == s.runs && Apply(s, step).results == s.results
    ensures step.p != v ==> SameAt(s.submits, Apply(s, step).submits, v)
  {}

  lemma OtherStepKeepsTask(s: State, step: Step, t: Task)
    requires !Owns(t, step)
    ensures SameTask(s, Apply(s, step), t)
  {
    var id := match t case Preparing(r, _) => r case Applying(q, _, _) => q case Requesting(p) => p;
    if RunStep(step) {
      RunStepsKeepVerdict(s, step);
      if t.Preparing? {
        RunStepKeepsOthers(s, step, id);
      }
    } else if ResultStep(step) {
      ResultStepKeepsOthers(s, step, id);
    } else if step == Claim || step == Supersede {
    } else {
      SubmitStepKeepsOthers(s, step, id);
    }
  }

  lemma {:induction false} OthersKeepTask(s: State, steps: seq<Step>, t: Task)
    requires Foreign(steps, t)
    ensures SameTask(s, Run(s, steps), t)
    decreases |steps|
  {
    if steps == [] {
    } else {
      OtherStepKeepsTask(s, steps[0], t);
      OthersKeepTask(Apply(s, steps[0]), steps[1..], t);
    }
  }

  /** The next statement of a preparation; a failure of a part ends it. */
  function NextRunStep(phase: RunPhase, r: TaskId, io: Answers): Option<Step> {
    match phase
    case Loaded(_) => Some(if io.storageReady then AdvanceRun(r, []) else FailRun(r))
    case Attempted => Some(if io.unsigned.Some? then AdvanceRun(r, io.unsigned.value) else FailRun(r))
    case UnsignedStored(_) => Some(AdvanceRun(r, []))
    case Generated => Some(if io.signedXml.Some? then AdvanceRun(r, io.signedXml.value) else FailRun(r))
    case Marked(_) => Some(if io.valid then AdvanceRun(r, []) else FailRun(r))
    case SignedStored(_) => Some(AdvanceRun(r, []))
    case RunEnded(_) => None
  }

  /** The statement a task issues next; an ended task has none. */
  function NextStep(s: State, t: Task): Option<Step> {
    match t
    case Preparing(r, io) => if r in s.runs then NextRunStep(s.runs[r], r, io) else Some(StartRun(r))
    case Applying(q, next, response) =>
      if q !in s.results then Some(FetchResult(q, next, response))
      else if s.results[q].phase.Fetched? then Some(StoreResponse(q))
      else if s.results[q].phase.ResponseStored? then Some(CommitResult(q))
      else None
    case Requesting(p) =>
      if p !in s.submits then Some(LoadSubmit(p))
      else if s.submits[p].Chosen? then Some(CreateSubmission(p))
      else if s.submits[p].Existing? then Some(MarkQueued(p))
      else None
  }

  /** A task alternates between waiting and its next statement until it has ended. */
  function Play(s: State, t: Task, others: seq<seq<Step>>): State
    decreases |others|
  {
    if others == [] || NextStep(s, t).None? then s
    else Play(Apply(Run(s, others[0]), NextStep(s, t).value), t, others[1..])
  }

  function PlayedSteps(s: State, t: Task, others: seq<seq<Step>>): seq<Step>
    decreases |others|
  {
    if others == [] || NextStep(s, t).None? then []
    else
      var step := NextStep(s, t).value;
      others[0] + [step] + PlayedSteps(Apply(Run(s, others[0]), step), t, others[1..])
  }

  lemma {:induction false} RunAppend(s: State, first: seq<Step>, second: seq<Step>)
    ensures Run(s, first + second) == Run(Run(s, first), second)
    decreases |first|
  {
    if first == [] {
      assert first + second == second;
    } else {
      assert (first + second)[1..] == first[1..] + second;
      RunAppend(Apply(s, first[0]), first[1..], second);
    }
  }

  lemma RunTurn(s: State, others: seq<Step>, step: Step, rest: seq<Step>)
    ensures Run(s, others + [step] + rest) == Run(Apply(Run(s, others), step), rest)
  {
    RunAppend(s, others + [step], rest);
    RunThen(s, others, step);
  }

  /**
   Every execution of a service, whatever happens between its statements, is a run of the transition
   system; so what holds over every run holds around it.
   */
  lemma {:induction false} CallIsRun(s: State, t: Task, others: seq<seq<Step>>)
    ensures Play(s, t, others) == Run(s, PlayedSteps(s, t, others))
    decreases |others|
  {
    if others == [] || NextStep(s, t).None? {
    } else {
      var step := NextStep(s, t).value;
      var s' := Apply(Run(s, others[0]), step);
      CallIsRun(s', t, others[1..]);
      RunTurn(s, others[0], step, PlayedSteps(s', t, others[1..]));
    }
  }

  lemma PlayTurn(s: State, t: Task, others: seq<seq<Step>>)
    requires others != [] && NextStep(s, t).Some?
    ensures Play(s, t, others) == Play(Apply(Run(s, others[0]), NextStep(s, t).value), t, others[1..])
  {}

  /** One wait and one statement of a task lead from s to s'. */
  ghost predicate Turned(s: State, s': State, t: Task, others: seq<seq<Step>>) {
    others != [] && Play(s, t, others) == Play(s', t, others[1..])
  }

  /** The first turn depends on the first wait only. */
  lemma PlayFirst(s: State, t: Task, others: seq<seq<Step>>, waits: seq<seq<Step>>)
    requires others != [] && waits != [] && others[0] == waits[0] && NextStep(s, t).Some?
    ensures Play(s, t, waits) == Play(Apply(Run(s, others[0]), NextStep(s, t).value), t, waits[1..])
  {}

  lemma PlayEnds(s: State, t: Task, others: seq<seq<Step>>)
    requires NextStep(s, t).None?
    ensures Play(s, t, others) == s
  {}

  lemma StepKeepsSubmission(s: State, step: Step)
    requires s.submission.Some?
    ensures Apply(s, step).submission.Some?
  {}

  lemma {:induction false} SubmissionStays(s: State, steps: seq<Step>)
    requires s.submission.Some?
    ensures Run(s, steps).submission.Some?
    decreases |steps|
  {
    if steps == [] {
    } else {
      StepKeepsSubmission(s, steps[0]);
      SubmissionStays(Apply(s, steps[0]), steps[1..]);
    }
  }

  /** The waits of a submit: a request that finds the row created waits once more, for its reload. */
  function SubmitWaits(s: State, p: TaskId, others: seq<seq<Step>>, reload: seq<Step>): seq<seq<Step>>
    requires |others| == 3
  {
    var loaded := Apply(Run(s, others[0]), LoadSubmit(p));
    var raced := p in loaded.submits && loaded.submits[p].Chosen? && Run(loaded, others[1]).submission.Some?;
    [others[0], if raced then others[1] + reload else others[1], others[2]]
  }

  // -- What the calls achieve --------------------------------------------------------------

  predicate Recorded(s: State) {
    s.artifact.Some? && s.artifact.value.signedSha.Some?
  }

  lemma StartRecords(s: State, r: TaskId)
    requires r !in s.runs
    ensures
      var s' := DoStartRun(s, r);
      r in s'.runs && (s'.runs[r] == RunEnded(true) ==> s'.status == ReadyToSubmit && Recorded(s'))
  {}

  lemma AdvanceRecords(s: State, r: TaskId, bytes: Bytes)
    requires r in s.runs && !s.runs[r].RunEnded?
    ensures
      var s' := DoAdvanceRun(s, r, bytes);
      r in s'.runs && (s'.runs[r] == RunEnded(true) ==> s'.status == ReadyToSubmit && Recorded(s'))
  {}

  lemma EndsRecorded(s: State, r: TaskId, io: Answers)
    requires r in s.runs ==> s.runs[r] != RunEnded(true)
    ensures
      var step := NextStep(s, Preparing(r, io));
      step.Some? ==>
        var s' := Apply(s, step.value);
        r in s'.runs && (s'.runs[r] == RunEnded(true) ==> s'.status == ReadyToSubmit && Recorded(s'))
  {
    var step := NextStep(s, Preparing(r, io));
    if step.None? {
    } else if step.value.StartRun? {
      StartRecords(s, r);
    } else if step.value.AdvanceRun? {
      AdvanceRecords(s, r, step.value.bytes);
    } else {
      assert step.value == FailRun(r);
    }
  }

  /** Whatever interferes: a preparation that reports success leaves a document ready to submit, with its hash. */
  lemma {:induction false} ReadyIsRecorded(s: State, r: TaskId, io: Answers, others: seq<seq<Step>>)
    requires r in s.runs ==> s.runs[r] != RunEnded(true)
    requires forall i :: 0 <= i < |others| ==> Foreign(others[i], Preparing(r, io))
    ensures
      var s' := Play(s, Preparing(r, io), others);
      r in s'.runs && s'.runs[r] == RunEnded(true) ==> s'.status == ReadyToSubmit && Recorded(s')
    decreases |others|
  {
    var t := Preparing(r, io);
    if others == [] || NextStep(s, t).None? {
    } else {
      OthersKeepTask(s, others[0], t);
      var waited := Run(s, others[0]);
      assert NextStep(waited, t) == NextStep(s, t);
      EndsRecorded(waited, r, io);
      var s' := Apply(waited, NextStep(s, t).value);
      if s'.runs[r] == RunEnded(true) {
        PlayEnds(s', t, others[1..]);
      } else {
        ReadyIsRecorded(s', r, io, others[1..]);
      }
    }
  }

  /** Nobody else does anything. */
  function Silence(turns: nat): seq<seq<Step>> {
    if turns == 0 then [] else [[]] + Silence(turns - 1)
  }

  /** Undisturbed, a task gets from s to s'. */
  ghost predicate Reaches(s: State, t: Task, s': State) {
    exists n: nat :: Play(s, t, Silence(n)) == s'
  }

  /** Undisturbed, a task ends, and leaves s'. */
  ghost predicate Completes(s: State, t: Task, s': State) {
    Reaches(s, t, s') && NextStep(s', t).None?
  }

  lemma Issues(s: State, t: Task, step: Step)
    requires NextStep(s, t) == Some(step)
    ensures Reaches(s, t, Apply(s, step))
  {
    assert Silence(1)[0] == [] && Silence(1)[1..] == Silence(0);
    assert Play(s, t, Silence(1)) == Play(Apply(s, step), t, Silence(0));
  }

  lemma {:induction false} SilenceAdds(s: State, t: Task, m: nat, n: nat)
    ensures Play(s, t, Silence(m + n)) == Play(Play(s, t, Silence(m)), t, Silence(n))
    decreases m
  {
    if m == 0 {
    } else if NextStep(s, t).None? {
      PlayEnds(s, t, Silence(m));
      PlayEnds(s, t, Silence(n));
      PlayEnds(s, t, Silence(m + n));
    } else {
      var s' := Apply(s, NextStep(s, t).value);
      assert Silence(m)[1..] == Silence(m - 1) && Silence(m + n)[1..] == Silence(m + n - 1);
      SilenceAdds(s', t, m - 1, n);
    }
  }

  lemma ReachesThen(s: State, t: Task, middle: State, s': State)
    requires Reaches(s, t, middle) && Reaches(middle, t, s')
    ensures Reaches(s, t, s')
  {
    var m: nat :| Play(s, t, Silence(m)) == middle;
    var n: nat :| Play(middle, t, Silence(n)) == s';
    SilenceAdds(s, t, m, n);
  }

  /** What others can see of a document. */
  datatype Rows = Rows(
    status: DocumentStatus, artifact: Option<Artifact>, submission: Option<Submission>, objects: map<Key, Bytes>)

  function RowsOf(s: State): Rows {
    Rows(s.status, s.artifact, s.submission, s.objects)
  }

  /** The state with a preparation in this phase and these rows. */
  function Prepares(s: State, r: TaskId, phase: RunPhase, rows: Rows): State {
    State(rows.status, rows.artifact, rows.submission, rows.objects, s.runs[r := phase], s.results, s.submits)
  }

  lemma Goes(s: State, r: TaskId, io: Answers, phase: RunPhase, rows: Rows, phase': RunPhase, rows': Rows)
    requires NextRunStep(phase, r, io).Some?
    requires Apply(Prepares(s, r, phase, rows), NextRunStep(phase, r, io).value) == Prepares(s, r, phase', rows')
    ensures Reaches(Prepares(s, r, phase, rows), Preparing(r, io), Prepares(s, r, phase', rows'))
  {
    Issues(Prepares(s, r, phase, rows), Preparing(r, io), NextRunStep(phase, r, io).value);
  }

  function Begun(rows: Rows): Artifact {
    if rows.artifact.Some? then rows.artifact.value else Artifact(None, None)
  }

  function Good(unsigned: Bytes, signedXml: Bytes): Answers {
    Answers(true, Some(unsigned), Some(signedXml), true)
  }

  lemma LoneStart(s: State, r: TaskId, io: Answers)
    requires r !in s.runs && AwaitsXml(s.status) && io.storageReady
    ensures Reaches(s, Preparing(r, io), Prepares(s, r, Attempted, RowsOf(s).(artifact := Some(Begun(RowsOf(s))))))
  {
    var rows := RowsOf(s);
    var loaded := Prepares(s, r, Loaded(s.artifact.Some?), rows);
    Issues(s, Preparing(r, io), StartRun(r));
    assert Apply(s, StartRun(r)) == loaded;
    Goes(s, r, io, Loaded(s.artifact.Some?), rows, Attempted, rows.(artifact := Some(Begun(rows))));
    ReachesThen(s, Preparing(r, io), loaded, Prepares(s, r, Attempted, rows.(artifact := Some(Begun(rows)))));
  }

  lemma LoneGeneration(s: State, r: TaskId, io: Answers, rows: Rows, unsigned: Bytes)
    requires rows.artifact.Some? && !TerminalDocument(rows.status) && io.unsigned == Some(unsigned)
    requires PutSucceeds(rows.objects, UnsignedKey, unsigned)
    ensures
      var stored := rows.(objects := Put(rows.objects, UnsignedKey, unsigned));
      var hashed := rows.artifact.value.(unsignedSha := Some(Sha256(unsigned)));
      Reaches(Prepares(s, r, Attempted, rows), Preparing(r, io),
              Prepares(s, r, Generated, stored.(status := XmlGenerated, artifact := Some(hashed))))
  {
    var stored := rows.(objects := Put(rows.objects, UnsignedKey, unsigned));
    var hashed := rows.artifact.value.(unsignedSha := Some(Sha256(unsigned)));
    var generated := stored.(status := XmlGenerated, artifact := Some(hashed));
    assert Prepares(s, r, Attempted, rows).runs[r := UnsignedStored(unsigned)] == s.runs[r := UnsignedStored(unsigned)];
    Goes(s, r, io, Attempted, rows, UnsignedStored(unsigned), stored);
    assert Prepares(s, r, UnsignedStored(unsigned), stored).runs[r := Generated] == s.runs[r := Generated];
    Goes(s, r, io, UnsignedStored(unsigned), stored, Generated, generated);
    ReachesThen(Prepares(s, r, Attempted, rows), Preparing(r, io), Prepares(s, r, UnsignedStored(unsigned), stored),
                Prepares(s, r, Generated, generated));
  }

  lemma LoneSigning(s: State, r: TaskId, io: Answers, rows: Rows, signedXml: Bytes)
    requires !TerminalDocument(rows.status) && io.signedXml == Some(signedXml)
    ensures Reaches(Prepares(s, r, Generated, rows), Preparing(r, io),
                    Prepares(s, r, Marked(signedXml), rows.(status := Signed)))
  {
    assert Prepares(s, r, Generated, rows).runs[r := Marked(signedXml)] == s.runs[r := Marked(signedXml)];
    Goes(s, r, io, Generated, rows, Marked(signedXml), rows.(status := Signed));
  }

  lemma LoneCompletion(s: State, r: TaskId, io: Answers, rows: Rows, signedXml: Bytes)
    requires rows.artifact.Some? && !TerminalDocument(rows.status) && io.valid
    requires PutSucceeds(rows.objects, SignedKey, signedXml)
    ensures
      var stored := rows.(objects := Put(rows.objects, SignedKey, signedXml));
      var hashed := rows.artifact.value.(signedSha := Some(Sha256(signedXml)));
      Reaches(Prepares(s, r, Marked(signedXml), rows), Preparing(r, io),
              Prepares(s, r, RunEnded(true), stored.(status := ReadyToSubmit, artifact := Some(hashed))))
  {
    var stored := rows.(objects := Put(rows.objects, SignedKey, signedXml));
    var hashed := rows.artifact.value.(signedSha := Some(Sha256(signedXml)));
    var ready := stored.(status := ReadyToSubmit, artifact := Some(hashed));
    assert Prepares(s, r, Marked(signedXml), rows).runs[r := SignedStored(signedXml)]
        == s.runs[r := SignedStored(signedXml)];
    Goes(s, r, io, Marked(signedXml), rows, SignedStored(signedXml), stored);
    assert Prepares(s, r, SignedStored(signedXml), stored).runs[r := RunEnded(true)] == s.runs[r := RunEnded(true)];
    Goes(s, r, io, SignedStored(signedXml), stored, RunEnded(true), ready);
    ReachesThen(Prepares(s, r, Marked(signedXml), rows), Preparing(r, io),
                Prepares(s, r, SignedStored(signedXml), stored),
                Prepares(s, r, RunEnded(true), ready));
  }

  /** An upload of other bytes than the stored ones ends the run. */
  lemma LoneConflict(s: State, r: TaskId, io: Answers, phase: RunPhase, rows: Rows, key: Key, bytes: Bytes)
    requires
      || (phase == Attempted && key == UnsignedKey && io.unsigned == Some(bytes))
      || (phase == Marked(bytes) && key == SignedKey && io.valid)
    requires !PutSucceeds(rows.objects, key, bytes)
    ensures Reaches(Prepares(s, r, phase, rows), Preparing(r, io), Prepares(s, r, RunEnded(false), rows))
  {
    assert Prepares(s, r, phase, rows).runs[r := RunEnded(false)] == s.runs[r := RunEnded(false)];
    Goes(s, r, io, phase, rows, RunEnded(false), rows);
  }

  /** The rows and objects an undisturbed preparation leaves. */
  function PreparedRows(rows: Rows, unsigned: Bytes, signedXml: Bytes): Rows {
    var begun := rows.(artifact := Some(Begun(rows)));
    if !PutSucceeds(rows.objects, UnsignedKey, unsigned) then begun
    else
      var marked := begun.(status := Signed, objects := Put(rows.objects, UnsignedKey, unsigned),
                           artifact := Some(Begun(rows).(unsignedSha := Some(Sha256(unsigned)))));
      if !PutSucceeds(rows.objects, SignedKey, signedXml) then marked
      else Rows(ReadyToSubmit, Some(Artifact(Some(Sha256(unsigned)), Some(Sha256(signedXml)))), rows.submission,
                Put(Put(rows.objects, UnsignedKey, unsigned), SignedKey, signedXml))
  }

  lemma LoneTexts(s: State, r: TaskId, unsigned: Bytes, signedXml: Bytes, rows: Rows)
    requires rows.artifact.Some? && !TerminalDocument(rows.status) && PutSucceeds(rows.objects, UnsignedKey, unsigned)
    ensures
      var ready := PutSucceeds(rows.objects, SignedKey, signedXml);
      Reaches(Prepares(s, r, Attempted, rows), Preparing(r, Good(unsigned, signedXml)),
              Prepares(s, r, RunEnded(ready), PreparedRows(rows, unsigned, signedXml)))
  {
    var io, t := Good(unsigned, signedXml), Preparing(r, Good(unsigned, signedXml));
    var attempted := Prepares(s, r, Attempted, rows);
    var hashed := rows.artifact.value.(unsignedSha := Some(Sha256(unsigned)));
    var generated := rows.(
      status := XmlGenerated, artifact := Some(hashed), objects := Put(rows.objects, UnsignedKey, unsigned));
    var marked := generated.(status := Signed);
    LoneGeneration(s, r, io, rows, unsigned);
    LoneSigning(s, r, io, generated, signedXml);
    ReachesThen(attempted, t, Prepares(s, r, Generated, generated), Prepares(s, r, Marked(signedXml), marked));
    if PutSucceeds(rows.objects, SignedKey, signedXml) {
      LoneCompletion(s, r, io, marked, signedXml);
    } else {
      LoneConflict(s, r, io, Marked(signedXml), marked, SignedKey, signedXml);
    }
    ReachesThen(attempted, t, Prepares(s, r, Marked(signedXml), marked),
                Prepares(s, r, RunEnded(PutSucceeds(rows.objects, SignedKey, signedXml)),
                         PreparedRows(rows, unsigned, signedXml)));
  }

  /**
   A preparation that nobody disturbs gets ready exactly if both texts are new to the store or equal
   to what it holds: once signed bytes are stored, differently signed ones never match.
   */
  lemma LonePreparation(s: State, r: TaskId, unsigned: Bytes, signedXml: Bytes)
    requires r !in s.runs && AwaitsXml(s.status)
    ensures
      var ready := PutSucceeds(s.objects, UnsignedKey, unsigned) && PutSucceeds(s.objects, SignedKey, signedXml);
      Completes(s, Preparing(r, Good(unsigned, signedXml)),
                Prepares(s, r, RunEnded(ready), PreparedRows(RowsOf(s), unsigned, signedXml)))
  {
    var io, t := Good(unsigned, signedXml), Preparing(r, Good(unsigned, signedXml));
    var rows := RowsOf(s).(artifact := Some(Begun(RowsOf(s))));
    LoneStart(s, r, io);
    if PutSucceeds(s.objects, UnsignedKey, unsigned) {
      LoneTexts(s, r, unsigned, signedXml, rows);
    } else {
      LoneConflict(s, r, io, Attempted, rows, UnsignedKey, unsigned);
    }
    var ready := PutSucceeds(s.objects, UnsignedKey, unsigned) && PutSucceeds(s.objects, SignedKey, signedXml);
    ReachesThen(s, t, Prepares(s, r, Attempted, rows),
                Prepares(s, r, RunEnded(ready), PreparedRows(RowsOf(s), unsigned, signedXml)));
  }

  function SubmittedRow(s: State): Option<Submission>
    requires s.status == ReadyToSubmit ==> s.artifact.Some? && s.artifact.value.signedSha.Some?
  {
    if s.status != ReadyToSubmit || (s.submission.Some? && IsTerminal(s.submission.value.status)) then s.submission
    else match s.submission
      case None => Some(Submission(Queued, s.artifact.value.signedSha.value, None))
      case Some(row) => if NotForSubmission(row.status) then s.submission else Some(row.(status := Queued))
  }

  lemma LoneMark(s: State, p: TaskId, status: SubmissionStatus)
    requires p in s.submits && s.submits[p] == Existing(status) && s.submission.Some?
    ensures
      var row := if NotForSubmission(status) then s.submission else Some(s.submission.value.(status := Queued));
      Completes(s, Requesting(p), s.(submits := s.submits[p := SubmitEnded], submission := row))
  {
    Issues(s, Requesting(p), MarkQueued(p));
    assert NextStep(Apply(s, MarkQueued(p)), Requesting(p)).None?;
  }

  /** What the query of a submit finds. */
  function LoadedPhase(s: State): SubmitPhase
    requires s.status == ReadyToSubmit ==> s.artifact.Some? && s.artifact.value.signedSha.Some?
  {
    if s.status != ReadyToSubmit || (s.submission.Some? && IsTerminal(s.submission.value.status)) then SubmitEnded
    else if s.submission.Some? then Existing(s.submission.value.status)
    else Chosen(s.artifact.value.signedSha.value)
  }

  function Requests(s: State, p: TaskId, phase: SubmitPhase, row: Option<Submission>): State {
    s.(submits := s.submits[p := phase], submission := row)
  }

  lemma LoneLoad(s: State, p: TaskId)
    requires RecordsOk(s) && p !in s.submits
    ensures Reaches(s, Requesting(p), Requests(s, p, LoadedPhase(s), s.submission))
  {
    Issues(s, Requesting(p), LoadSubmit(p));
    assert Apply(s, LoadSubmit(p)) == Requests(s, p, LoadedPhase(s), s.submission);
  }

  lemma LoneCreation(s: State, p: TaskId, sha: Hash)
    requires s.submission.None?
    ensures Reaches(Requests(s, p, Chosen(sha), None), Requesting(p),
                    Requests(s, p, Existing(Requested), Some(Submission(Requested, sha, None))))
  {
    var chosen := Requests(s, p, Chosen(sha), None);
    Issues(chosen, Requesting(p), CreateSubmission(p));
    assert chosen.submits[p := Existing(Requested)] == s.submits[p := Existing(Requested)];
  }

  lemma LoneQueue(s: State, p: TaskId, row: Submission)
    ensures
      Completes(Requests(s, p, Existing(row.status), Some(row)), Requesting(p),
                Requests(s, p, SubmitEnded, Some(if NotForSubmission(row.status) then row else row.(status := Queued))))
  {
    var found := Requests(s, p, Existing(row.status), Some(row));
    LoneMark(found, p, row.status);
    assert found.submits[p := SubmitEnded] == s.submits[p := SubmitEnded];
  }

  /** A submit that nobody disturbs: one submission for each document, queued unless it is under way or decided. */
  lemma LoneSubmit(s: State, p: TaskId)
    requires RecordsOk(s) && p !in s.submits
    ensures Completes(s, Requesting(p), Requests(s, p, SubmitEnded, SubmittedRow(s)))
  {
    var t := Requesting(p);
    LoneLoad(s, p);
    match LoadedPhase(s)
    case SubmitEnded =>
    case Existing(_) =>
      LoneQueue(s, p, s.submission.value);
      ReachesThen(s, t, Requests(s, p, LoadedPhase(s), s.submission), Requests(s, p, SubmitEnded, SubmittedRow(s)));
    case Chosen(sha) =>
      var row := Submission(Requested, sha, None);
      LoneCreation(s, p, sha);
      LoneQueue(s, p, row);
      ReachesThen(s, t, Requests(s, p, Chosen(sha), None), Requests(s, p, Existing(Requested), Some(row)));
      ReachesThen(s, t, Requests(s, p, Existing(Requested), Some(row)), Requests(s, p, SubmitEnded, SubmittedRow(s)));
  }

  /** The state with a provider result in this phase and these rows. */
  function Receives(s: State, q: TaskId, result: ProviderResult, rows: Rows): State {
    State(rows.status, rows.artifact, rows.submission, rows.objects, s.runs, s.results[q := result], s.submits)
  }

  function AppliedRows(rows: Rows, next: SubmissionStatus, response: Option<Bytes>): Rows {
    var objects := if response.Some? then Put(rows.objects, ResponseKey, response.value) else rows.objects;
    if rows.submission.None? || EvaluateTransition(rows.submission.value.status, next) != Applied then rows
    else if IsTerminal(rows.submission.value.status)
         || (response.Some? && !PutSucceeds(rows.objects, ResponseKey, response.value)) then rows.(objects := objects)
    else
      var sha := if response.Some? then Some(Sha256(response.value)) else rows.submission.value.responseSha;
      rows.(objects := objects, submission := Some(rows.submission.value.(status := next, responseSha := sha)),
            status := if next.Decided? && !TerminalDocument(rows.status) then Final(next.verdict) else rows.status)
  }

  lemma ResultGoes(s: State, q: TaskId, result: ProviderResult, rows: Rows, step: Step,
                   result': ProviderResult, rows': Rows)
    requires result'.next == result.next && result'.response == result.response
    requires NextStep(Receives(s, q, result, rows), Applying(q, result.next, result.response)) == Some(step)
    requires Apply(Receives(s, q, result, rows), step) == Receives(s, q, result', rows')
    ensures Reaches(Receives(s, q, result, rows), Applying(q, result.next, result.response),
                    Receives(s, q, result', rows'))
  {
    Issues(Receives(s, q, result, rows), Applying(q, result.next, result.response), step);
  }

  /** From the stored response to the end. */
  lemma LoneCommit(s: State, q: TaskId, result: ProviderResult, rows: Rows, sha: Option<Hash>)
    requires result.phase == ResponseStored(sha) && rows.submission.Some?
    ensures
      var rows' := if IsTerminal(rows.submission.value.status) then rows else rows.(
        submission := Some(rows.submission.value.(status := result.next, responseSha := sha)),
        status := if result.next.Decided? && !TerminalDocument(rows.status) then Final(result.next.verdict)
            else rows.status);
      Reaches(Receives(s, q, result, rows), Applying(q, result.next, result.response),
              Receives(s, q, result.(phase := ResultEnded), rows'))
  {
    var rows' := if IsTerminal(rows.submission.value.status) then rows else rows.(
      submission := Some(rows.submission.value.(status := result.next, responseSha := sha)),
      status := if result.next.Decided? && !TerminalDocument(rows.status) then Final(result.next.verdict)
          else rows.status);
    var ended := result.(phase := ResultEnded);
    assert Receives(s, q, result, rows).results[q := ended] == s.results[q := ended];
    ResultGoes(s, q, result, rows, CommitResult(q), ended, rows');
  }

  lemma LoneResponse(s: State, q: TaskId, result: ProviderResult, rows: Rows)
    requires rows.submission.Some? && result.phase == Fetched(rows.submission.value.responseSha)
    requires EvaluateTransition(rows.submission.value.status, result.next) == Applied
    ensures Reaches(Receives(s, q, result, rows), Applying(q, result.next, result.response),
                    Receives(s, q, result.(phase := ResultEnded), AppliedRows(rows, result.next, result.response)))
  {
    var t := Applying(q, result.next, result.response);
    var sha := if result.response.Some? then Some(Sha256(result.response.value)) else rows.submission.value.responseSha;
    var objects := if result.response.Some? then Put(rows.objects, ResponseKey, result.response.value)
        else rows.objects;
    var fits := result.response.Some? ==> PutSucceeds(rows.objects, ResponseKey, result.response.value);
    var stored := result.(phase := if fits then ResponseStored(sha) else ResultEnded);
    assert Receives(s, q, result, rows).results[q := stored] == s.results[q := stored];
    ResultGoes(s, q, result, rows, StoreResponse(q), stored, rows.(objects := objects));
    if fits {
      LoneCommit(s, q, stored, rows.(objects := objects), sha);
      ReachesThen(Receives(s, q, result, rows), t, Receives(s, q, stored, rows.(objects := objects)),
                  Receives(s, q, result.(phase := ResultEnded), AppliedRows(rows, result.next, result.response)));
    }
  }

  /**
   A result that nobody disturbs: it is applied exactly if there is a submission without a verdict,
   the transition is allowed, and a response is new or equal to the stored one. Both rows get the
   verdict together.
   */
  lemma LoneResult(s: State, q: TaskId, next: SubmissionStatus, response: Option<Bytes>)
    requires q !in s.results
    ensures Completes(s, Applying(q, next, response),
                      Receives(s, q, ProviderResult(next, response, ResultEnded),
                               AppliedRows(RowsOf(s), next, response)))
  {
    var t := Applying(q, next, response);
    var rows := RowsOf(s);
    Issues(s, t, FetchResult(q, next, response));
    if s.submission.Some? && EvaluateTransition(s.submission.value.status, next) == Applied {
      var result := ProviderResult(next, response, Fetched(s.submission.value.responseSha));
      assert Apply(s, FetchResult(q, next, response)) == Receives(s, q, result, rows);
      LoneResponse(s, q, result, rows);
      ReachesThen(s, t, Receives(s, q, result, rows),
                  Receives(s, q, ProviderResult(next, response, ResultEnded), AppliedRows(rows, next, response)));
    }
  }
}
