/**
 The local object store: concurrent uploads to exclusively linked files. Each file-system call is
 one step, a process may stop between any two, and a step that is not enabled changes nothing.
 */
module LocalStorage {
  import opened Common
  import opened PathText

  type Bytes = seq<nat>
  type UploaderId = nat

  datatype Blob = Partial | Full(bytes: Bytes)

  /** Temporary names carry a random UUID: every uploader has its own. */
  datatype Name = Canonical(path: Path) | Temp(owner: UploaderId)

  datatype Phase =
    | Reading
    | Opening
    | Writing
    | Linking
    | Comparing
    | Cleaning(ok: bool)
    | Done(ok: bool)
    | Crashed

  /** `failed` says that a file-system call failed for a reason of its own. */
  datatype Uploader = Uploader(path: Path, bytes: Bytes, phase: Phase, failed: bool)

  /** `deleted` logs the objects that were ever deleted. */
  datatype State = State(
    files: map<Name, Blob>,
    uploaders: map<UploaderId, Uploader>,
    deleted: set<Path>)

  datatype Step =
    | Start(u: UploaderId, path: Path, bytes: Bytes)
    | Advance(u: UploaderId)
    | IoError(u: UploaderId)
    | Crash(u: UploaderId)
    | Delete(path: Path)

  function Init(): State {
    State(map[], map[], {})
  }

  function SetPhase(s: State, u: UploaderId, phase: Phase): State
    requires u in s.uploaders
  {
    s.(uploaders := s.uploaders[u := s.uploaders[u].(phase := phase)])
  }

  predicate Visible(s: State, path: Path) {
    Canonical(path) in s.files
  }

  predicate Holds(s: State, path: Path, bytes: Bytes) {
    Visible(s, path) && s.files[Canonical(path)] == Full(bytes)
  }

  /** link: exclusive, and it makes the bytes of the temporary file visible at once. */
  function DoLink(s: State, u: UploaderId): State
    requires u in s.uploaders
  {
    var w := s.uploaders[u];
    if Visible(s, w.path) then SetPhase(s, u, Comparing)
    else if Temp(u) !in s.files then s.(uploaders := s.uploaders[u := w.(phase := Cleaning(false), failed := true)])
    else SetPhase(s, u, Cleaning(true)).(files := s.files[Canonical(w.path) := s.files[Temp(u)]])
  }

  function DoAdvance(s: State, u: UploaderId): State {
    if u !in s.uploaders then s
    else
      var w := s.uploaders[u];
      match w.phase
      case Reading => SetPhase(s, u, if !Visible(s, w.path) then Opening else Done(Holds(s, w.path, w.bytes)))
      case Opening => SetPhase(s, u, Writing).(files := s.files[Temp(u) := Partial])
      case Writing => SetPhase(s, u, Linking).(files := s.files[Temp(u) := Full(w.bytes)])
      case Linking => DoLink(s, u)
      case Comparing => SetPhase(s, u, Cleaning(Holds(s, w.path, w.bytes)))
      case Cleaning(ok) => SetPhase(s, u, Done(ok)).(files := s.files - {Temp(u)})
      case Done(_) => s
      case Crashed => s
  }

  function DoStart(s: State, u: UploaderId, path: Path, bytes: Bytes): State {
    if u in s.uploaders then s else s.(uploaders := s.uploaders[u := Uploader(path, bytes, Reading, false)])
  }

  /**
   A failing call makes the upload fail, after its clean-up; also when the link was already made. A
   failing clean-up leaves the temporary file.
   */
  function DoIoError(s: State, u: UploaderId): State {
    if u !in s.uploaders || s.uploaders[u].phase.Done? || s.uploaders[u].phase.Crashed? then s
    else
      var next := if s.uploaders[u].phase.Cleaning? then Done(false) else Cleaning(false);
      s.(uploaders := s.uploaders[u := s.uploaders[u].(phase := next, failed := true)])
  }

  function DoCrash(s: State, u: UploaderId): State {
    if u in s.uploaders && !s.uploaders[u].phase.Done? then SetPhase(s, u, Crashed) else s
  }

  function DoDelete(s: State, path: Path): State {
    if Visible(s, path) then s.(files := s.files - {Canonical(path)}, deleted := s.deleted + {path}) else s
  }

  function Apply(s: State, step: Step): State {
    match step
    case Start(u, path, bytes) => DoStart(s, u, path, bytes)
    case Advance(u) => DoAdvance(s, u)
    case IoError(u) => DoIoError(s, u)
    case Crash(u) => DoCrash(s, u)
    case Delete(path) => DoDelete(s, path)
  }

  function Run(s: State, steps: seq<Step>): State
    decreases |steps|
  {
    if steps == [] then s else Run(Apply(s, steps[0]), steps[1..])
  }

  // -- The invariant -----------------------------------------------------------------------

  /**
   Unless the object was deleted: success means it has the own bytes, failure of the store's making
   that it has others.
   */
  predicate OutcomeOk(s: State, w: Uploader, ok: bool) {
    w.path !in s.deleted ==>
      && (ok ==> Holds(s, w.path, w.bytes))
      && (!ok && !w.failed ==> Visible(s, w.path) && !Holds(s, w.path, w.bytes))
  }

  /** A comparison waits for an object that was there; it is gone only if it was deleted. */
  predicate UploaderOk(s: State, u: UploaderId, w: Uploader) {
    match w.phase
    case Linking => Temp(u) in s.files && s.files[Temp(u)] == Full(w.bytes)
    case Comparing => w.path in s.deleted || Visible(s, w.path)
    case Cleaning(ok) => OutcomeOk(s, w, ok)
    case Done(ok) => OutcomeOk(s, w, ok)
    case _ => true
  }

  ghost predicate ObjectsWhole(s: State) {
    forall path :: Canonical(path) in s.files ==> s.files[Canonical(path)].Full?
  }

  ghost predicate UploadersOk(s: State) {
    forall u :: u in s.uploaders ==> UploaderOk(s, u, s.uploaders[u])
  }

  ghost predicate Inv(s: State) {
    ObjectsWhole(s) && UploadersOk(s)
  }

  /** Objects stay as they are, except deleted ones; temporary files of others stay. */
  ghost predicate Follows(s: State, s': State, u: UploaderId) {
    && s.deleted <= s'.deleted
    && (forall path :: Canonical(path) in s.files && path !in s'.deleted ==>
          Canonical(path) in s'.files && s'.files[Canonical(path)] == s.files[Canonical(path)])
    && (forall v: UploaderId :: v != u && Temp(v) in s.files ==>
        Temp(v) in s'.files && s'.files[Temp(v)] == s.files[Temp(v)])
  }

  lemma OthersKeep(s: State, s': State, u: UploaderId, v: UploaderId)
    requires Follows(s, s', u) && v in s.uploaders && v != u && UploaderOk(s, v, s.uploaders[v])
    ensures UploaderOk(s', v, s.uploaders[v])
  {}

  lemma OneMoves(s: State, s': State, u: UploaderId, w: Uploader)
    requires Inv(s) && Follows(s, s', u) && ObjectsWhole(s')
    requires s'.uploaders == s.uploaders[u := w] && UploaderOk(s', u, w)
    ensures Inv(s')
  {
    forall v | v in s'.uploaders ensures UploaderOk(s', v, s'.uploaders[v]) {
      if v != u {
        assert UploaderOk(s, v, s.uploaders[v]);
        OthersKeep(s, s', u, v);
      }
    }
  }

  lemma AdvanceKeeps(s: State, u: UploaderId)
    requires Inv(s) && u in s.uploaders
    ensures Inv(DoAdvance(s, u)) && Follows(s, DoAdvance(s, u), u)
  {
    var s' := DoAdvance(s, u);
    assert UploaderOk(s, u, s.uploaders[u]);
    if s' != s {
      OneMoves(s, s', u, s'.uploaders[u]);
    }
  }

  lemma DeleteKeeps(s: State, path: Path)
    requires Inv(s)
    ensures Inv(DoDelete(s, path)) && s.deleted <= DoDelete(s, path).deleted
  {
    var s' := DoDelete(s, path);
    forall v | v in s'.uploaders ensures UploaderOk(s', v, s'.uploaders[v]) {
      assert UploaderOk(s, v, s.uploaders[v]);
      OthersKeep(s, s', v + 1, v);
    }
  }

  lemma StepKeeps(s: State, step: Step)
    requires Inv(s)
    ensures Inv(Apply(s, step))
  {
    match step
    case Start(u, path, bytes) =>
      if Apply(s, step) != s { OneMoves(s, Apply(s, step), u, Apply(s, step).uploaders[u]); }
    case Advance(u) => if u in s.uploaders { AdvanceKeeps(s, u); }
    case IoError(u) =>
      if Apply(s, step) != s { OneMoves(s, Apply(s, step), u, Apply(s, step).uploaders[u]); }
    case Crash(u) =>
      if Apply(s, step) != s { OneMoves(s, Apply(s, step), u, Apply(s, step).uploaders[u]); }
    case Delete(path) => DeleteKeeps(s, path);
  }

  lemma {:induction false} RunKeeps(s: State, steps: seq<Step>)
    requires Inv(s)
    ensures Inv(Run(s, steps))
    decreases |steps|
  {
    if steps == [] {
    } else {
      StepKeeps(s, steps[0]);
      RunKeeps(Apply(s, steps[0]), steps[1..]);
    }
  }

  // -- Main results ------------------------------------------------------------------------

  /** A visible object is never partial, and an upload succeeded exactly if the object has its bytes. */
  lemma UploadOutcome(steps: seq<Step>, u: UploaderId)
    requires u in Run(Init(), steps).uploaders && Run(Init(), steps).uploaders[u].phase.Done?
    ensures
      var s := Run(Init(), steps);
      var w := s.uploaders[u];
      && (w.path !in s.deleted && !w.failed ==> (w.phase.ok <==> Holds(s, w.path, w.bytes)))
      && (w.path !in s.deleted && w.phase.ok ==> Holds(s, w.path, w.bytes))
      && (Visible(s, w.path) ==> s.files[Canonical(w.path)].Full?)
  {
    RunKeeps(Init(), steps);
    var s := Run(Init(), steps);
    assert UploaderOk(s, u, s.uploaders[u]);
  }

  lemma StepKeepsObject(s: State, step: Step, path: Path)
    requires Visible(s, path) && step != Delete(path)
    ensures Visible(Apply(s, step), path) && Apply(s, step).files[Canonical(path)] == s.files[Canonical(path)]
  {}

  /** The first writer wins: once visible, an object never changes until it is deleted. */
  lemma {:induction false} FirstWriterWins(s: State, steps: seq<Step>, path: Path)
    requires Visible(s, path) && Delete(path) !in steps
    ensures Visible(Run(s, steps), path) && Run(s, steps).files[Canonical(path)] == s.files[Canonical(path)]
    decreases |steps|
  {
    if steps == [] {
    } else {
      StepKeepsObject(s, steps[0], path);
      FirstWriterWins(Apply(s, steps[0]), steps[1..], path);
    }
  }

  /** Seen from outside, a store changes only by putting whole objects where none was, and by deletions. */
  lemma StepPutsWholeObjects(s: State, step: Step, path: Path)
    requires Inv(s) && !Visible(s, path) && Visible(Apply(s, step), path)
    ensures step.Advance? && step.u in s.uploaders
    ensures s.uploaders[step.u].phase == Linking && s.uploaders[step.u].path == path
    ensures Holds(Apply(s, step), path, s.uploaders[step.u].bytes)
  {
    if step.Advance? && step.u in s.uploaders {
      assert UploaderOk(s, step.u, s.uploaders[step.u]);
    }
  }

  /** Two uploads of different bytes to one object never both succeed, unless it was deleted in between. */
  lemma DifferentBytesConflict(steps: seq<Step>, u: UploaderId, v: UploaderId)
    requires
      var s := Run(Init(), steps);
      && u in s.uploaders && v in s.uploaders
      && s.uploaders[u].phase == Done(true) && s.uploaders[v].phase == Done(true)
      && s.uploaders[u].path == s.uploaders[v].path && s.uploaders[u].path !in s.deleted
    ensures Run(Init(), steps).uploaders[u].bytes == Run(Init(), steps).uploaders[v].bytes
  {
    UploadOutcome(steps, u);
    UploadOutcome(steps, v);
  }

  // -- Put if absent -----------------------------------------------------------------------

  /** What others see of the store. */
  function Objects(s: State): map<Path, Bytes> {
    map name | name in s.files && name.Canonical? && s.files[name].Full? :: name.path := s.files[name].bytes
  }

  lemma ObjectsAt(s: State, path: Path)
    ensures path in Objects(s) <==> Canonical(path) in s.files && s.files[Canonical(path)].Full?
    ensures path in Objects(s) ==> s.files[Canonical(path)] == Full(Objects(s)[path])
  {
    if Canonical(path) in s.files && s.files[Canonical(path)].Full? {
      assert Canonical(path).path in Objects(s);
    }
  }

  lemma SameObjects(s: State, s': State)
    requires forall path :: Canonical(path) in s.files <==> Canonical(path) in s'.files
    requires forall path :: Canonical(path) in s.files ==> s'.files[Canonical(path)] == s.files[Canonical(path)]
    ensures Objects(s') == Objects(s)
  {
    forall path ensures path in Objects(s') <==> path in Objects(s) {
      ObjectsAt(s, path);
      ObjectsAt(s', path);
    }
    forall path | path in Objects(s) ensures Objects(s')[path] == Objects(s)[path] {
      ObjectsAt(s, path);
      ObjectsAt(s', path);
    }
  }

  lemma LinkPuts(s: State, u: UploaderId)
    requires Inv(s) && u in s.uploaders && s.uploaders[u].phase == Linking && !Visible(s, s.uploaders[u].path)
    ensures
      var w := s.uploaders[u];
      && Objects(DoLink(s, u)) == Put(Objects(s), w.path, w.bytes) && w.path !in Objects(s)
      && DoLink(s, u).uploaders == s.uploaders[u := w.(phase := Cleaning(true))]
  {
    var w, s' := s.uploaders[u], DoLink(s, u);
    assert UploaderOk(s, u, w);
    assert s'.files == s.files[Canonical(w.path) := Full(w.bytes)];
    ObjectsAt(s, w.path);
    forall path ensures path in Objects(s') <==> path in Objects(s)[w.path := w.bytes] {
      ObjectsAt(s, path);
      ObjectsAt(s', path);
    }
    forall path | path in Objects(s') ensures Objects(s')[path] == Objects(s)[w.path := w.bytes][path] {
      ObjectsAt(s, path);
      ObjectsAt(s', path);
    }
  }

  /** The upload a step decides: it finds an object, links its own, or compares with the winner. */
  function Decides(s: State, step: Step): Option<Uploader> {
    if !step.Advance? || step.u !in s.uploaders then None
    else
      var w := s.uploaders[step.u];
      if w.phase == Linking && !Visible(s, w.path) then Some(w)
      else if (w.phase == Reading || w.phase == Comparing) && Visible(s, w.path) then Some(w)
      else None
  }

  predicate Answers(w: Uploader, ok: bool) {
    w.phase == Cleaning(ok) || w.phase == Done(ok)
  }

  lemma FoundIsPut(s: State, u: UploaderId)
    requires Inv(s) && u in s.uploaders && Visible(s, s.uploaders[u].path)
    ensures
      var w := s.uploaders[u];
      && Put(Objects(s), w.path, w.bytes) == Objects(s)
      && PutSucceeds(Objects(s), w.path, w.bytes) == Holds(s, w.path, w.bytes)
  {
    ObjectsAt(s, s.uploaders[u].path);
  }

  /**
   An upload takes effect in one step, as one put-if-absent: what others see becomes the result of
   Put, and the answer is whether Put succeeds there. No other step but a deletion changes what
   others see.
   */
  lemma UploadRefinesPut(s: State, step: Step)
    requires Inv(s) && !step.Delete?
    ensures
      match Decides(s, step)
      case None => Objects(Apply(s, step)) == Objects(s)
      case Some(w) =>
        && Objects(Apply(s, step)) == Put(Objects(s), w.path, w.bytes)
        && step.u in Apply(s, step).uploaders
        && Answers(Apply(s, step).uploaders[step.u], PutSucceeds(Objects(s), w.path, w.bytes))
  {
    if Decides(s, step).Some? && s.uploaders[step.u].phase == Linking {
      LinkPuts(s, step.u);
    } else {
      SameObjects(s, Apply(s, step));
      if Decides(s, step).Some? {
        FoundIsPut(s, step.u);
      }
    }
  }

  /** The step that gives an upload its answer, no call having failed. */
  ghost predicate Answering(s: State, step: Step, u: UploaderId) {
    && u in s.uploaders && !s.uploaders[u].phase.Cleaning? && !s.uploaders[u].phase.Done?
    && u in Apply(s, step).uploaders && !Apply(s, step).uploaders[u].failed
    && (Apply(s, step).uploaders[u].phase.Cleaning? || Apply(s, step).uploaders[u].phase.Done?)
  }

  /** Unless a call failed, only such a step gives an upload its answer, or the winner was deleted meanwhile. */
  lemma AnswersAreDecided(s: State, step: Step, u: UploaderId)
    requires Inv(s) && Answering(s, step, u)
    ensures step == Advance(u)
    ensures
      var w := s.uploaders[u];
      Decides(s, step) == Some(w) <==> !(w.phase == Comparing && !Visible(s, w.path))
  {
    assert UploaderOk(s, u, s.uploaders[u]);
  }

  /** The uploads of a run in the order in which they took effect. */
  function Uploads(s: State, steps: seq<Step>): seq<Uploader>
    decreases |steps|
  {
    if steps == [] then []
    else
      var first := match Decides(s, steps[0]) case None => [] case Some(w) => [w];
      first + Uploads(Apply(s, steps[0]), steps[1..])
  }

  function PutAll(objects: map<Path, Bytes>, uploads: seq<Uploader>): map<Path, Bytes>
    decreases |uploads|
  {
    if uploads == [] then objects
    else PutAll(Put(objects, uploads[0].path, uploads[0].bytes), uploads[1..])
  }

  /** Every run without deletions is a sequence of atomic puts, whatever interleaves, fails or stops. */
  lemma {:induction false} RunRefinesPuts(s: State, steps: seq<Step>)
    requires Inv(s) && forall i :: 0 <= i < |steps| ==> !steps[i].Delete?
    ensures Objects(Run(s, steps)) == PutAll(Objects(s), Uploads(s, steps))
    decreases |steps|
  {
    if steps == [] {
    } else {
      var step := steps[0];
      UploadRefinesPut(s, step);
      StepKeeps(s, step);
      RunRefinesPuts(Apply(s, step), steps[1..]);
      match Decides(s, step)
      case None => assert [] + Uploads(Apply(s, step), steps[1..]) == Uploads(Apply(s, step), steps[1..]);
      case Some(w) => assert ([w] + Uploads(Apply(s, step), steps[1..]))[1..] == Uploads(Apply(s, step), steps[1..]);
    }
  }

  // -- Keys --------------------------------------------------------------------------------

  const NUL: char := 0 as char

  function ResolveKey(root: Path, key: string): Option<Path> {
    if key == "" || NUL in key || IsAbsolute(key) then None
    else
      var candidate := Resolve(root, key);
      var relation := Relative(root, candidate);
      if relation == "" || !StaysInside(relation) then None else Some(candidate)
  }

  /** An accepted key names a file strictly below the root. */
  lemma ResolveKeyStaysInside(root: Path, key: string)
    requires Clean(root)
    ensures
      var candidate := Resolve(root, key);
      ResolveKey(root, key) ==
        if (0 as char) !in key && !("/" <= key) && root < candidate && !(".." <= candidate[|root|])
        then Some(candidate) else None
  {
    OneStep(root, "");
    ResolveIsClean(root, key);
    RelationMeaning(root, Resolve(root, key));
  }

  // -- Executions --------------------------------------------------------------------------

  /** The uploader a step belongs to. */
  function Actor(step: Step): Option<UploaderId> {
    match step
    case Start(u, _, _) => Some(u)
    case Advance(u) => Some(u)
    case IoError(u) => Some(u)
    case Crash(u) => Some(u)
    case Delete(_) => None
  }

  ghost predicate Foreign(steps: seq<Step>, u: UploaderId) {
    forall i :: 0 <= i < |steps| ==> Actor(steps[i]) != Some(u)
  }

  predicate SameUploader(s: State, s': State, u: UploaderId) {
    && (u in s.uploaders <==> u in s'.uploaders) && (u in s.uploaders ==> s'.uploaders[u] == s.uploaders[u])
    && (Temp(u) in s.files <==> Temp(u) in s'.files) && (Temp(u) in s.files ==> s'.files[Temp(u)] == s.files[Temp(u)])
  }

  lemma OtherStepKeepsUploader(s: State, step: Step, u: UploaderId)
    requires Actor(step) != Some(u)
    ensures SameUploader(s, Apply(s, step), u)
  {}

  lemma {:induction false} OthersKeepUploader(s: State, steps: seq<Step>, u: UploaderId)
    requires Foreign(steps, u)
    ensures SameUploader(s, Run(s, steps), u)
    decreases |steps|
  {
    if steps == [] {
    } else {
      OtherStepKeepsUploader(s, steps[0], u);
      OthersKeepUploader(Apply(s, steps[0]), steps[1..], u);
    }
  }

  predicate Ended(s: State, u: UploaderId) {
    u !in s.uploaders || s.uploaders[u].phase.Done? || s.uploaders[u].phase.Crashed?
  }

  /** An upload alternates between waiting and its next call until it has its answer. */
  function Play(s: State, u: UploaderId, others: seq<seq<Step>>): State
    decreases |others|
  {
    if others == [] || Ended(s, u) then s
    else Play(Apply(Run(s, others[0]), Advance(u)), u, others[1..])
  }

  function PlayedSteps(s: State, u: UploaderId, others: seq<seq<Step>>): seq<Step>
    decreases |others|
  {
    if others == [] || Ended(s, u) then []
    else others[0] + [Advance(u)] + PlayedSteps(Apply(Run(s, others[0]), Advance(u)), u, others[1..])
  }

  lemma {:induction false} RunAppend(s: State, first: seq<Step>, second: seq<Step>)
    ensures Run(s, first + second) == Run(Run(s, first), second)
    decreases |first|
  {
    if first == [] {
      assert first + second == second;
    } else {
      assert (first + second)[1..] == first[1..] + second;
      RunAppend(Apply(s, first[0]), first[1..], second);
    }
  }

  lemma RunTurn(s: State, others: seq<Step>, step: Step, rest: seq<Step>)
    ensures Run(s, others + [step] + rest) == Run(Apply(Run(s, others), step), rest)
  {
    RunAppend(s, others + [step], rest);
    RunAppend(s, others, [step]);
    assert [step][1..] == [];
    assert Run(Run(s, others), [step]) == Apply(Run(s, others), step);
  }

  lemma {:induction false} PlayIsRun(s: State, u: UploaderId, others: seq<seq<Step>>)
    ensures Play(s, u, others) == Run(s, PlayedSteps(s, u, others))
    decreases |others|
  {
    if others == [] || Ended(s, u) {
    } else {
      var s' := Apply(Run(s, others[0]), Advance(u));
      PlayIsRun(s', u, others[1..]);
      RunTurn(s, others[0], Advance(u), PlayedSteps(s', u, others[1..]));
    }
  }

  /** Every execution of upload, whatever happens between its calls, is a run of the system. */
  lemma UploadIsRun(s: State, u: UploaderId, path: Path, bytes: Bytes, others: seq<seq<Step>>)
    ensures
      var started := Apply(s, Start(u, path, bytes));
      Play(started, u, others) == Run(s, [Start(u, path, bytes)] + PlayedSteps(started, u, others))
  {
    var started := Apply(s, Start(u, path, bytes));
    PlayIsRun(started, u, others);
    assert ([Start(u, path, bytes)] + PlayedSteps(started, u, others))[1..] == PlayedSteps(started, u, others);
  }

  lemma PlayTurn(s: State, u: UploaderId, others: seq<Step>, rest: seq<seq<Step>>)
    requires !Ended(s, u)
    ensures Play(s, u, [others] + rest) == Play(Apply(Run(s, others), Advance(u)), u, rest)
  {
    assert ([others] + rest)[1..] == rest;
  }

  lemma PlayEnds(s: State, u: UploaderId, others: seq<seq<Step>>)
    requires Ended(s, u)
    ensures Play(s, u, others) == s
  {}

  // -- What callers see --------------------------------------------------------------------

  datatype StorageError = InvalidKey | ObjectConflict | NotFound

  /** What a download gives. */
  function Fetched(s: State, path: Path): Result<Bytes, StorageError> {
    if path in Objects(s) then Ok(Objects(s)[path]) else Err(NotFound)
  }

  /** What an answer says of the object: it has the own bytes, or others, or was deleted while compared. */
  lemma AnswerMeans(s: State, step: Step, u: UploaderId)
    requires Inv(s) && Answering(s, step, u)
    ensures
      var w, s' := s.uploaders[u], Apply(s, step);
      && (s'.uploaders[u].phase.ok <==> Holds(s', w.path, w.bytes))
      && (!Visible(s', w.path) ==> w.phase == Comparing)
  {
    assert UploaderOk(s, u, s.uploaders[u]);
    StepKeeps(s, step);
  }

  /**
   From its answer on, a successful upload is read back by every download until the object is deleted,
   and so are the other bytes that made an upload fail; whatever was deleted before.
   */
  lemma UploadReadsBack(steps: seq<Step>, step: Step, u: UploaderId, more: seq<Step>)
    requires Answering(Run(Init(), steps), step, u)
    requires Delete(Run(Init(), steps).uploaders[u].path) !in more
    ensures
      var s := Run(Init(), steps);
      var w, s' := s.uploaders[u], Apply(s, step);
      var found := Fetched(Run(s', more), w.path);
      && (s'.uploaders[u].phase.ok ==> found == Ok(w.bytes))
      && (!s'.uploaders[u].phase.ok && Visible(s', w.path) ==> found.Ok? && found.value != w.bytes)
  {
    var s := Run(Init(), steps);
    var w, s' := s.uploaders[u], Apply(s, step);
    RunKeeps(Init(), steps);
    StepKeeps(s, step);
    RunKeeps(s', more);
    AnswerMeans(s, step, u);
    if Visible(s', w.path) {
      FirstWriterWins(s', more, w.path);
    }
    ObjectsAt(Run(s', more), w.path);
  }

  lemma DeleteRemoves(s: State, path: Path)
    requires Inv(s)
    ensures Objects(DoDelete(s, path)) == Objects(s) - {path} && !Visible(DoDelete(s, path), path)
  {
    var s' := DoDelete(s, path);
    forall other ensures other in Objects(s') <==> other in Objects(s) - {path} {
      ObjectsAt(s, other);
      ObjectsAt(s', other);
    }
    forall other | other in Objects(s') ensures Objects(s')[other] == Objects(s)[other] {
      ObjectsAt(s, other);
      ObjectsAt(s', other);
    }
  }

  lemma PlayThree(s: State, u: UploaderId, rest: seq<seq<Step>>)
    requires u in s.uploaders && s.uploaders[u].phase == Reading && !Visible(s, s.uploaders[u].path)
    ensures Play(s, u, [[], [], []] + rest)
         == Play(Apply(Apply(Apply(s, Advance(u)), Advance(u)), Advance(u)), u, rest)
  {
    PlayTurn(s, u, [], [[], []] + rest);
    PlayTurn(Apply(s, Advance(u)), u, [], [[]] + rest);
    PlayTurn(Apply(Apply(s, Advance(u)), Advance(u)), u, [], rest);
    assert [[], [], []] + rest == [[]] + ([[], []] + rest) && [[], []] + rest == [[]] + ([[]] + rest);
  }

  /** Alone, an upload that found nothing gets to its link with its bytes in the private file. */
  lemma LonePreparing(s: State, u: UploaderId, w: Uploader)
    requires Inv(s) && u in s.uploaders && s.uploaders[u] == w && w.phase == Reading && !Visible(s, w.path)
    ensures
      var linking := Apply(Apply(Apply(s, Advance(u)), Advance(u)), Advance(u));
      && Inv(linking) && Objects(linking) == Objects(s) && !Visible(linking, w.path)
      && u in linking.uploaders && linking.uploaders[u] == w.(phase := Linking)
  {
    var opening := Apply(s, Advance(u));
    AdvanceKeeps(s, u);
    UploadRefinesPut(s, Advance(u));
    var writing := Apply(opening, Advance(u));
    AdvanceKeeps(opening, u);
    UploadRefinesPut(opening, Advance(u));
    AdvanceKeeps(writing, u);
    UploadRefinesPut(writing, Advance(u));
  }

  lemma LoneLinking(s: State, u: UploaderId, w: Uploader)
    requires Inv(s) && u in s.uploaders && s.uploaders[u] == w && w.phase == Linking && !Visible(s, w.path)
    ensures
      var s' := Play(s, u, [[], [], []]);
      && Objects(s') == Put(Objects(s), w.path, w.bytes)
      && u in s'.uploaders && s'.uploaders[u] == w.(phase := Done(true))
  {
    var cleaning := Apply(s, Advance(u));
    LinkPuts(s, u);
    AdvanceKeeps(s, u);
    var done := Apply(cleaning, Advance(u));
    UploadRefinesPut(cleaning, Advance(u));
    var none: seq<Step> := [];
    assert [none] + [none, none] == [none, none, none] && [none] + [none] == [none, none];
    PlayTurn(s, u, [], [none, none]);
    PlayTurn(cleaning, u, [], [none]);
    PlayEnds(done, u, [none]);
  }

  lemma LonePlacing(s: State, u: UploaderId, w: Uploader)
    requires Inv(s) && u in s.uploaders && s.uploaders[u] == w && w.phase == Reading && !Visible(s, w.path)
    ensures
      var s' := Play(s, u, [[], [], [], [], [], []]);
      && Objects(s') == Put(Objects(s), w.path, w.bytes)
      && u in s'.uploaders && s'.uploaders[u].phase == Done(true)
  {
    var none: seq<Step> := [];
    assert [none, none, none] + [none, none, none] == [none, none, none, none, none, none];
    PlayThree(s, u, [none, none, none]);
    LonePreparing(s, u, w);
    LoneLinking(Apply(Apply(Apply(s, Advance(u)), Advance(u)), Advance(u)), u, w.(phase := Linking));
  }

  /** An upload that nobody disturbs is one put: the first writer wins, equal bytes succeed, others fail. */
  lemma LoneUpload(s: State, path: Path, u: UploaderId, bytes: Bytes)
    requires Inv(s) && u !in s.uploaders
    ensures
      var s' := Play(Apply(s, Start(u, path, bytes)), u, [[], [], [], [], [], []]);
      && Objects(s') == Put(Objects(s), path, bytes)
      && u in s'.uploaders && s'.uploaders[u].phase == Done(PutSucceeds(Objects(s), path, bytes))
  {
    var started := Apply(s, Start(u, path, bytes));
    StepKeeps(s, Start(u, path, bytes));
    SameObjects(s, started);
    var waits: seq<seq<Step>> := [[], [], [], [], [], []];
    ObjectsAt(started, path);
    if Visible(started, path) {
      UploadRefinesPut(started, Advance(u));
      assert waits == [[]] + waits[1..];
      PlayTurn(started, u, [], waits[1..]);
      PlayEnds(Apply(started, Advance(u)), u, waits[1..]);
    } else {
      LonePlacing(started, u, Uploader(path, bytes, Reading, false));
    }
  }

  /** A deletion removes that object alone, and the next upload by itself stores its own bytes. */
  lemma DeletionFreesKey(s: State, path: Path, u: UploaderId, bytes: Bytes)
    requires Inv(s) && u !in s.uploaders
    ensures
      var deleted := Apply(s, Step.Delete(path));
      var stored := Play(Apply(deleted, Start(u, path, bytes)), u, [[], [], [], [], [], []]);
      && Objects(deleted) == Objects(s) - {path} && Fetched(deleted, path) == Err(NotFound)
      && Objects(stored) == Objects(deleted)[path := bytes] && Fetched(stored, path) == Ok(bytes)
      && u in stored.uploaders && stored.uploaders[u].phase == Done(true)
  {
    var deleted := Apply(s, Step.Delete(path));
    DeleteKeeps(s, path);
    DeleteRemoves(s, path);
    LoneUpload(deleted, path, u, bytes);
  }

  // -- The object --------------------------------------------------------------------------

  class LocalStorageAdapter {
    const root: Path
    var files: map<Name, Blob>
    /** The directory, the other uploaders, and the log of deletions. */
    var state: State

    ghost predicate Valid()
      reads this
    {
      files == state.files && Inv(state)
    }

    constructor (root: Path)
      requires Clean(root)
      ensures this.root == root && Valid() && state == Init()
    {
      this.root := root;
      files, state := map[], Init();
    }

    /** While one upload awaits, everybody else may take any number of steps. */
    method Await(u: UploaderId, others: seq<Step>)
      requires Valid() && Foreign(others, u)
      modifies this
      ensures Valid() && state == Run(old(state), others) && SameUploader(old(state), state, u)
    {
      OthersKeepUploader(state, others, u);
      RunKeeps(state, others);
      state := Run(state, others);
      files := state.files;
    }

    ghost predicate At(u: UploaderId, w: Uploader)
      reads this
    {
      u in state.uploaders && state.uploaders[u] == w
    }

    /** readFile, with undefined for a missing file. */
    method ReadIfPresent(u: UploaderId, w: Uploader) returns (existing: Option<Bytes>)
      requires Valid() && At(u, w) && w.phase == Reading
      modifies this`state
      ensures Valid() && state == Apply(old(state), Advance(u))
      ensures existing.Some? <==> Canonical(w.path) in files
      ensures existing.Some? ==> files[Canonical(w.path)] == Full(existing.value)
      ensures At(u, w.(phase := if existing.None? then Opening else Done(existing.value == w.bytes)))
    {
      AdvanceKeeps(state, u);
      existing := None;
      if Canonical(w.path) in files {
        existing := Some(files[Canonical(w.path)].bytes);
      }
      state := Apply(state, Advance(u));
    }

    /** open with flag wx on the private name. */
    method OpenTemporary(u: UploaderId, w: Uploader)
      requires Valid() && At(u, w) && w.phase == Opening
      modifies this
      ensures Valid() && state == Apply(old(state), Advance(u)) && At(u, w.(phase := Writing))
    {
      AdvanceKeeps(state, u);
      files := files[Temp(u) := Partial];
      state := Apply(state, Advance(u));
    }

    method WriteTemporary(u: UploaderId, w: Uploader, bytes: Bytes)
      requires Valid() && At(u, w) && w.phase == Writing && w.bytes == bytes
      modifies this
      ensures Valid() && state == Apply(old(state), Advance(u)) && At(u, w.(phase := Linking))
    {
      AdvanceKeeps(state, u);
      files := files[Temp(u) := Full(bytes)];
      state := Apply(state, Advance(u));
    }

    /** link: it fails when the canonical name exists. */
    method Link(u: UploaderId, w: Uploader) returns (linked: bool)
      requires Valid() && At(u, w) && w.phase == Linking
      modifies this
      ensures Valid() && state == Apply(old(state), Advance(u))
      ensures linked <==> Canonical(w.path) !in old(files)
      ensures At(u, w.(phase := if linked then Cleaning(true) else Comparing))
    {
      assert UploaderOk(state, u, w);
      AdvanceKeeps(state, u);
      linked := Canonical(w.path) !in files;
      if linked {
        files := files[Canonical(w.path) := files[Temp(u)]];
      }
      state := Apply(state, Advance(u));
    }

    /** Reads the winner and compares; the winner may have been deleted meanwhile. */
    method CompareWithWinner(u: UploaderId, w: Uploader) returns (failure: Option<StorageError>)
      requires Valid() && At(u, w) && w.phase == Comparing
      modifies this`state
      ensures Valid() && state == Apply(old(state), Advance(u))
      ensures failure == Some(NotFound) <==> Canonical(w.path) !in files
      ensures failure != Some(InvalidKey) && At(u, w.(phase := Cleaning(failure.None?)))
    {
      AdvanceKeeps(state, u);
      failure := Some(NotFound);
      if Canonical(w.path) in files {
        var winner := files[Canonical(w.path)].bytes;
        failure := if winner == w.bytes then None else Some(ObjectConflict);
      }
      state := Apply(state, Advance(u));
    }

    /** The finally block. */
    method UnlinkTemporary(u: UploaderId, w: Uploader)
      requires Valid() && At(u, w) && w.phase.Cleaning?
      modifies this
      ensures Valid() && state == Apply(old(state), Advance(u)) && At(u, w.(phase := Done(w.phase.ok)))
      ensures Temp(u) !in files
    {
      AdvanceKeeps(state, u);
      files := files - {Temp(u)};
      state := Apply(state, Advance(u));
    }

    /**
     upload, with arbitrary interference at every await: it leaves the files the system gives, and
     succeeds exactly if the system's upload does.
     */
    method Upload(key: string, bytes: Bytes, u: UploaderId, others: seq<seq<Step>>)
      returns (failure: Option<StorageError>)
      requires Valid() && u !in state.uploaders && |others| == 6
      requires forall i :: 0 <= i < 6 ==> Foreign(others[i], u)
      modifies this
      ensures Valid()
      ensures
        match ResolveKey(root, key)
        case None => failure == Some(InvalidKey) && state == old(state)
        case Some(path) =>
          && failure != Some(InvalidKey)
          && state == Play(Apply(old(state), Start(u, path, bytes)), u, others)
          && At(u, Uploader(path, bytes, Done(failure.None?), false))
    {
      var path := ResolveKey(root, key);
      if path.None? {
        return Some(InvalidKey);
      }
      var w := Uploader(path.value, bytes, Reading, false);
      StepKeeps(state, Start(u, path.value, bytes));
      state := Apply(state, Start(u, path.value, bytes));
      PlayTurn(state, u, others[0], others[1..]);
      assert others == [others[0]] + others[1..];
      Await(u, others[0]);
      var existing := ReadIfPresent(u, w);
      if existing.Some? {
        PlayEnds(state, u, others[1..]);
        return if existing.value == bytes then None else Some(ObjectConflict);
      }
      failure := Place(u, w.(phase := Opening), others[1..]);
    }

    /** The private file, the link, and the clean-up. */
    method Place(u: UploaderId, w: Uploader, others: seq<seq<Step>>) returns (failure: Option<StorageError>)
      requires Valid() && At(u, w) && w.phase == Opening && |others| == 5
      requires forall i :: 0 <= i < 5 ==> Foreign(others[i], u)
      modifies this
      ensures Valid() && state == Play(old(state), u, others)
      ensures failure != Some(InvalidKey) && At(u, w.(phase := Done(failure.None?)))
    {
      PlayTurn(state, u, others[0], others[1..]);
      assert others == [others[0]] + others[1..];
      Await(u, others[0]);
      OpenTemporary(u, w);
      PlayTurn(state, u, others[1], others[2..]);
      assert others[1..] == [others[1]] + others[2..];
      Await(u, others[1]);
      WriteTemporary(u, w.(phase := Writing), w.bytes);
      failure := Settle(u, w.(phase := Linking), others[2..]);
    }

    method Settle(u: UploaderId, w: Uploader, others: seq<seq<Step>>) returns (failure: Option<StorageError>)
      requires Valid() && At(u, w) && w.phase == Linking && |others| == 3
      requires forall i :: 0 <= i < 3 ==> Foreign(others[i], u)
      modifies this
      ensures Valid() && state == Play(old(state), u, others)
      ensures failure != Some(InvalidKey) && At(u, w.(phase := Done(failure.None?)))
    {
      PlayTurn(state, u, others[0], others[1..]);
      assert others == [others[0]] + others[1..];
      Await(u, others[0]);
      var linked := Link(u, w);
      failure := None;
      if linked {
        Finish(u, w.(phase := Cleaning(true)), others[1], others[2..]);
        assert others[1..] == [others[1]] + others[2..];
      } else {
        PlayTurn(state, u, others[1], others[2..]);
        assert others[1..] == [others[1]] + others[2..];
        Await(u, others[1]);
        failure := CompareWithWinner(u, w.(phase := Comparing));
        Finish(u, w.(phase := Cleaning(failure.None?)), others[2], []);
        assert others[2..] == [others[2]] + [];
      }
    }

    method Finish(u: UploaderId, w: Uploader, others: seq<Step>, rest: seq<seq<Step>>)
      requires Valid() && At(u, w) && w.phase.Cleaning? && Foreign(others, u)
      modifies this
      ensures Valid() && state == Play(old(state), u, [others] + rest) && At(u, w.(phase := Done(w.phase.ok)))
    {
      PlayTurn(state, u, others, rest);
      Await(u, others);
      UnlinkTemporary(u, w);
      PlayEnds(state, u, rest);
    }

    /** readFile of the canonical name. */
    method Download(key: string) returns (result: Result<Bytes, StorageError>)
      requires Valid()
      ensures
        match ResolveKey(root, key)
        case None => result == Err(InvalidKey)
        case Some(path) => result == Fetched(state, path)
    {
      var path := ResolveKey(root, key);
      if path.None? {
        return Err(InvalidKey);
      }
      ObjectsAt(state, path.value);
      if Canonical(path.value) !in files {
        return Err(NotFound);
      }
      return Ok(files[Canonical(path.value)].bytes);
    }

    /** unlink of the canonical name. */
    method Unlink(path: Path) returns (found: bool)
      requires Valid()
      modifies this
      ensures Valid() && state == Apply(old(state), Step.Delete(path))
      ensures found <==> Canonical(path) in old(files)
    {
      DeleteKeeps(state, path);
      found := Canonical(path) in files;
      if found {
        files := files - {Canonical(path)};
      }
      state := Apply(state, Step.Delete(path));
    }

    method Delete(key: string) returns (failure: Option<StorageError>)
      requires Valid()
      modifies this
      ensures Valid()
      ensures
        match ResolveKey(root, key)
        case None => failure == Some(InvalidKey) && state == old(state)
        case Some(path) =>
          && state == Apply(old(state), Step.Delete(path)) && failure != Some(InvalidKey)
          && (failure == None <==> Fetched(old(state), path).Ok?)
    {
      var path := ResolveKey(root, key);
      if path.None? {
        return Some(InvalidKey);
      }
      ObjectsAt(state, path.value);
      var found := Unlink(path.value);
      failure := if found then None else Some(NotFound);
    }
  }
}
