/** What a failing call and a process that stops leave in the object store. */
module LocalStorageFailures {
  import opened Common
  import opened PathText
  import opened LocalStorage

  /** A failing call: the upload cleans up, fails, and leaves the other files alone. */
  lemma FailureCleansUp(s: State, u: UploaderId)
    requires u in s.uploaders && s.uploaders[u].phase in {Reading, Opening, Writing, Linking, Comparing}
    ensures
      var failed := Apply(s, IoError(u));
      && failed.files == s.files && failed.deleted == s.deleted
      && Apply(failed, Advance(u)) ==
           s.(files := s.files - {Temp(u)},
              uploaders := s.uploaders[u := Uploader(s.uploaders[u].path, s.uploaders[u].bytes, Done(false), true)])
  {
    var failed := Apply(s, IoError(u));
    assert failed.uploaders[u].phase == Cleaning(false);
    assert Apply(failed, Advance(u)).uploaders
        == s.uploaders[u := Uploader(s.uploaders[u].path, s.uploaders[u].bytes, Done(false), true)];
  }

  /** A failing clean-up makes the upload fail with its temporary file left, even when its object is there by then. */
  lemma FailedCleanUpLeavesTemp(s: State, u: UploaderId)
    requires u in s.uploaders && s.uploaders[u].phase.Cleaning?
    ensures Apply(s, IoError(u)) ==
            s.(uploaders := s.uploaders[u := Uploader(s.uploaders[u].path, s.uploaders[u].bytes, Done(false), true)])
  {}

  /** A process that stops leaves all files, and does nothing any more; an upload that has ended is not changed. */
  lemma CrashLeavesFiles(s: State, u: UploaderId)
    requires u in s.uploaders
    ensures
      var s' := Apply(s, Crash(u));
      && s'.files == s.files && s'.deleted == s.deleted
      && if s.uploaders[u].phase.Done? then s' == s
         else
           && s'.uploaders == s.uploaders[u := s.uploaders[u].(phase := Crashed)]
           && Apply(s', Advance(u)) == s' && Apply(s', IoError(u)) == s'
  {}

  /** Deleting what is not there does nothing; deleting what is there removes it alone, and is remembered. */
  lemma DeletionDecides(s: State, path: Path)
    ensures Canonical(path) !in s.files ==> Apply(s, Step.Delete(path)) == s
    ensures Canonical(path) in s.files ==>
              Apply(s, Step.Delete(path)) == s.(files := s.files - {Canonical(path)}, deleted := s.deleted + {path})
  {}

  // -- Temporary files ---------------------------------------------------------------------

  /** Only an upload under way, one whose process stopped, or one whose clean-up failed can have a temporary file. */
  ghost predicate MayHaveTemp(w: Uploader) {
    || w.phase in {Writing, Linking, Comparing, Cleaning(true), Cleaning(false), Crashed}
    || (w.phase == Done(false) && w.failed)
  }

  ghost predicate TempsAreOwned(s: State) {
    forall u: UploaderId :: Temp(u) in s.files ==> u in s.uploaders && MayHaveTemp(s.uploaders[u])
  }

  lemma StepKeepsTemps(s: State, step: Step)
    requires TempsAreOwned(s)
    ensures TempsAreOwned(Apply(s, step))
  {}

  lemma {:induction false} RunKeepsTemps(s: State, steps: seq<Step>)
    requires TempsAreOwned(s)
    ensures TempsAreOwned(Run(s, steps))
    decreases |steps|
  {
    if steps == [] {
    } else {
      StepKeepsTemps(s, steps[0]);
      RunKeepsTemps(Apply(s, steps[0]), steps[1..]);
    }
  }

  /** Over every run, an upload that succeeded, or ended without a failing call, has left no temporary file. */
  lemma EndedLeavesNoTemp(steps: seq<Step>, u: UploaderId)
    ensures
      var s := Run(Init(), steps);
      && (Temp(u) in s.files ==> u in s.uploaders && MayHaveTemp(s.uploaders[u]))
      && (u in s.uploaders && s.uploaders[u].phase.Done? && (s.uploaders[u].phase.ok || !s.uploaders[u].failed) ==>
            Temp(u) !in s.files)
  {
    RunKeepsTemps(Init(), steps);
  }
}
