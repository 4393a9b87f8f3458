/**
 The secret store as a plain map. The value a read gives is always that of the latest metadata
 rename; when a lock is broken only after its holder is gone, no commit is ever lost and versions
 only grow. A broken live lock can lose a commit, as a trace shows.
 */
module SecretStoreRefinement {
  import opened Common
  import opened DecimalText
  import opened SecretStoreModel
  import opened SecretStoreSafety
  import opened SecretStoreLineage

  // -- Exclusive holders -------------------------------------------------------------------

  ghost predicate NobodyInside(d: Directory) {
    forall w :: w in d.writers ==> !InCritical(d.writers[w].phase)
  }

  /** A lock is broken only when no live process is inside the critical section. */
  ghost predicate BreaksDeadLock(d: Directory, step: Step) {
    step.Advance? && step.w in d.writers && d.writers[step.w].phase.Breaking? ==> NobodyInside(d)
  }

  ghost predicate ExclusiveRun(d: Directory, steps: seq<Step>)
    decreases |steps|
  {
    steps == [] || (BreaksDeadLock(d, steps[0]) && ExclusiveRun(Apply(d, steps[0]), steps[1..]))
  }

  predicate BeforeLink(phase: Phase) {
    phase.Numbered? || phase.RecordOpened? || phase.RecordFilled?
  }

  /** What the only process inside knows: the metadata it read is still the metadata, and its name is free. */
  predicate Informed(d: Directory, wr: Writer) {
    && (BeforeRename(wr.phase) ==> Existing(wr.phase) == Current(d))
    && (BeforeLink(wr.phase) ==>
          wr.phase.next < Pow10(VERSION_DIGITS) ==> VersionName(FileName(wr.phase.next)) !in d.files)
  }

  predicate AloneInside(d: Directory, w: ProcessId)
    requires w in d.writers
  {
    InCritical(d.writers[w].phase) ==>
      && LockName in d.files
      && Informed(d, d.writers[w])
      && forall v :: v in d.writers && v != w ==> !InCritical(d.writers[v].phase)
  }

  ghost predicate Exclusive(d: Directory) {
    forall w :: w in d.writers ==> AloneInside(d, w)
  }

  /** A process inside takes one step, alone. */
  lemma InsideStepKeeps(d: Directory, d': Directory, w: ProcessId, wr: Writer)
    requires Exclusive(d) && w in d.writers && InCritical(d.writers[w].phase)
    requires d'.writers == d.writers[w := wr]
    requires InCritical(wr.phase) ==> LockName in d'.files && Informed(d', wr)
    ensures Exclusive(d')
  {
    assert AloneInside(d, w);
    forall v | v in d'.writers ensures AloneInside(d', v) {
      if v != w {
        assert !InCritical(d.writers[v].phase);
      }
    }
  }

  /** A process outside takes a step that leaves the files alone. */
  lemma OutsideStepKeeps(d: Directory, d': Directory, w: ProcessId, wr: Writer)
    requires Exclusive(d) && d'.writers == d.writers[w := wr] && !InCritical(wr.phase)
    requires d'.files == d.files
    ensures Exclusive(d')
  {
    forall v | v in d'.writers ensures AloneInside(d', v) {
      if v != w {
        assert AloneInside(d, v);
      }
    }
  }

  /** A process finds no lock, so nobody is inside: it enters, or it removes a dead lock. */
  lemma EmptyStepKeeps(d: Directory, d': Directory, w: ProcessId, wr: Writer)
    requires Exclusive(d) && NobodyInside(d) && d'.writers == d.writers[w := wr]
    requires !InCritical(wr.phase) || (wr.phase == Opened && LockName in d'.files)
    ensures Exclusive(d')
  {
    forall v | v in d'.writers ensures AloneInside(d', v) {
    }
  }

  lemma EnterKeeps(d: Directory, w: ProcessId)
    requires Exclusive(d) && w in d.writers && d.writers[w].phase.Acquiring?
    ensures Exclusive(DoAdvance(d, w))
  {
    var d' := DoAdvance(d, w);
    if LockName in d.files {
      OutsideStepKeeps(d, d', w, d'.writers[w]);
    } else {
      forall v | v in d.writers ensures !InCritical(d.writers[v].phase) {
        assert AloneInside(d, v);
      }
      EmptyStepKeeps(d, d', w, d'.writers[w]);
    }
  }

  lemma BreakKeeps(d: Directory, w: ProcessId)
    requires Exclusive(d) && w in d.writers && d.writers[w].phase.Breaking? && NobodyInside(d)
    ensures Exclusive(DoAdvance(d, w))
  {
    EmptyStepKeeps(d, DoAdvance(d, w), w, DoAdvance(d, w).writers[w]);
  }

  lemma NumberIsFree(d: Directory, next: nat)
    requires next == Max(CurrentVersion(Current(d)), MaximumVersionOnDisk(d.files)) + 1
    requires next < Pow10(VERSION_DIGITS)
    ensures VersionName(FileName(next)) !in d.files
  {
    RecognisedVersions(next);
    if VersionName(FileName(next)) in d.files {
      ScanSees(d.files, FileName(next));
    }
  }

  lemma NumberStepKeeps(d: Directory, w: ProcessId)
    requires Exclusive(d) && w in d.writers && d.writers[w].phase.Looked?
    ensures Exclusive(DoAdvance(d, w))
  {
    assert AloneInside(d, w);
    var d' := DoAdvance(d, w);
    var next := d'.writers[w].phase.next;
    if next < Pow10(VERSION_DIGITS) {
      NumberIsFree(d, next);
    }
    InsideStepKeeps(d, d', w, d'.writers[w]);
  }

  lemma LookStepKeeps(d: Directory, w: ProcessId)
    requires Inv(d) && Exclusive(d) && w in d.writers
    requires d.writers[w].phase in {Opened, Holding, Keyed}
    ensures Exclusive(DoAdvance(d, w))
  {
    assert AloneInside(d, w);
    ReadMetadataSucceeds(d);
    var d' := DoAdvance(d, w);
    assert Current(d') == Current(d);
    InsideStepKeeps(d, d', w, d'.writers[w]);
  }

  lemma MetaTempStepKeeps(d: Directory, w: ProcessId)
    requires Exclusive(d) && w in d.writers && (d.writers[w].phase.Recorded? || d.writers[w].phase.MetaOpened?)
    ensures Exclusive(DoAdvance(d, w))
  {
    assert AloneInside(d, w);
    var d' := DoAdvance(d, w);
    assert Current(d') == Current(d);
    InsideStepKeeps(d, d', w, d'.writers[w]);
  }

  lemma DropTempStepKeeps(d: Directory, w: ProcessId)
    requires Exclusive(d) && w in d.writers && (d.writers[w].phase.Linked? || d.writers[w].phase.Cleaning?)
    ensures Exclusive(DoAdvance(d, w))
  {
    assert AloneInside(d, w);
    var d' := DoAdvance(d, w);
    assert Current(d') == Current(d);
    InsideStepKeeps(d, d', w, d'.writers[w]);
  }

  lemma RecordTempStepKeeps(d: Directory, w: ProcessId)
    requires Exclusive(d) && w in d.writers && (d.writers[w].phase.Numbered? || d.writers[w].phase.RecordOpened?)
    ensures Exclusive(DoAdvance(d, w))
  {
    assert AloneInside(d, w);
    var d' := DoAdvance(d, w);
    assert Current(d') == Current(d);
    InsideStepKeeps(d, d', w, d'.writers[w]);
  }

  lemma LinkStepKeeps(d: Directory, w: ProcessId)
    requires Exclusive(d) && w in d.writers && d.writers[w].phase.RecordFilled?
    ensures Exclusive(DoAdvance(d, w))
  {
    assert AloneInside(d, w);
    var d' := DoAdvance(d, w);
    assert Current(d') == Current(d);
    InsideStepKeeps(d, d', w, d'.writers[w]);
  }

  lemma RenameStepKeeps(d: Directory, w: ProcessId)
    requires Inv(d) && Exclusive(d) && w in d.writers && d.writers[w].phase.MetaFilled?
    ensures Exclusive(DoAdvance(d, w))
  {
    assert AloneInside(d, w) && WriterOk(d, w, d.writers[w]);
    var d' := DoAdvance(d, w);
    var m := MetadataFor(d.fingerprint, d.writers[w], Current(d), d.writers[w].phase.next);
    assert Current(d') == Some(m);
    InsideStepKeeps(d, d', w, d'.writers[w]);
  }

  lemma LeaveStepKeeps(d: Directory, w: ProcessId)
    requires Exclusive(d) && w in d.writers && (d.writers[w].phase.Renamed? || d.writers[w].phase.Releasing?)
    ensures Exclusive(DoAdvance(d, w))
  {
    assert AloneInside(d, w);
    var d' := DoAdvance(d, w);
    assert Current(d') == Current(d);
    InsideStepKeeps(d, d', w, d'.writers[w]);
  }

  lemma AdvanceKeepsExclusive(d: Directory, w: ProcessId)
    requires Inv(d) && Exclusive(d) && BreaksDeadLock(d, Advance(w))
    ensures Exclusive(DoAdvance(d, w))
  {
    if w in d.writers {
      match d.writers[w].phase
      case Acquiring => EnterKeeps(d, w);
      case Refused => OutsideStepKeeps(d, DoAdvance(d, w), w, DoAdvance(d, w).writers[w]);
      case Breaking => BreakKeeps(d, w);
      case Opened | Holding | Keyed => LookStepKeeps(d, w);
      case Looked(_) => NumberStepKeeps(d, w);
      case RecordFilled(_, _) => LinkStepKeeps(d, w);
      case MetaFilled(_, _) => RenameStepKeeps(d, w);
      case Numbered(_, _) => RecordTempStepKeeps(d, w);
      case RecordOpened(_, _) => RecordTempStepKeeps(d, w);
      case Linked(_, _) => DropTempStepKeeps(d, w);
      case Recorded(_, _) => MetaTempStepKeeps(d, w);
      case MetaOpened(_, _) => MetaTempStepKeeps(d, w);
      case Cleaning => DropTempStepKeeps(d, w);
      case Renamed => LeaveStepKeeps(d, w);
      case Releasing(_) => LeaveStepKeeps(d, w);
      case Finished(_) =>
      case Crashed =>
    }
  }

  lemma FailureKeepsExclusive(d: Directory, w: ProcessId, wr: Writer)
    requires Exclusive(d) && w in d.writers
    requires
      || wr.phase.Finished? || wr.phase.Crashed?
      || ((wr.phase.Cleaning? || wr.phase.Releasing?) && InCritical(d.writers[w].phase))
    ensures Exclusive(d.(writers := d.writers[w := wr]))
  {
    var d' := d.(writers := d.writers[w := wr]);
    assert AloneInside(d, w);
    if InCritical(wr.phase) {
      InsideStepKeeps(d, d', w, wr);
    } else {
      OutsideStepKeeps(d, d', w, wr);
    }
  }

  lemma OthersKeepExclusive(d: Directory, d': Directory)
    requires Exclusive(d) && d'.files == d.files && d'.writers == d.writers
    ensures Exclusive(d')
  {
    forall v | v in d'.writers ensures AloneInside(d', v) {
      assert AloneInside(d, v);
    }
  }

  lemma StepKeepsExclusive(d: Directory, step: Step)
    requires Inv(d) && Exclusive(d) && BreaksDeadLock(d, step)
    ensures Exclusive(Apply(d, step))
  {
    match step
    case Advance(w) => AdvanceKeepsExclusive(d, w);
    case Start(w, operation, value, key, iv) =>
      if Apply(d, step) != d { OutsideStepKeeps(d, Apply(d, step), w, Apply(d, step).writers[w]); }
    case IoError(w) => if Apply(d, step) != d { FailureKeepsExclusive(d, w, Apply(d, step).writers[w]); }
    case Crash(w) => if Apply(d, step) != d { FailureKeepsExclusive(d, w, Apply(d, step).writers[w]); }
    case Tick(_) => OthersKeepExclusive(d, Apply(d, step));
    case Observe(_) => OthersKeepExclusive(d, Apply(d, step));
    case Fetch(_) => OthersKeepExclusive(d, Apply(d, step));
  }

  lemma {:induction false} RunKeepsExclusive(d: Directory, steps: seq<Step>)
    requires Inv(d) && Exclusive(d) && ExclusiveRun(d, steps)
    ensures Inv(Run(d, steps)) && Exclusive(Run(d, steps))
    decreases |steps|
  {
    if steps == [] {
    } else {
      StepKeeps(d, steps[0]);
      StepKeepsExclusive(d, steps[0]);
      RunKeepsExclusive(Apply(d, steps[0]), steps[1..]);
    }
  }

  /** At most one live process is ever inside the critical section. */
  lemma MutualExclusion(fingerprint: Fingerprint, key: Key, clock: Millis, steps: seq<Step>, v: ProcessId, w: ProcessId)
    requires ExclusiveRun(Init(fingerprint, key, clock), steps)
    requires
      var d := Run(Init(fingerprint, key, clock), steps);
      && v in d.writers && w in d.writers
      && InCritical(d.writers[v].phase) && InCritical(d.writers[w].phase)
    ensures v == w
  {
    RunKeepsExclusive(Init(fingerprint, key, clock), steps);
    assert AloneInside(Run(Init(fingerprint, key, clock), steps), v);
  }

  lemma {:induction false} VersionsIncrease(m: Metadata, i: nat, j: nat)
    requires AssertMetadata(m) && i < j < |m.versions|
    ensures m.versions[i].version < m.versions[j].version
    decreases j
  {
    assert EntryValid(m, j);
    if i < j - 1 {
      VersionsIncrease(m, i, j - 1);
    }
  }

  lemma {:induction false} ExclusiveIsFaithful(d: Directory, steps: seq<Step>)
    requires Inv(d) && Exclusive(d) && ExclusiveRun(d, steps)
    ensures FaithfulRun(d, steps)
    decreases |steps|
  {
    if steps == [] {
    } else {
      if Completes(d, steps[0]).Some? {
        assert AloneInside(d, steps[0].w);
      }
      StepKeeps(d, steps[0]);
      StepKeepsExclusive(d, steps[0]);
      ExclusiveIsFaithful(Apply(d, steps[0]), steps[1..]);
    }
  }

  /**
   With exclusive holders no commit is lost: the metadata lists exactly the commits, in order, so a
   record left by a crash is never listed, and the current version only grows.
   */
  lemma NoCommitIsLost(fingerprint: Fingerprint, key: Key, clock: Millis, steps: seq<Step>)
    requires ExclusiveRun(Init(fingerprint, key, clock), steps)
    ensures
      var d := Run(Init(fingerprint, key, clock), steps);
      && ListsCommits(Listed(d), d.commits)
      && forall i, j :: 0 <= i < j < |d.commits| ==> d.commits[i].version < d.commits[j].version
  {
    ExclusiveIsFaithful(Init(fingerprint, key, clock), steps);
    CommitsAreListed(fingerprint, key, clock, steps);
    RunKeepsExclusive(Init(fingerprint, key, clock), steps);
    var d := Run(Init(fingerprint, key, clock), steps);
    forall i: nat, j: nat | i < j < |d.commits| ensures d.commits[i].version < d.commits[j].version {
      VersionsIncrease(Current(d).value, i, j);
    }
  }

  /** Records left by crashes never stand in the way: the link finds its name free, up to 99 999 999 versions. */
  lemma LinkFindsItsNameFree(fingerprint: Fingerprint, key: Key, clock: Millis, steps: seq<Step>, w: ProcessId)
    requires ExclusiveRun(Init(fingerprint, key, clock), steps)
    requires
      var d := Run(Init(fingerprint, key, clock), steps);
      && w in d.writers && d.writers[w].phase.RecordFilled?
      && d.writers[w].phase.next < Pow10(VERSION_DIGITS)
    ensures Apply(Run(Init(fingerprint, key, clock), steps), Advance(w)).writers[w].phase.Linked?
  {
    RunKeepsExclusive(Init(fingerprint, key, clock), steps);
    var d := Run(Init(fingerprint, key, clock), steps);
    assert AloneInside(d, w) && WriterOk(d, w, d.writers[w]);
  }

  // -- The whole store ---------------------------------------------------------------------

  type Store = map<Fingerprint, Directory>

  datatype StoreStep = OnDirectory(fingerprint: Fingerprint, clock: Millis, step: Step)

  /** The first writer makes the directory. */
  function DirectoryOf(store: Store, key: Key, s: StoreStep): Directory {
    if s.fingerprint in store then store[s.fingerprint] else Init(s.fingerprint, key, s.clock)
  }

  ghost function ApplyTo(store: Store, key: Key, s: StoreStep): Store {
    var d := DirectoryOf(store, key, s);
    store[s.fingerprint := Apply(d, s.step)]
  }

  ghost function RunOn(store: Store, key: Key, steps: seq<StoreStep>): Store
    decreases |steps|
  {
    if steps == [] then store else RunOn(ApplyTo(store, key, steps[0]), key, steps[1..])
  }

  ghost predicate StoreInv(store: Store, key: Key) {
    forall f :: f in store ==> store[f].fingerprint == f && store[f].key == key && Inv(store[f])
  }

  /** The store as a plain map from references to values. */
  function View(store: Store): map<Fingerprint, string> {
    map f | f in store && Meaning(store[f].commits).Some? :: Meaning(store[f].commits).value
  }

  lemma StepKeepsStoreInv(store: Store, key: Key, s: StoreStep)
    requires StoreInv(store, key)
    ensures StoreInv(ApplyTo(store, key, s), key)
  {
    var d := DirectoryOf(store, key, s);
    StepKeeps(d, s.step);
    StepKeepsStore(d, s.step);
  }

  lemma ViewFollows(store: Store, f: Fingerprint, d: Directory)
    ensures
      View(store[f := d]) ==
        match Meaning(d.commits)
        case None => View(store) - {f}
        case Some(value) => View(store)[f := value]
  {}

  /**
   One step of the store is one step of the map: nothing, except for the rename, which stores the
   value or deletes the entry, at the instant it happens.
   */
  lemma StepRefinesMap(store: Store, key: Key, s: StoreStep)
    ensures
      View(ApplyTo(store, key, s)) ==
        match Completes(DirectoryOf(store, key, s), s.step)
        case None => View(store)
        case Some(wr) =>
          if wr.operation == Write then View(store)[s.fingerprint := wr.value] else View(store) - {s.fingerprint}
  {
    var d := DirectoryOf(store, key, s);
    CommitsFollow(d, s.step);
    ViewFollows(store, s.fingerprint, Apply(d, s.step));
    ViewFollows(store, s.fingerprint, d);
    if s.fingerprint in store {
      assert store[s.fingerprint := d] == store;
    } else {
      assert View(store) - {s.fingerprint} == View(store);
    }
  }

  lemma {:induction false} RunKeepsStoreInv(store: Store, key: Key, steps: seq<StoreStep>)
    requires StoreInv(store, key)
    ensures StoreInv(RunOn(store, key, steps), key)
    decreases |steps|
  {
    if steps == [] {
    } else {
      StepKeepsStoreInv(store, key, steps[0]);
      RunKeepsStoreInv(ApplyTo(store, key, steps[0]), key, steps[1..]);
    }
  }

  /** In every reachable store, reading a reference looks it up in the map. */
  lemma ReadsLookUpTheMap(key: Key, steps: seq<StoreStep>, f: Fingerprint)
    requires f in RunOn(map[], key, steps)
    ensures
      var store := RunOn(map[], key, steps);
      GetSecret(store[f].files, f, key) ==
        if f !in View(store) then Err(NotFound)
        else if store[f].commits[|store[f].commits| - 1].version < Pow10(VERSION_DIGITS) then Ok(View(store)[f])
        else Err(MetadataCorrupt)
  {
    RunKeepsStoreInv(map[], key, steps);
    ReadGivesLatestCommit(RunOn(map[], key, steps)[f]);
  }
}
