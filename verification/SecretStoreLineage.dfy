/**
 When the metadata lists every commit, and when a rename loses one: over every run, with any number
 of writers inside the critical section, an exact condition on each rename.
 */
module SecretStoreLineage {
  import opened Common
  import opened SecretStoreModel
  import opened SecretStoreSafety

  function Current(d: Directory): Option<Metadata> {
    if MetaName in d.files && d.files[MetaName].MetadataFile? then Some(d.files[MetaName].metadata) else None
  }

  predicate BeforeRename(phase: Phase) {
    || phase.Looked? || phase.Numbered? || phase.RecordOpened? || phase.RecordFilled?
    || phase.Linked? || phase.Recorded? || phase.MetaOpened? || phase.MetaFilled?
  }

  /** The operation a step completes, if it completes one: the rename of metadata.json. */
  function Completes(d: Directory, step: Step): Option<Writer> {
    if step.Advance? && step.w in d.writers && d.writers[step.w].phase.MetaFilled?
       && TempName(step.w, ForMetadata) in d.files
    then Some(d.writers[step.w]) else None
  }

  lemma CommitsFollow(d: Directory, step: Step)
    ensures
      Apply(d, step).commits ==
        match Completes(d, step)
        case None => d.commits
        case Some(wr) => d.commits + [Commit(step.w, wr.operation, wr.value, wr.phase.next)]
  {
    match step
    case Advance(w) =>
      if w in d.writers {
        match d.writers[w].phase
        case MetaFilled(_, _) =>
        case _ => assert DoAdvance(d, w).commits == d.commits;
      }
    case _ =>
  }

  /** The metadata lists exactly the commits, in order. */
  predicate ListsCommits(versions: seq<Entry>, commits: seq<Commit>) {
    && |versions| == |commits|
    && forall i :: 0 <= i < |commits| ==>
         versions[i].version == commits[i].version && versions[i].operation == commits[i].operation
  }

  function Listed(d: Directory): seq<Entry> {
    if Current(d).Some? then Current(d).value.versions else []
  }

  predicate Lists(versions: seq<Entry>, version: nat) {
    exists i :: 0 <= i < |versions| && versions[i].version == version
  }

  predicate Committed(commits: seq<Commit>, version: nat) {
    exists i :: 0 <= i < |commits| && commits[i].version == version
  }

  /** Metadata that was current at some time: it lists commits, and the latest one only if it is current now. */
  ghost predicate LineOk(d: Directory, m: Metadata) {
    && (forall i :: 0 <= i < |m.versions| ==> Committed(d.commits, m.versions[i].version))
    && (d.commits != [] && Lists(m.versions, d.commits[|d.commits| - 1].version) ==> Current(d) == Some(m))
  }

  predicate PastLink(phase: Phase) {
    phase.Linked? || phase.Recorded? || phase.MetaOpened? || phase.MetaFilled?
  }

  ghost predicate WriterLine(d: Directory, wr: Writer) {
    && (BeforeRename(wr.phase) && Existing(wr.phase).Some? ==> LineOk(d, Existing(wr.phase).value))
    && (PastLink(wr.phase) ==> !Committed(d.commits, wr.phase.next))
  }

  predicate NextDiffers(wr: Writer, other: Writer) {
    PastLink(wr.phase) && PastLink(other.phase) ==> wr.phase.next != other.phase.next
  }

  /** Every commit has its record; what writers have read was current; what they have linked is theirs. */
  ghost predicate Lineage(d: Directory) {
    && (Current(d).Some? ==> LineOk(d, Current(d).value))
    && (forall i :: 0 <= i < |d.commits| ==> VersionName(FileName(d.commits[i].version)) in d.files)
    && (forall w :: w in d.writers ==> WriterLine(d, d.writers[w]))
    && (forall v, w :: v in d.writers && w in d.writers && v != w ==> NextDiffers(d.writers[v], d.writers[w]))
  }

  /** A step of writer w that leaves the metadata alone. */
  lemma QuietKeepsLine(d: Directory, d': Directory, w: ProcessId, wr: Writer)
    requires Lineage(d) && SameStore(d, d') && Current(d') == Current(d) && d'.commits == d.commits
    requires d'.writers == d.writers[w := wr] && WriterLine(d, wr)
    requires forall v :: v in d.writers && v != w ==> NextDiffers(d.writers[v], wr)
    ensures Lineage(d')
  {
    forall v | v in d'.writers ensures WriterLine(d', d'.writers[v]) {
      assert v != w ==> WriterLine(d, d.writers[v]);
      if Existing(d'.writers[v].phase).Some? && BeforeRename(d'.writers[v].phase) {
        assert LineOk(d, Existing(d'.writers[v].phase).value);
      }
    }
    forall u, v | u in d'.writers && v in d'.writers && u != v ensures NextDiffers(d'.writers[u], d'.writers[v]) {
      if u != w && v != w {
        assert NextDiffers(d.writers[u], d.writers[v]);
      } else if u != w {
        assert NextDiffers(d.writers[u], wr);
      } else {
        assert NextDiffers(d.writers[v], wr);
      }
    }
  }

  lemma AdvanceKeepsCurrent(d: Directory, w: ProcessId)
    requires w in d.writers && Completes(d, Advance(w)).None?
    ensures Current(DoAdvance(d, w)) == Current(d)
  {
    match d.writers[w].phase
    case RecordFilled(_, _) =>
    case MetaFilled(_, _) =>
    case Cleaning =>
    case _ => assert Current(DoAdvance(d, w)) == Current(d);
  }

  lemma CurrentStays(d: Directory, step: Step)
    requires Completes(d, step).None?
    ensures Current(Apply(d, step)) == Current(d) && Apply(d, step).commits == d.commits
  {
    CommitsFollow(d, step);
    if step.Advance? && step.w in d.writers {
      AdvanceKeepsCurrent(d, step.w);
    }
  }

  /** A writer that goes on with what it has. */
  predicate GoesOn(phase: Phase, phase': Phase) {
    && (BeforeRename(phase') ==> BeforeRename(phase) && Existing(phase') == Existing(phase))
    && (PastLink(phase') ==> PastLink(phase) && phase'.next == phase.next)
  }

  lemma GoingOnKeepsLine(d: Directory, step: Step, w: ProcessId, wr: Writer)
    requires Lineage(d) && Completes(d, step).None? && w in d.writers
    requires Apply(d, step).writers == d.writers[w := wr] && GoesOn(d.writers[w].phase, wr.phase)
    ensures Lineage(Apply(d, step))
  {
    CurrentStays(d, step);
    StepKeepsStore(d, step);
    assert WriterLine(d, d.writers[w]);
    forall v | v in d.writers && v != w ensures NextDiffers(d.writers[v], wr) {
      assert NextDiffers(d.writers[v], d.writers[w]);
    }
    QuietKeepsLine(d, Apply(d, step), w, wr);
  }

  lemma LookKeepsLine(d: Directory, w: ProcessId)
    requires Inv(d) && Lineage(d) && w in d.writers && d.writers[w].phase == Keyed
    ensures Lineage(DoAdvance(d, w))
  {
    ReadMetadataSucceeds(d);
    var d' := DoAdvance(d, w);
    QuietKeepsLine(d, d', w, d'.writers[w]);
  }

  /** A number whose name is free belongs to no commit and to no writer past its link. */
  lemma FreeNumber(d: Directory, next: nat)
    requires Inv(d) && Lineage(d) && VersionName(FileName(next)) !in d.files
    ensures !Committed(d.commits, next)
    ensures forall v :: v in d.writers && PastLink(d.writers[v].phase) ==> d.writers[v].phase.next != next
  {
    forall v | v in d.writers && PastLink(d.writers[v].phase) ensures d.writers[v].phase.next != next {
      assert WriterOk(d, v, d.writers[v]);
    }
  }

  lemma LinkEffect(d: Directory, w: ProcessId)
    requires w in d.writers && d.writers[w].phase.RecordFilled?
    ensures
      var wr, d' := d.writers[w], DoAdvance(d, w);
      var free := VersionName(FileName(wr.phase.next)) !in d.files;
      && (d'.writers == d.writers[w := wr.(phase := Cleaning)]
          || (free && d'.writers == d.writers[w := wr.(phase := Linked(wr.phase.existing, wr.phase.next))]))
      && d'.commits == d.commits && Completes(d, Advance(w)).None?
  {}

  /** The exclusive link makes the number the writer's own. */
  lemma LinkKeepsLine(d: Directory, w: ProcessId)
    requires Inv(d) && Lineage(d) && w in d.writers && d.writers[w].phase.RecordFilled?
    ensures Lineage(DoAdvance(d, w))
  {
    var d' := DoAdvance(d, w);
    LinkEffect(d, w);
    assert WriterLine(d, d.writers[w]);
    StepKeepsStore(d, Advance(w));
    CurrentStays(d, Advance(w));
    if d'.writers[w].phase.Linked? {
      FreeNumber(d, d.writers[w].phase.next);
    }
    QuietKeepsLine(d, d', w, d'.writers[w]);
  }

  lemma CommittedGrows(commits: seq<Commit>, c: Commit, version: nat)
    ensures Committed(commits + [c], version) <==> Committed(commits, version) || version == c.version
  {
    var longer := commits + [c];
    assert longer[|commits|] == c;
    if Committed(commits, version) {
      var i :| 0 <= i < |commits| && commits[i].version == version;
      assert longer[i] == commits[i];
    }
  }

  /** Metadata read before a rename does not list what the rename commits. */
  lemma OldLineStays(d: Directory, d': Directory, c: Commit, m: Metadata)
    requires LineOk(d, m) && d'.commits == d.commits + [c] && !Committed(d.commits, c.version)
    ensures LineOk(d', m)
  {
    forall i | 0 <= i < |m.versions| ensures Committed(d'.commits, m.versions[i].version) {
      CommittedGrows(d.commits, c, m.versions[i].version);
    }
    forall i | 0 <= i < |m.versions| ensures m.versions[i].version != c.version {
      assert Committed(d.commits, m.versions[i].version);
    }
  }

  lemma NewLineIsCurrent(d: Directory, d': Directory, wr: Writer, existing: Option<Metadata>, next: nat, c: Commit)
    requires existing.Some? ==> LineOk(d, existing.value)
    requires d'.commits == d.commits + [c] && c.version == next
    requires Current(d') == Some(MetadataFor(d.fingerprint, wr, existing, next))
    ensures LineOk(d', Current(d').value)
  {
    var m := Current(d').value;
    forall i | 0 <= i < |m.versions| ensures Committed(d'.commits, m.versions[i].version) {
      CommittedGrows(d.commits, c, m.versions[i].version);
      if i < |m.versions| - 1 {
        assert m.versions[i] == existing.value.versions[i];
      }
    }
  }

  /** What the rename leaves. */
  lemma RenameEffect(d: Directory, w: ProcessId)
    requires Inv(d) && w in d.writers && d.writers[w].phase.MetaFilled?
    ensures
      var wr := d.writers[w];
      var d' := DoAdvance(d, w);
      && Completes(d, Advance(w)) == Some(wr)
      && Current(d') == Some(MetadataFor(d.fingerprint, wr, wr.phase.existing, wr.phase.next))
      && d'.commits == d.commits + [Commit(w, wr.operation, wr.value, wr.phase.next)]
      && d'.writers == d.writers[w := wr.(phase := Renamed)]
      && VersionName(FileName(wr.phase.next)) in d'.files
  {
    assert WriterOk(d, w, d.writers[w]);
  }

  lemma OtherLineStays(d: Directory, d': Directory, c: Commit, wr: Writer)
    requires WriterLine(d, wr) && d'.commits == d.commits + [c] && !Committed(d.commits, c.version)
    requires PastLink(wr.phase) ==> wr.phase.next != c.version
    ensures WriterLine(d', wr)
  {
    if BeforeRename(wr.phase) && Existing(wr.phase).Some? {
      OldLineStays(d, d', c, Existing(wr.phase).value);
    }
    if PastLink(wr.phase) {
      CommittedGrows(d.commits, c, wr.phase.next);
    }
  }

  lemma RenameKeepsLine(d: Directory, w: ProcessId)
    requires Inv(d) && Lineage(d) && w in d.writers && d.writers[w].phase.MetaFilled?
    ensures Lineage(DoAdvance(d, w))
  {
    var wr, d' := d.writers[w], DoAdvance(d, w);
    var c := Commit(w, wr.operation, wr.value, wr.phase.next);
    RenameEffect(d, w);
    StepKeepsStore(d, Advance(w));
    assert WriterLine(d, wr);
    NewLineIsCurrent(d, d', wr, wr.phase.existing, wr.phase.next, c);
    forall i | 0 <= i < |d'.commits| ensures VersionName(FileName(d'.commits[i].version)) in d'.files {
      assert i < |d.commits| ==> d'.commits[i] == d.commits[i];
    }
    forall v | v in d'.writers ensures WriterLine(d', d'.writers[v]) {
      if v != w {
        assert WriterLine(d, d.writers[v]) && NextDiffers(d.writers[v], wr);
        OtherLineStays(d, d', c, d.writers[v]);
      }
    }
    forall u, v | u in d'.writers && v in d'.writers && u != v ensures NextDiffers(d'.writers[u], d'.writers[v]) {
      assert u != w && v != w ==> NextDiffers(d.writers[u], d.writers[v]);
    }
  }

  lemma MoveGoesOn(d: Directory, w: ProcessId)
    requires w in d.writers && d.writers[w].phase != Keyed
    requires !d.writers[w].phase.RecordFilled? && !d.writers[w].phase.MetaFilled?
    ensures
      var d' := DoAdvance(d, w);
      w in d'.writers && d'.writers == d.writers[w := d'.writers[w]] && GoesOn(d.writers[w].phase, d'.writers[w].phase)
  {}

  lemma AdvanceKeepsLine(d: Directory, w: ProcessId)
    requires Inv(d) && Lineage(d) && w in d.writers
    ensures Lineage(DoAdvance(d, w))
  {
    if d.writers[w].phase == Keyed {
      LookKeepsLine(d, w);
    } else if d.writers[w].phase.RecordFilled? {
      LinkKeepsLine(d, w);
    } else if d.writers[w].phase.MetaFilled? {
      RenameKeepsLine(d, w);
    } else {
      MoveGoesOn(d, w);
      GoingOnKeepsLine(d, Advance(w), w, DoAdvance(d, w).writers[w]);
    }
  }

  lemma SameWritersKeepLine(d: Directory, d': Directory)
    requires Lineage(d) && d'.files == d.files && d'.writers == d.writers && d'.commits == d.commits
    ensures Lineage(d')
  {
    forall v | v in d'.writers ensures WriterLine(d', d'.writers[v]) {
      assert WriterLine(d, d.writers[v]);
      if Existing(d'.writers[v].phase).Some? && BeforeRename(d'.writers[v].phase) {
        assert LineOk(d, Existing(d'.writers[v].phase).value);
      }
    }
    forall u, v | u in d'.writers && v in d'.writers && u != v ensures NextDiffers(d'.writers[u], d'.writers[v]) {
      assert NextDiffers(d.writers[u], d.writers[v]);
    }
  }

  lemma StartKeepsLine(d: Directory, d': Directory, w: ProcessId, wr: Writer)
    requires Lineage(d) && w !in d.writers && wr.phase == Acquiring && d' == d.(writers := d.writers[w := wr])
    ensures Lineage(d')
  {
    QuietKeepsLine(d, d', w, wr);
  }

  lemma FailureGoesOn(d: Directory, w: ProcessId, d': Directory)
    requires w in d.writers && (d' == DoIoError(d, w) || d' == DoCrash(d, w)) && d' != d
    ensures d' == d.(writers := d.writers[w := d'.writers[w]]) && GoesOn(d.writers[w].phase, d'.writers[w].phase)
  {}

  lemma FailureKeepsLine(d: Directory, w: ProcessId, step: Step)
    requires Inv(d) && Lineage(d) && (step == IoError(w) || step == Crash(w))
    ensures Lineage(Apply(d, step))
  {
    if Apply(d, step) != d {
      FailureGoesOn(d, w, Apply(d, step));
      GoingOnKeepsLine(d, step, w, Apply(d, step).writers[w]);
    }
  }

  lemma StepKeepsLine(d: Directory, step: Step)
    requires Inv(d) && Lineage(d)
    ensures Lineage(Apply(d, step))
  {
    match step
    case Advance(w) => if w in d.writers { AdvanceKeepsLine(d, w); }
    case Start(w, _, _, _, _) =>
      if Apply(d, step) != d { StartKeepsLine(d, Apply(d, step), w, Apply(d, step).writers[w]); }
    case IoError(w) => FailureKeepsLine(d, w, step);
    case Crash(w) => FailureKeepsLine(d, w, step);
    case Tick(_) => SameWritersKeepLine(d, Apply(d, step));
    case Observe(_) => SameWritersKeepLine(d, Apply(d, step));
    case Fetch(_) => SameWritersKeepLine(d, Apply(d, step));
  }

  /** Every version listed before a step is listed after it. */
  predicate KeepsVersions(d: Directory, d': Directory) {
    forall i :: 0 <= i < |Listed(d)| ==> Lists(Listed(d'), Listed(d)[i].version)
  }

  lemma ListedIsCommitted(d: Directory)
    requires Inv(d)
    ensures Current(d).None? <==> d.commits == []
    ensures Current(d).Some? ==> AssertMetadata(Current(d).value)
    ensures Current(d).Some? ==> LastEntry(Current(d).value).version == d.commits[|d.commits| - 1].version
  {}

  lemma SomethingCommitted(d: Directory, existing: Option<Metadata>)
    requires Inv(d) && existing != Current(d) && FoundBacked(d, existing)
    requires existing.Some? ==> LineOk(d, existing.value)
    ensures d.commits != []
  {
    if existing.Some? {
      assert Committed(d.commits, existing.value.versions[0].version);
    }
  }

  /** A writer that read other metadata than the current does not list the latest commit. */
  lemma LostVersion(d: Directory, existing: Option<Metadata>, wr: Writer, next: nat)
    requires Inv(d) && existing != Current(d) && FoundBacked(d, existing)
    requires existing.Some? ==> LineOk(d, existing.value)
    requires !Committed(d.commits, next)
    ensures Current(d).Some? && d.commits != []
    ensures Listed(d)[|Listed(d)| - 1].version == d.commits[|d.commits| - 1].version
    ensures !Lists(MetadataFor(d.fingerprint, wr, existing, next).versions, d.commits[|d.commits| - 1].version)
  {
    ListedIsCommitted(d);
    SomethingCommitted(d, existing);
    var last := d.commits[|d.commits| - 1].version;
    var m := MetadataFor(d.fingerprint, wr, existing, next);
    assert Committed(d.commits, last);
    forall i | 0 <= i < |m.versions| ensures m.versions[i].version != last {
      if i < |m.versions| - 1 {
        assert existing.value.versions[i] == m.versions[i];
        assert !Lists(existing.value.versions, last);
      }
    }
  }

  lemma LongerKeeps(d: Directory, d': Directory)
    requires |Listed(d)| <= |Listed(d')| && Listed(d')[..|Listed(d)|] == Listed(d)
    ensures KeepsVersions(d, d')
  {
    forall i | 0 <= i < |Listed(d)| ensures Lists(Listed(d'), Listed(d)[i].version) {
      assert Listed(d')[i] == Listed(d')[..|Listed(d)|][i];
    }
  }

  lemma ShorterLoses(d: Directory, d': Directory)
    requires Listed(d) != [] && !Lists(Listed(d'), Listed(d)[|Listed(d)| - 1].version)
    ensures !KeepsVersions(d, d')
  {}

  /**
   The rename keeps every listed version exactly if the metadata is still the one the writer read:
   the comparison that the code leaves to the lock.
   */
  lemma RenameKeepsVersions(d: Directory, w: ProcessId)
    requires Inv(d) && Lineage(d) && w in d.writers && d.writers[w].phase.MetaFilled?
    ensures KeepsVersions(d, DoAdvance(d, w)) <==> d.writers[w].phase.existing == Current(d)
  {
    var wr, d' := d.writers[w], DoAdvance(d, w);
    RenameEffect(d, w);
    assert WriterLine(d, wr) && WriterOk(d, w, wr);
    if wr.phase.existing == Current(d) {
      LongerKeeps(d, d');
    } else {
      LostVersion(d, wr.phase.existing, wr, wr.phase.next);
      ListedIsCommitted(d);
      ShorterLoses(d, d');
    }
  }

  /** A rename on metadata that is still what its writer read. */
  ghost predicate RenamesCurrent(d: Directory, step: Step) {
    Completes(d, step).Some? ==> Existing(d.writers[step.w].phase) == Current(d)
  }

  ghost predicate FaithfulRun(d: Directory, steps: seq<Step>)
    decreases |steps|
  {
    steps == [] || (RenamesCurrent(d, steps[0]) && FaithfulRun(Apply(d, steps[0]), steps[1..]))
  }

  lemma CommitIsListed(versions: seq<Entry>, commits: seq<Commit>, i: nat)
    requires i < |commits|
    ensures ListsCommits(versions, commits) ==> Lists(versions, commits[i].version)
  {}

  lemma RenameLists(d: Directory, w: ProcessId)
    requires Inv(d) && Lineage(d) && w in d.writers && d.writers[w].phase.MetaFilled?
    ensures
      var d' := DoAdvance(d, w);
      ListsCommits(Listed(d'), d'.commits) <==>
        ListsCommits(Listed(d), d.commits) && d.writers[w].phase.existing == Current(d)
  {
    var wr, d' := d.writers[w], DoAdvance(d, w);
    RenameEffect(d, w);
    assert WriterLine(d, wr) && WriterOk(d, w, wr);
    ListedIsCommitted(d);
    if wr.phase.existing == Current(d) {
      forall i | 0 <= i < |d.commits| && |Listed(d)| == |d.commits|
        ensures Listed(d')[i] == Listed(d)[i] && d'.commits[i] == d.commits[i] {}
    } else {
      LostVersion(d, wr.phase.existing, wr, wr.phase.next);
      assert d'.commits[|d.commits| - 1] == d.commits[|d.commits| - 1];
      CommitIsListed(Listed(d'), d'.commits, |d.commits| - 1);
    }
  }

  lemma StepLists(d: Directory, step: Step)
    requires Inv(d) && Lineage(d)
    ensures
      var d' := Apply(d, step);
      ListsCommits(Listed(d'), d'.commits) <==> ListsCommits(Listed(d), d.commits) && RenamesCurrent(d, step)
  {
    if Completes(d, step).Some? {
      RenameLists(d, step.w);
    } else {
      CurrentStays(d, step);
    }
  }

  lemma {:induction false} RunLists(d: Directory, steps: seq<Step>)
    requires Inv(d) && Lineage(d)
    ensures
      var d' := Run(d, steps);
      ListsCommits(Listed(d'), d'.commits) <==> ListsCommits(Listed(d), d.commits) && FaithfulRun(d, steps)
    decreases |steps|
  {
    if steps == [] {
    } else {
      StepLists(d, steps[0]);
      StepKeeps(d, steps[0]);
      StepKeepsLine(d, steps[0]);
      RunLists(Apply(d, steps[0]), steps[1..]);
    }
  }

  /**
   Whatever interleaves, crashes or breaks locks: the metadata lists every commit, in order, if and
   only if every rename met the metadata its writer had read. A lost commit never comes back.
   */
  lemma CommitsAreListed(fingerprint: Fingerprint, key: Key, clock: Millis, steps: seq<Step>)
    ensures
      var d := Run(Init(fingerprint, key, clock), steps);
      ListsCommits(Listed(d), d.commits) <==> FaithfulRun(Init(fingerprint, key, clock), steps)
  {
    RunLists(Init(fingerprint, key, clock), steps);
  }

  lemma {:induction false} RunKeepsLine(d: Directory, steps: seq<Step>)
    requires Inv(d) && Lineage(d)
    ensures Inv(Run(d, steps)) && Lineage(Run(d, steps))
    decreases |steps|
  {
    if steps == [] {
    } else {
      StepKeeps(d, steps[0]);
      StepKeepsLine(d, steps[0]);
      RunKeepsLine(Apply(d, steps[0]), steps[1..]);
    }
  }

  /**
   In every reachable state a rename drops a listed version exactly if it replaces metadata its
   writer did not read.
   */
  lemma RenameLosesNothing(fingerprint: Fingerprint, key: Key, clock: Millis, steps: seq<Step>, w: ProcessId)
    requires
      var d := Run(Init(fingerprint, key, clock), steps);
      w in d.writers && d.writers[w].phase.MetaFilled?
    ensures
      var d := Run(Init(fingerprint, key, clock), steps);
      KeepsVersions(d, Apply(d, Advance(w))) <==> d.writers[w].phase.existing == Current(d)
  {
    RunKeepsLine(Init(fingerprint, key, clock), steps);
    RenameKeepsVersions(Run(Init(fingerprint, key, clock), steps), w);
  }
}
