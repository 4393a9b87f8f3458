/** Writing a backup of the secret store, and restoring one. */
module SecretRestore {
  import opened Common
  import opened PathText
  import opened SecretBackup

  const SOURCE_LABEL := "billing-local-encrypted-secret-store"

  /** Regular files by absolute path. */
  type Disk = map<Path, Content>

  // -- Copying -----------------------------------------------------------------------------

  predicate Copyable(path: Path) {
    path != [] && !StartsWithDots(path[0]) && '\\' !in Join(path)
  }

  predicate AllCopyable(list: seq<Listed>) {
    forall i :: 0 <= i < |list| ==> Copyable(list[i].path)
  }

  lemma CopyTarget(root: Path, path: Path)
    requires Clean(root) && Clean(path) && path != []
    ensures SafeResolve(root, Join(path)) == if Copyable(path) then Some(root + path) else None
  {
    SafeResolveStaysInside(root, Join(path));
    ResolveAppends(root, path);
    JoinedStart(path);
  }

  function FilesUnder(root: Path, list: seq<Listed>): Disk {
    if list == [] then map[]
    else FilesUnder(root, list[..|list| - 1])[root + list[|list| - 1].path := list[|list| - 1].content]
  }

  lemma {:induction false} FilesUnderKeys(root: Path, list: seq<Listed>, key: Path)
    ensures key in FilesUnder(root, list) <==> exists i :: 0 <= i < |list| && key == root + list[i].path
  {
    if list == [] {
    } else {
      var n := |list| - 1;
      FilesUnderKeys(root, list[..n], key);
      if key == root + list[n].path {
      } else if exists i :: 0 <= i < |list| && key == root + list[i].path {
        var i :| 0 <= i < |list| && key == root + list[i].path;
        assert list[..n][i].path == list[i].path;
      }
    }
  }

  lemma SameTail(root: Path, p: Path, q: Path)
    ensures root + p == root + q <==> p == q
  {
    assert (root + p)[|root|..] == p && (root + q)[|root|..] == q;
  }

  lemma {:induction false} FilesUnderContents(root: Path, list: seq<Listed>, i: nat)
    requires DistinctPaths(list) && i < |list|
    ensures root + list[i].path in FilesUnder(root, list)
    ensures FilesUnder(root, list)[root + list[i].path] == list[i].content
  {
    var n := |list| - 1;
    if i < n {
      FilesUnderContents(root, list[..n], i);
      SameTail(root, list[i].path, list[n].path);
    }
  }

  /** Everything copied lies strictly below the root. */
  lemma CopiesStayInside(root: Path, list: seq<Listed>, key: Path)
    requires forall i :: 0 <= i < |list| ==> list[i].path != []
    requires key in FilesUnder(root, list)
    ensures root < key
  {
    FilesUnderKeys(root, list, key);
  }

  // -- Backup ------------------------------------------------------------------------------

  function EntryOf(f: Listed): Entry {
    Entry(Join(f.path), Size(f.content), Sha256(f.content))
  }

  function EntriesOf(list: seq<Listed>): seq<Entry> {
    seq(|list|, i requires 0 <= i < |list| => EntryOf(list[i]))
  }

  predicate NoManifest(list: seq<Listed>) {
    forall i :: 0 <= i < |list| ==> list[i].path != [MANIFEST_NAME]
  }

  ghost predicate BackupAccepts(source: Path, tree: seq<Child>, destination: Path, destinationExists: bool) {
    && SeparateRoots(source, destination)
    && !destinationExists
    && Listing(tree, []).Ok?
    && AllCopyable(Listing(tree, []).value)
    && NoManifest(Listing(tree, []).value)
  }

  ghost predicate ProperPaths(list: seq<Listed>) {
    DistinctPaths(list) && forall i :: 0 <= i < |list| ==> list[i].path != [] && Clean(list[i].path)
  }

  lemma ListedFacts(tree: seq<Child>)
    requires WellFormed(tree) && Listing(tree, []).Ok?
    ensures ProperPaths(Listing(tree, []).value)
  {
    ListingIsDistinct(tree, []);
    var list := Listing(tree, []).value;
    forall i | 0 <= i < |list| ensures list[i].path != [] && Clean(list[i].path) {
      ListedIsClean(tree, [], list[i]);
      ListedBelow(tree, [], list[i]);
    }
  }

  lemma NotYetCopied(root: Path, list: seq<Listed>, i: nat)
    requires DistinctPaths(list) && i < |list|
    ensures root + list[i].path !in FilesUnder(root, list[..i])
  {
    FilesUnderKeys(root, list[..i], root + list[i].path);
    forall j | 0 <= j < i ensures root + list[i].path != root + list[..i][j].path {
      SameTail(root, list[i].path, list[j].path);
    }
  }

  lemma ManifestIsFree(root: Path, list: seq<Listed>)
    ensures root + [MANIFEST_NAME] !in FilesUnder(root, list) <==> NoManifest(list)
  {
    FilesUnderKeys(root, list, root + [MANIFEST_NAME]);
    forall i | 0 <= i < |list| ensures root + [MANIFEST_NAME] == root + list[i].path <==>
        list[i].path == [MANIFEST_NAME] {
      SameTail(root, [MANIFEST_NAME], list[i].path);
    }
  }

  lemma CopyStep(list: seq<Listed>, root: Path, i: nat)
    requires i < |list|
    ensures FilesUnder(root, list[..i + 1]) == FilesUnder(root, list[..i])[root + list[i].path := list[i].content]
    ensures EntriesOf(list[..i + 1]) == EntriesOf(list[..i]) + [EntryOf(list[i])]
    ensures AllCopyable(list[..i + 1]) <==> AllCopyable(list[..i]) && Copyable(list[i].path)
    ensures AllCopyable(list) ==> Copyable(list[i].path)
  {
    assert list[..i + 1] == list[..i] + [list[i]];
    assert list[..i + 1][..i] == list[..i];
  }

  /** Copies the listed files one by one, each to a new file, and records what was copied. */
  method CopyFiles(list: seq<Listed>, destination: Path) returns (ok: bool, disk: Disk, entries: seq<Entry>)
    requires Clean(destination) && ProperPaths(list)
    ensures ok <==> AllCopyable(list)
    ensures ok ==> disk == FilesUnder(destination, list) && entries == EntriesOf(list)
  {
    entries, disk := [], map[];
    var i := 0;
    while i < |list|
      invariant 0 <= i <= |list|
      invariant entries == EntriesOf(list[..i])
      invariant disk == FilesUnder(destination, list[..i])
      invariant AllCopyable(list[..i])
    {
      var file := list[i];
      CopyTarget(destination, file.path);
      NotYetCopied(destination, list, i);
      CopyStep(list, destination, i);
      var target := SafeResolve(destination, Join(file.path));
      if target.None? || target.value in disk {
        return false, disk, entries;
      }
      disk := disk[target.value := file.content];
      entries := entries + [EntryOf(file)];
      i := i + 1;
    }
    assert list[..i] == list;
    ok := true;
  }

  /** Copies every listed file and writes the manifest; `manifestSize` is the length of its text. */
  method BackupStore(source: Path, tree: seq<Child>, destination: Path, destinationExists: bool, manifestSize: nat)
    returns (r: Result<Disk, BackupError>)
    requires Clean(source) && Clean(destination) && WellFormed(tree)
    ensures r.Ok? <==> BackupAccepts(source, tree, destination, destinationExists)
    ensures r.Ok? ==>
              var list := Listing(tree, []).value;
              r.value == FilesUnder(destination, list)[destination + [MANIFEST_NAME] :=
                ManifestText(Manifest(1, SOURCE_LABEL, EntriesOf(list)), manifestSize)]
    ensures r.Err? ==>
              r.error ==
                if !SeparateRoots(source, destination) then RootsOverlap
                else if destinationExists then DestinationExists
                else if Listing(tree, []).Err? then Listing(tree, []).error
                else if !AllCopyable(Listing(tree, []).value) then InvalidPath
                else FileExists
  {
    if !SeparateRoots(source, destination) {
      return Err(RootsOverlap);
    }
    if destinationExists {
      return Err(DestinationExists);
    }
    var listed := ListStoreFiles(tree, []);
    if listed.Err? {
      return Err(listed.error);
    }
    ListedFacts(tree);
    var ok, disk, entries := CopyFiles(listed.value, destination);
    if !ok {
      return Err(InvalidPath);
    }
    ManifestIsFree(destination, listed.value);
    if destination + [MANIFEST_NAME] in disk {
      return Err(FileExists);
    }
    return Ok(disk[destination + [MANIFEST_NAME] := ManifestText(Manifest(1, SOURCE_LABEL, entries), manifestSize)]);
  }

  // -- Restore -----------------------------------------------------------------------------

  predicate EntryAllowed(e: Entry) {
    e.relativePath != "" && e.relativePath != MANIFEST_NAME
  }

  function LoadManifest(tree: seq<Child>): Result<Manifest, BackupError> {
    match At(tree, [MANIFEST_NAME])
    case Some(Regular(ManifestText(m, _))) =>
      if m.formatVersion == 1 && m.sourceLabel == SOURCE_LABEL
         && forall i :: 0 <= i < |m.entries| ==> EntryAllowed(m.entries[i])
      then Ok(m) else Err(ManifestInvalid)
    case _ => Err(ManifestMissing)
  }

  /** A manifest is loaded from its file, in its format, with its label, and with usable paths. */
  lemma ManifestAcceptance(tree: seq<Child>)
    ensures
      match At(tree, ["encrypted-secret-store-manifest.json"])
      case Some(Regular(ManifestText(m, _))) =>
        LoadManifest(tree) ==
          if m.formatVersion == 1 && m.sourceLabel == "billing-local-encrypted-secret-store"
             && forall e :: e in m.entries ==>
                  e.relativePath != "" && e.relativePath != "encrypted-secret-store-manifest.json"
          then Ok(m) else Err(ManifestInvalid)
      case _ => LoadManifest(tree) == Err(ManifestMissing)
  {
    match At(tree, ["encrypted-secret-store-manifest.json"])
    case Some(Regular(ManifestText(m, _))) =>
      assert (forall e :: e in m.entries ==> EntryAllowed(e))
        <==> forall i :: 0 <= i < |m.entries| ==> EntryAllowed(m.entries[i]);
    case _ =>
  }

  function Payload(list: seq<Listed>): seq<Listed> {
    if list == [] then []
    else if list[0].path == [MANIFEST_NAME] then Payload(list[1..])
    else [list[0]] + Payload(list[1..])
  }

  /** new Map: the last entry with a path wins. */
  function Expected(entries: seq<Entry>): map<string, Entry> {
    if entries == [] then map[]
    else Expected(entries[..|entries| - 1])[entries[|entries| - 1].relativePath := entries[|entries| - 1]]
  }

  function Texts(list: seq<Listed>): set<string> {
    if list == [] then {} else Texts(list[..|list| - 1]) + {Join(list[|list| - 1].path)}
  }

  predicate Matches(e: Entry, f: Listed) {
    Size(f.content) == e.sizeBytes && Sha256(f.content) == e.sha256
  }

  /** The files are the expected ones: the same set of paths, each with the expected contents. */
  predicate Agrees(list: seq<Listed>, expected: map<string, Entry>) {
    && expected.Keys == Texts(list)
    && forall i :: 0 <= i < |list| ==> Join(list[i].path) in expected && Matches(expected[Join(list[i].path)], list[i])
  }

  ghost predicate DistinctEntries(entries: seq<Entry>) {
    forall i, j :: 0 <= i < j < |entries| ==> entries[i].relativePath != entries[j].relativePath
  }

  /** The backup can be read, and its files are the ones its manifest describes. */
  ghost predicate Intact(tree: seq<Child>) {
    && LoadManifest(tree).Ok? && Listing(tree, []).Ok?
    && Agrees(Payload(Listing(tree, []).value), Expected(LoadManifest(tree).value.entries))
  }

  ghost predicate RestoreAccepts(backup: Path, tree: seq<Child>, destination: Path, destinationExists: bool) {
    && SeparateRoots(backup, destination)
    && Intact(tree)
    && !destinationExists
    && DistinctEntries(LoadManifest(tree).value.entries)
    && AllCopyable(Payload(Listing(tree, []).value))
  }

  lemma {:induction false} PayloadMembers(list: seq<Listed>, f: Listed)
    ensures f in Payload(list) <==> f in list && f.path != [MANIFEST_NAME]
  {
    if list == [] {
    } else {
      PayloadMembers(list[1..], f);
    }
  }

  lemma {:induction false} PayloadIsDistinct(list: seq<Listed>)
    requires DistinctPaths(list)
    ensures DistinctPaths(Payload(list))
  {
    if list == [] {
    } else {
      PayloadIsDistinct(list[1..]);
      forall j | 0 <= j < |Payload(list[1..])| ensures Payload(list[1..])[j].path != list[0].path {
        PayloadMembers(list[1..], Payload(list[1..])[j]);
      }
    }
  }

  lemma {:induction false} ExpectedKeys(entries: seq<Entry>, key: string)
    ensures key in Expected(entries) <==> exists i :: 0 <= i < |entries| && entries[i].relativePath == key
  {
    if entries == [] {
    } else {
      var n := |entries| - 1;
      ExpectedKeys(entries[..n], key);
      if key != entries[n].relativePath && exists i :: 0 <= i < |entries| && entries[i].relativePath == key {
        var i :| 0 <= i < |entries| && entries[i].relativePath == key;
        assert entries[..n][i].relativePath == key;
      }
    }
  }

  lemma {:induction false} TextsMembers(list: seq<Listed>, key: string)
    ensures key in Texts(list) <==> exists i :: 0 <= i < |list| && Join(list[i].path) == key
  {
    if list == [] {
    } else {
      var n := |list| - 1;
      TextsMembers(list[..n], key);
      if key in Texts(list[..n]) {
        var i :| 0 <= i < n && Join(list[..n][i].path) == key;
        assert Join(list[i].path) == key;
      } else {
        forall i | 0 <= i < n ensures Join(list[i].path) != key {
          assert list[..n][i] == list[i];
        }
      }
    }
  }

  lemma LastTextIsNew(list: seq<Listed>)
    requires ProperPaths(list) && list != []
    ensures Join(list[|list| - 1].path) !in Texts(list[..|list| - 1])
  {
    var n := |list| - 1;
    TextsMembers(list[..n], Join(list[n].path));
    forall i | 0 <= i < n ensures Join(list[..n][i].path) != Join(list[n].path) {
      if Join(list[i].path) == Join(list[n].path) {
        JoinIsInjective(list[i].path, list[n].path);
      }
    }
  }

  /** Distinct paths have distinct texts. */
  lemma {:induction false} TextsCount(list: seq<Listed>)
    requires ProperPaths(list)
    ensures |Texts(list)| == |list|
  {
    if list == [] {
    } else {
      var n := |list| - 1;
      TextsCount(list[..n]);
      LastTextIsNew(list);
    }
  }

  lemma SubsetOfSameSize(a: set<string>, b: set<string>)
    requires a <= b && |a| == |b|
    ensures a == b
  {
    assert b == a + (b - a);
    assert |b| == |a| + |b - a|;
  }

  /** Counting the files and finding each one expected is enough for the two sets to be equal. */
  lemma CountAndMembershipSuffice(list: seq<Listed>, expected: map<string, Entry>)
    requires ProperPaths(list)
    ensures Agrees(list, expected) <==>
              && |list| == |expected|
              && forall i :: 0 <= i < |list| ==>
                  Join(list[i].path) in expected && Matches(expected[Join(list[i].path)], list[i])
  {
    TextsCount(list);
    assert |expected| == |expected.Keys|;
    if |list| == |expected| && forall i :: 0 <= i < |list| ==> Join(list[i].path) in expected {
      forall key | key in Texts(list) ensures key in expected {
        TextsMembers(list, key);
      }
      assert Texts(list) <= expected.Keys;
      SubsetOfSameSize(Texts(list), expected.Keys);
    }
  }

  lemma PayloadIsProper(tree: seq<Child>)
    requires WellFormed(tree) && Listing(tree, []).Ok?
    ensures ProperPaths(Payload(Listing(tree, []).value))
  {
    ListedFacts(tree);
    var list := Listing(tree, []).value;
    PayloadIsDistinct(list);
    forall i | 0 <= i < |Payload(list)| ensures Payload(list)[i].path != [] && Clean(Payload(list)[i].path) {
      PayloadMembers(list, Payload(list)[i]);
    }
  }

  /** The first file that is not as expected, and how. */
  ghost predicate FirstMismatch(list: seq<Listed>, expected: map<string, Entry>, i: nat, error: BackupError) {
    && i < |list|
    && (forall j :: 0 <= j < i ==> Join(list[j].path) in expected && Matches(expected[Join(list[j].path)], list[j]))
    && if Join(list[i].path) !in expected then error == UnexpectedFile
       else !Matches(expected[Join(list[i].path)], list[i]) && error == IntegrityFailed
  }

  /** Why a backup is refused: its manifest, its files, their number, or the first one that is not as expected. */
  ghost predicate CheckFails(tree: seq<Child>, error: BackupError) {
    if LoadManifest(tree).Err? then error == LoadManifest(tree).error
    else if Listing(tree, []).Err? then error == Listing(tree, []).error
    else
      var list, expected := Payload(Listing(tree, []).value), Expected(LoadManifest(tree).value.entries);
      if |list| != |expected| then error == Incomplete else exists i :: FirstMismatch(list, expected, i, error)
  }

  /** The file is listed with its text path, its length in bytes and its digest. */
  ghost predicate ListedIn(entries: seq<Entry>, path: Path, content: Content) {
    exists e :: e in entries && e.relativePath == Join(path) && e.sha256 == Sha256(content)
                && e.sizeBytes == (match content case Data(bytes) => |bytes| case ManifestText(_, size) => size)
  }

  ghost predicate IsPayload(tree: seq<Child>, path: Path, content: Content) {
    IsStored(tree, path, content) && path != ["encrypted-secret-store-manifest.json"]
  }

  lemma PayloadIsStored(tree: seq<Child>, path: Path, content: Content)
    requires WellFormed(tree) && Listing(tree, []).Ok?
    ensures Listed(path, content) in Payload(Listing(tree, []).value) <==> IsPayload(tree, path, content)
  {
    PayloadMembers(Listing(tree, []).value, Listed(path, content));
    assert [] + path == path;
    ListingIsExact(tree, [], path, content);
  }

  lemma {:induction false} ExpectedIsEntry(entries: seq<Entry>, i: nat)
    requires DistinctEntries(entries) && i < |entries|
    ensures entries[i].relativePath in Expected(entries) && Expected(entries)[entries[i].relativePath] == entries[i]
  {
    var n := |entries| - 1;
    if i < n {
      ExpectedIsEntry(entries[..n], i);
    }
  }

  lemma ExpectedMatches(entries: seq<Entry>, f: Listed)
    requires DistinctEntries(entries)
    ensures Join(f.path) in Expected(entries) && Matches(Expected(entries)[Join(f.path)], f)
            <==> ListedIn(entries, f.path, f.content)
  {
    ExpectedKeys(entries, Join(f.path));
    if Join(f.path) in Expected(entries) {
      var i :| 0 <= i < |entries| && entries[i].relativePath == Join(f.path);
      ExpectedIsEntry(entries, i);
      assert entries[i] in entries;
    }
    if ListedIn(entries, f.path, f.content) {
      var e :| e in entries && e.relativePath == Join(f.path) && e.sha256 == Sha256(f.content)
               && e.sizeBytes == (match f.content case Data(bytes) => |bytes| case ManifestText(_, size) => size);
      var i :| 0 <= i < |entries| && entries[i] == e;
      ExpectedIsEntry(entries, i);
    }
  }

  ghost predicate HasFile(list: seq<Listed>, e: Entry) {
    exists f :: f in list && Join(f.path) == e.relativePath
  }

  lemma TextsAreExpected(list: seq<Listed>, entries: seq<Entry>)
    requires forall f :: f in list ==> Join(f.path) in Expected(entries)
    requires forall e :: e in entries ==> HasFile(list, e)
    ensures Expected(entries).Keys == Texts(list)
  {
    forall key ensures key in Expected(entries) <==> key in Texts(list) {
      ExpectedKeys(entries, key);
      TextsMembers(list, key);
      if key in Expected(entries) {
        var i :| 0 <= i < |entries| && entries[i].relativePath == key;
        assert HasFile(list, entries[i]);
        var f :| f in list && Join(f.path) == entries[i].relativePath;
        var j :| 0 <= j < |list| && list[j] == f;
      }
    }
  }

  /** An accepted entry names a file of the payload. */
  lemma EntryNamesFile(list: seq<Listed>, entries: seq<Entry>, j: nat) returns (f: Listed)
    requires Agrees(list, Expected(entries)) && j < |entries|
    ensures f in list && Join(f.path) == entries[j].relativePath
  {
    ExpectedKeys(entries, entries[j].relativePath);
    assert entries[j].relativePath in Texts(list);
    TextsMembers(list, entries[j].relativePath);
    var i :| 0 <= i < |list| && Join(list[i].path) == entries[j].relativePath;
    f := list[i];
  }

  /** For distinct entries: each file is listed, and each entry has a file. */
  lemma AgreesExactly(list: seq<Listed>, entries: seq<Entry>)
    requires DistinctEntries(entries)
    ensures Agrees(list, Expected(entries)) <==>
              && (forall f :: f in list ==> ListedIn(entries, f.path, f.content))
              && (forall e :: e in entries ==> HasFile(list, e))
  {
    forall f: Listed | f in list
      ensures Join(f.path) in Expected(entries) && Matches(Expected(entries)[Join(f.path)], f)
              <==> ListedIn(entries, f.path, f.content)
    {
      ExpectedMatches(entries, f);
    }
    if Agrees(list, Expected(entries)) {
      forall f | f in list ensures ListedIn(entries, f.path, f.content) {
        var i :| 0 <= i < |list| && list[i] == f;
      }
      forall e | e in entries ensures HasFile(list, e) {
        var j :| 0 <= j < |entries| && entries[j] == e;
        var f := EntryNamesFile(list, entries, j);
      }
    }
    if (forall f :: f in list ==> ListedIn(entries, f.path, f.content))
       && (forall e :: e in entries ==> HasFile(list, e)) {
      TextsAreExpected(list, entries);
      assert forall i :: 0 <= i < |list| ==> list[i] in list;
    }
  }

  ghost predicate HasPayload(tree: seq<Child>, e: Entry) {
    exists path, content :: IsPayload(tree, path, content) && Join(path) == e.relativePath
  }

  lemma FileIsPayload(tree: seq<Child>, e: Entry)
    requires WellFormed(tree) && Listing(tree, []).Ok?
    ensures HasFile(Payload(Listing(tree, []).value), e) <==> HasPayload(tree, e)
  {
    var list := Payload(Listing(tree, []).value);
    if HasFile(list, e) {
      var f :| f in list && Join(f.path) == e.relativePath;
      assert f == Listed(f.path, f.content);
      PayloadIsStored(tree, f.path, f.content);
    }
    if HasPayload(tree, e) {
      var path, content :| IsPayload(tree, path, content) && Join(path) == e.relativePath;
      PayloadIsStored(tree, path, content);
    }
  }

  /**
   A backup without repeated entries is intact exactly if every file beside the manifest is listed with
   its length and its digest, and every entry has its file.
   */
  lemma IntactMeans(tree: seq<Child>)
    requires WellFormed(tree) && LoadManifest(tree).Ok? && Listing(tree, []).Ok?
    requires DistinctEntries(LoadManifest(tree).value.entries)
    ensures
      var entries := LoadManifest(tree).value.entries;
      Intact(tree) <==>
        && (forall path, content :: IsPayload(tree, path, content) ==> ListedIn(entries, path, content))
        && (forall e :: e in entries ==> HasPayload(tree, e))
  {
    var entries := LoadManifest(tree).value.entries;
    var list := Payload(Listing(tree, []).value);
    AgreesExactly(list, entries);
    forall path, content ensures Listed(path, content) in list <==> IsPayload(tree, path, content) {
      PayloadIsStored(tree, path, content);
    }
    forall e | e in entries ensures HasFile(list, e) <==> HasPayload(tree, e) {
      FileIsPayload(tree, e);
    }
    assert forall f :: f in list ==> f == Listed(f.path, f.content);
  }

  /** The checks that come before anything is written. */
  method CheckBackup(tree: seq<Child>) returns (r: Result<Manifest, BackupError>)
    requires WellFormed(tree)
    ensures r.Ok? <==> Intact(tree)
    ensures r.Err? ==> CheckFails(tree, r.error)
    ensures r.Ok? ==> r.value == LoadManifest(tree).value
  {
    var manifest := LoadManifest(tree);
    if manifest.Err? {
      return Err(manifest.error);
    }
    var listed := ListStoreFiles(tree, []);
    if listed.Err? {
      return Err(listed.error);
    }
    var actual := Payload(listed.value);
    PayloadIsProper(tree);
    var expected := Expected(manifest.value.entries);
    CountAndMembershipSuffice(actual, expected);
    if |actual| != |expected| {
      return Err(Incomplete);
    }
    var i := 0;
    while i < |actual|
      invariant 0 <= i <= |actual|
      invariant forall j :: 0 <= j < i ==>
          Join(actual[j].path) in expected && Matches(expected[Join(actual[j].path)], actual[j])
    {
      var file := actual[i];
      if Join(file.path) !in expected {
        assert FirstMismatch(actual, expected, i, UnexpectedFile);
        return Err(UnexpectedFile);
      }
      var entry := expected[Join(file.path)];
      if Size(file.content) != entry.sizeBytes || Sha256(file.content) != entry.sha256 {
        assert FirstMismatch(actual, expected, i, IntegrityFailed);
        return Err(IntegrityFailed);
      }
      i := i + 1;
    }
    return Ok(manifest.value);
  }

  lemma FileHasEntry(list: seq<Listed>, entries: seq<Entry>, f: Listed) returns (j: nat)
    requires Agrees(list, Expected(entries)) && f in list
    ensures j < |entries| && Join(f.path) == entries[j].relativePath
  {
    TextsMembers(list, Join(f.path));
    ExpectedKeys(entries, Join(f.path));
    j :| 0 <= j < |entries| && entries[j].relativePath == Join(f.path);
  }

  function ContentAt(tree: seq<Child>, root: Path, path: Path): Option<Content> {
    if root <= path then
      match At(tree, path[|root|..])
      case Some(Regular(content)) => Some(content)
      case _ => None
    else None
  }

  lemma PayloadIsReadable(tree: seq<Child>, root: Path, f: Listed)
    requires WellFormed(tree) && Listing(tree, []).Ok? && f in Payload(Listing(tree, []).value)
    ensures ContentAt(tree, root, root + f.path) == Some(f.content)
  {
    PayloadMembers(Listing(tree, []).value, f);
    assert [] + f.path == f.path;
    ListingIsExact(tree, [], f.path, f.content);
    assert (root + f.path)[|root|..] == f.path;
  }

  /** `done` holds the files of the first entries, in the order of the entries. */
  ghost predicate Follows(done: seq<Listed>, list: seq<Listed>, entries: seq<Entry>) {
    && |done| <= |entries|
    && forall k :: 0 <= k < |done| ==> done[k] in list && Join(done[k].path) == entries[k].relativePath
  }

  lemma SameMember(a: seq<Listed>, b: seq<Listed>, j: nat)
    requires j < |b| && forall f :: f in a <==> f in b
    ensures exists i :: 0 <= i < |a| && a[i].path == b[j].path
  {
    assert b[j] in a;
    var i :| 0 <= i < |a| && a[i] == b[j];
    assert a[i].path == b[j].path;
  }

  /** Distinct lists of the same files copy to the same disk. */
  lemma SameFiles(root: Path, a: seq<Listed>, b: seq<Listed>)
    requires DistinctPaths(a) && DistinctPaths(b)
    requires forall f :: f in a <==> f in b
    ensures FilesUnder(root, a) == FilesUnder(root, b)
  {
    forall key ensures key in FilesUnder(root, a) <==> key in FilesUnder(root, b)
      ensures key in FilesUnder(root, a) ==> FilesUnder(root, a)[key] == FilesUnder(root, b)[key]
    {
      FilesUnderKeys(root, a, key);
      FilesUnderKeys(root, b, key);
      if key in FilesUnder(root, a) {
        var i :| 0 <= i < |a| && key == root + a[i].path;
        assert a[i] in b;
        var j :| 0 <= j < |b| && b[j] == a[i];
        FilesUnderContents(root, a, i);
        FilesUnderContents(root, b, j);
      } else if key in FilesUnder(root, b) {
        var j :| 0 <= j < |b| && key == root + b[j].path;
        SameMember(a, b, j);
      }
    }
  }

  lemma DoneIsDistinct(done: seq<Listed>, list: seq<Listed>, entries: seq<Entry>)
    requires ProperPaths(list) && Follows(done, list, entries) && |done| == |entries|
    ensures DistinctPaths(done) <==> DistinctEntries(entries)
  {
    forall k, l | 0 <= k < l < |entries|
      ensures done[k].path == done[l].path <==> entries[k].relativePath == entries[l].relativePath
    {
      assert Join(done[k].path) == entries[k].relativePath && Join(done[l].path) == entries[l].relativePath;
      if Join(done[k].path) == Join(done[l].path) {
        JoinIsInjective(done[k].path, done[l].path);
      }
    }
  }

  lemma {:induction false} DoneIsAll(done: seq<Listed>, list: seq<Listed>, entries: seq<Entry>, f: Listed)
    requires ProperPaths(list) && Agrees(list, Expected(entries))
    requires Follows(done, list, entries) && |done| == |entries| && f in list
    ensures f in done
  {
    var j := FileHasEntry(list, entries, f);
    assert done[j] in list;
    JoinIsInjective(f.path, done[j].path);
    assert done[j] == f by {
      var a :| 0 <= a < |list| && list[a] == f;
      var b :| 0 <= b < |list| && list[b] == done[j];
      assert a == b;
    }
  }

  lemma AllCopied(done: seq<Listed>, list: seq<Listed>, entries: seq<Entry>, destination: Path)
    requires ProperPaths(list) && Agrees(list, Expected(entries))
    requires Follows(done, list, entries) && |done| == |entries| && DistinctPaths(done) && AllCopyable(done)
    ensures DistinctEntries(entries) && AllCopyable(list)
    ensures FilesUnder(destination, done) == FilesUnder(destination, list)
  {
    DoneIsDistinct(done, list, entries);
    forall f ensures f in done <==> f in list {
      if f in list {
        DoneIsAll(done, list, entries, f);
      }
    }
    forall i | 0 <= i < |list| ensures Copyable(list[i].path) {
      assert list[i] in done;
    }
    SameFiles(destination, done, list);
  }

  /** A target that exists already is the copy of an earlier entry with the same path. */
  lemma TargetExists(done: seq<Listed>, list: seq<Listed>, entries: seq<Entry>, root: Path, f: Listed)
    requires Follows(done, list, entries) && |done| < |entries| && Join(f.path) == entries[|done|].relativePath
    requires root + f.path in FilesUnder(root, done)
    ensures !DistinctEntries(entries)
  {
    FilesUnderKeys(root, done, root + f.path);
    var k :| 0 <= k < |done| && root + f.path == root + done[k].path;
    SameTail(root, f.path, done[k].path);
    assert entries[k].relativePath == entries[|done|].relativePath;
  }

  lemma TargetIsNew(done: seq<Listed>, root: Path, f: Listed)
    requires DistinctPaths(done) && root + f.path !in FilesUnder(root, done)
    ensures DistinctPaths(done + [f])
    ensures FilesUnder(root, done + [f]) == FilesUnder(root, done)[root + f.path := f.content]
  {
    assert (done + [f])[..|done|] == done;
    forall k | 0 <= k < |done| ensures done[k].path != f.path {
      FilesUnderContents(root, done, k);
    }
  }

  /** Copies entry after entry; an entry listed twice meets its own copy. */
  method CopyEntries(backup: Path, tree: seq<Child>, destination: Path, entries: seq<Entry>)
    returns (r: Result<Disk, BackupError>)
    requires Clean(backup) && Clean(destination) && WellFormed(tree) && Listing(tree, []).Ok?
    requires Agrees(Payload(Listing(tree, []).value), Expected(entries))
    ensures r.Ok? <==> DistinctEntries(entries) && AllCopyable(Payload(Listing(tree, []).value))
    ensures r.Err? ==>
              || (r.error == InvalidPath && !AllCopyable(Payload(Listing(tree, []).value)))
              || (r.error == FileExists && !DistinctEntries(entries))
    ensures r.Ok? ==> r.value == FilesUnder(destination, Payload(Listing(tree, []).value))
  {
    ghost var list := Payload(Listing(tree, []).value);
    PayloadIsProper(tree);
    var disk: Disk := map[];
    ghost var done: seq<Listed> := [];
    var j := 0;
    while j < |entries|
      invariant 0 <= j <= |entries| && |done| == j
      invariant Follows(done, list, entries) && DistinctPaths(done) && AllCopyable(done)
      invariant disk == FilesUnder(destination, done)
    {
      ghost var f := EntryNamesFile(list, entries, j);
      CopyTarget(backup, f.path);
      CopyTarget(destination, f.path);
      var source := SafeResolve(backup, entries[j].relativePath);
      var target := SafeResolve(destination, entries[j].relativePath);
      if source.None? || target.None? {
        assert !Copyable(f.path);
        return Err(InvalidPath);
      }
      PayloadIsReadable(tree, backup, f);
      var content := ContentAt(tree, backup, source.value);
      if target.value in disk {
        TargetExists(done, list, entries, destination, f);
        return Err(FileExists);
      }
      TargetIsNew(done, destination, f);
      disk := disk[target.value := content.value];
      done := done + [f];
      j := j + 1;
    }
    AllCopied(done, list, entries, destination);
    return Ok(disk);
  }

  /** Everything restoreEncryptedSecretStore does before the restored store is opened and verified. */
  method RestoreStore(backup: Path, tree: seq<Child>, destination: Path, destinationExists: bool)
    returns (r: Result<Disk, BackupError>)
    requires Clean(backup) && Clean(destination) && WellFormed(tree)
    ensures r.Ok? <==> RestoreAccepts(backup, tree, destination, destinationExists)
    ensures r.Ok? ==> r.value == FilesUnder(destination, Payload(Listing(tree, []).value))
    ensures r.Ok? ==> forall key :: key in r.value ==> destination < key
    ensures r.Err? ==>
              if !SeparateRoots(backup, destination) then r.error == RootsOverlap
              else if !Intact(tree) then CheckFails(tree, r.error)
              else if destinationExists then r.error == DestinationExists
              else
                || (r.error == InvalidPath && !AllCopyable(Payload(Listing(tree, []).value)))
                || (r.error == FileExists && !DistinctEntries(LoadManifest(tree).value.entries))
  {
    if !SeparateRoots(backup, destination) {
      return Err(RootsOverlap);
    }
    var checked := CheckBackup(tree);
    if checked.Err? {
      return Err(checked.error);
    }
    if destinationExists {
      return Err(DestinationExists);
    }
    r := CopyEntries(backup, tree, destination, checked.value.entries);
    if r.Ok? {
      PayloadIsProper(tree);
      forall key | key in r.value ensures destination < key {
        CopiesStayInside(destination, Payload(Listing(tree, []).value), key);
      }
    }
  }

  // -- Round trip --------------------------------------------------------------------------

  /** A directory tree that holds exactly these files. */
  ghost predicate Represents(tree: seq<Child>, root: Path, disk: Disk) {
    && WellFormed(tree)
    && (forall path :: At(tree, path) != Some(Symlink))
    && (forall path, content ::
          At(tree, path) == Some(Regular(content)) <==>
              path != [] && root + path in disk && disk[root + path] == content)
  }

  /** What a backup leaves below its root. */
  function BackupDisk(list: seq<Listed>, root: Path, manifestSize: nat): Disk {
    FilesUnder(root, list)[root + [MANIFEST_NAME] := ManifestText(Manifest(1, SOURCE_LABEL, EntriesOf(list)),
        manifestSize)]
  }

  lemma DiskHolds(list: seq<Listed>, root: Path, path: Path, content: Content)
    requires DistinctPaths(list)
    ensures root + path in FilesUnder(root, list) && FilesUnder(root, list)[root + path] == content
            <==> Listed(path, content) in list
  {
    FilesUnderKeys(root, list, root + path);
    if root + path in FilesUnder(root, list) {
      var i :| 0 <= i < |list| && root + path == root + list[i].path;
      SameTail(root, path, list[i].path);
      FilesUnderContents(root, list, i);
    }
    if Listed(path, content) in list {
      var i :| 0 <= i < |list| && list[i] == Listed(path, content);
      FilesUnderContents(root, list, i);
    }
  }

  lemma BackupTreeHolds(list: seq<Listed>, root: Path, manifestSize: nat, copy: seq<Child>, path: Path,
      content: Content)
    requires ProperPaths(list) && NoManifest(list)
    requires Represents(copy, root, BackupDisk(list, root, manifestSize))
    ensures
      if path == [MANIFEST_NAME]
      then At(copy, path) == Some(Regular(ManifestText(Manifest(1, SOURCE_LABEL, EntriesOf(list)), manifestSize)))
      else At(copy, path) == Some(Regular(content)) <==> Listed(path, content) in list
  {
    SameTail(root, path, [MANIFEST_NAME]);
    DiskHolds(list, root, path, content);
  }

  lemma NoMasterKeyWithoutK(n: string, i: nat)
    requires i <= |n| && 'k' !in n
    ensures !MasterKeyAt(n, i)
  {
    assert "masterkey"[6] == 'k' && "key"[0] == 'k';
    assert forall k :: 0 <= k < |n[i..]| ==> n[i..][k] != 'k';
    if |n| - i >= 10 {
      assert n[i + 7..][0] != 'k';
    }
  }

  lemma EndsOtherwise(name: string, suffix: string)
    requires name != "" && suffix != "" && name[|name| - 1] != suffix[|suffix| - 1]
    ensures !EndsWith(name, suffix)
  {
    if |suffix| <= |name| {
      assert name[|name| - |suffix|..][|suffix| - 1] == name[|name| - 1];
    }
  }

  lemma LowerManifestName()
    ensures var n := Lower(MANIFEST_NAME); |n| == 36 && n[35] == 'n' && 'k' !in n
    ensures MANIFEST_NAME[35] == 'n' && |MANIFEST_NAME| == 36
  {
    assert MANIFEST_NAME[35] == 'n';
  }

  lemma ManifestNameIsHarmless()
    ensures !Excluded(MANIFEST_NAME) && !Private(MANIFEST_NAME)
  {
    var n := Lower(MANIFEST_NAME);
    LowerManifestName();
    EndsOtherwise(n, ".key");
    EndsOtherwise(n, ".pem");
    EndsOtherwise(n, ".p12");
    EndsOtherwise(n, ".pfx");
    EndsOtherwise(MANIFEST_NAME, ".tmp");
    forall i | 0 <= i <= |n| ensures !MasterKeyAt(n, i) {
      NoMasterKeyWithoutK(n, i);
    }
  }

  lemma ListedIsHarmless(tree: seq<Child>, f: Listed)
    requires WellFormed(tree) && Listing(tree, []).Ok? && f in Listing(tree, []).value
    ensures f.path != [] && !Excluded(f.path[|f.path| - 1]) && !Private(f.path[|f.path| - 1])
  {
    assert [] + f.path == f.path;
    ListingIsExact(tree, [], f.path, f.content);
    ListingSucceeds(tree, []);
    assert Listable(At(tree, f.path).value, f.path[|f.path| - 1]);
  }

  lemma BackupIsListable(tree: seq<Child>, root: Path, manifestSize: nat, copy: seq<Child>)
    requires WellFormed(tree) && Listing(tree, []).Ok? && NoManifest(Listing(tree, []).value)
    requires Represents(copy, root, BackupDisk(Listing(tree, []).value, root, manifestSize))
    ensures Listing(copy, []).Ok?
  {
    var list := Listing(tree, []).value;
    ListedFacts(tree);
    ManifestNameIsHarmless();
    forall path | path != [] && At(copy, path).Some? ensures Listable(At(copy, path).value, path[|path| - 1]) {
      var node := At(copy, path).value;
      if node.Regular? && path != [MANIFEST_NAME] {
        BackupTreeHolds(list, root, manifestSize, copy, path, node.content);
        ListedIsHarmless(tree, Listed(path, node.content));
      }
    }
    ListingSucceeds(copy, []);
  }

  lemma PayloadIsTheBackup(tree: seq<Child>, root: Path, manifestSize: nat, copy: seq<Child>, f: Listed)
    requires WellFormed(tree) && Listing(tree, []).Ok? && NoManifest(Listing(tree, []).value)
    requires Represents(copy, root, BackupDisk(Listing(tree, []).value, root, manifestSize))
    requires Listing(copy, []).Ok?
    ensures f in Payload(Listing(copy, []).value) <==> f in Listing(tree, []).value
  {
    var list := Listing(tree, []).value;
    ListedFacts(tree);
    PayloadMembers(Listing(copy, []).value, f);
    assert [] + f.path == f.path;
    ListingIsExact(copy, [], f.path, f.content);
    BackupTreeHolds(list, root, manifestSize, copy, f.path, f.content);
    if f in list {
      ListedIsHarmless(tree, f);
    }
  }

  lemma {:induction false} ExpectedOfEntries(list: seq<Listed>, i: nat)
    requires ProperPaths(list) && i < |list|
    ensures Join(list[i].path) in Expected(EntriesOf(list))
    ensures Expected(EntriesOf(list))[Join(list[i].path)] == EntryOf(list[i])
  {
    var n := |list| - 1;
    assert EntriesOf(list)[..n] == EntriesOf(list[..n]);
    if i < n {
      ExpectedOfEntries(list[..n], i);
      if Join(list[i].path) == Join(list[n].path) {
        JoinIsInjective(list[i].path, list[n].path);
      }
    }
  }

  lemma ManifestAgrees(list: seq<Listed>, actual: seq<Listed>)
    requires ProperPaths(list) && ProperPaths(actual) && forall f :: f in actual <==> f in list
    ensures Agrees(actual, Expected(EntriesOf(list)))
    ensures DistinctEntries(EntriesOf(list))
  {
    var expected := Expected(EntriesOf(list));
    forall i | 0 <= i < |actual|
      ensures Join(actual[i].path) in expected && Matches(expected[Join(actual[i].path)], actual[i])
    {
      assert actual[i] in list;
      var j :| 0 <= j < |list| && list[j] == actual[i];
      ExpectedOfEntries(list, j);
    }
    forall key | key in expected ensures key in Texts(actual) {
      ExpectedKeys(EntriesOf(list), key);
      var j :| 0 <= j < |EntriesOf(list)| && EntriesOf(list)[j].relativePath == key;
      assert list[j] in actual;
      var i :| 0 <= i < |actual| && actual[i] == list[j];
      TextsMembers(actual, key);
    }
    forall key | key in Texts(actual) ensures key in expected {
      TextsMembers(actual, key);
    }
    assert expected.Keys == Texts(actual);
    forall i, j | 0 <= i < j < |list| ensures EntriesOf(list)[i].relativePath != EntriesOf(list)[j].relativePath {
      if Join(list[i].path) == Join(list[j].path) {
        JoinIsInjective(list[i].path, list[j].path);
      }
    }
  }

  lemma ManifestIsClean()
    ensures Clean([MANIFEST_NAME]) && Join([MANIFEST_NAME]) == MANIFEST_NAME
  {
    assert |MANIFEST_NAME| == 36;
    assert '/' !in MANIFEST_NAME;
  }

  lemma ManifestLoads(list: seq<Listed>, root: Path, manifestSize: nat, copy: seq<Child>)
    requires ProperPaths(list) && NoManifest(list)
    requires Represents(copy, root, BackupDisk(list, root, manifestSize))
    ensures LoadManifest(copy) == Ok(Manifest(1, SOURCE_LABEL, EntriesOf(list)))
  {
    BackupTreeHolds(list, root, manifestSize, copy, [MANIFEST_NAME], Data([]));
    var entries := EntriesOf(list);
    forall i | 0 <= i < |entries| ensures EntryAllowed(entries[i]) {
      JoinedStart(list[i].path);
      if Join(list[i].path) == MANIFEST_NAME {
        ManifestIsClean();
        JoinIsInjective(list[i].path, [MANIFEST_NAME]);
      }
    }
  }

  /**
   A backup that was not touched restores: every check passes, and below the destination are
   exactly the files of the source, without its temporary and lock files.
   */
  lemma UntouchedBackupRestores(
    source: Path, tree: seq<Child>, backup: Path, manifestSize: nat, copy: seq<Child>, destination: Path)
    requires Clean(source) && Clean(backup) && Clean(destination) && WellFormed(tree)
    requires BackupAccepts(source, tree, backup, false)
    requires Represents(copy, backup, BackupDisk(Listing(tree, []).value, backup, manifestSize))
    requires SeparateRoots(backup, destination)
    ensures RestoreAccepts(backup, copy, destination, false)
    ensures FilesUnder(destination, Payload(Listing(copy, []).value))
        == FilesUnder(destination, Listing(tree, []).value)
  {
    var list := Listing(tree, []).value;
    ListedFacts(tree);
    BackupIsListable(tree, backup, manifestSize, copy);
    PayloadIsProper(copy);
    var actual := Payload(Listing(copy, []).value);
    forall f ensures f in actual <==> f in list {
      PayloadIsTheBackup(tree, backup, manifestSize, copy, f);
    }
    ManifestLoads(list, backup, manifestSize, copy);
    ManifestAgrees(list, actual);
    forall i | 0 <= i < |actual| ensures Copyable(actual[i].path) {
      assert actual[i] in list;
    }
    SameFiles(destination, actual, list);
  }

  /** The restored files, path by path: what the source tree stores there. */
  lemma RestoredFilesAreTheSource(tree: seq<Child>, destination: Path, path: Path, content: Content)
    requires WellFormed(tree) && Listing(tree, []).Ok?
    ensures
      var files := FilesUnder(destination, Listing(tree, []).value);
      destination + path in files && files[destination + path] == content <==> IsStored(tree, path, content)
  {
    ListedFacts(tree);
    DiskHolds(Listing(tree, []).value, destination, path, content);
    ListingIsExact(tree, [], path, content);
    assert [] + path == path;
  }
}
