/** Backup and restore of the encrypted secret store, for stores that are not written meanwhile. */
module SecretBackup {
  import opened Common
  import opened PathText

  const MANIFEST_NAME := "encrypted-secret-store-manifest.json"

  /** File contents. The manifest is JSON text, from which the manifest can be read back; `size` is its length. */
  datatype Content = Data(bytes: seq<nat>) | ManifestText(manifest: Manifest, size: nat)

  datatype Digest = Sha256(preimage: Content)

  datatype Entry = Entry(relativePath: string, sizeBytes: nat, sha256: Digest)

  datatype Manifest = Manifest(formatVersion: nat, sourceLabel: string, entries: seq<Entry>)

  datatype Node = Regular(content: Content) | Directory(children: seq<Child>) | Symlink | Special

  datatype Child = Child(name: string, node: Node)

  datatype BackupError =
    | RootsOverlap
    | DestinationExists
    | HasSymlink
    | PrivateMaterial
    | InvalidPath
    | FileExists
    | ManifestMissing
    | ManifestInvalid
    | Incomplete
    | UnexpectedFile
    | IntegrityFailed
    | SourceMissing

  function Size(c: Content): nat {
    match c
    case Data(bytes) => |bytes|
    case ManifestText(_, size) => size
  }

  // -- Paths -------------------------------------------------------------------------------

  function SafeResolve(root: Path, relativePath: string): Option<Path> {
    if relativePath == "" || IsAbsolute(relativePath) || '\\' in relativePath then None
    else
      var candidate := Resolve(root, relativePath);
      var relation := Relative(root, candidate);
      if relation == "" || !StaysInside(relation) then None else Some(candidate)
  }

  /** Accepted are exactly the paths strictly below the root whose first step does not start with two dots. */
  lemma SafeResolveStaysInside(root: Path, relativePath: string)
    requires Clean(root)
    ensures
      var candidate := Resolve(root, relativePath);
      SafeResolve(root, relativePath) ==
        if !("/" <= relativePath) && '\\' !in relativePath && root < candidate && !(".." <= candidate[|root|])
        then Some(candidate) else None
  {
    OneStep(root, "");
    ResolveIsClean(root, relativePath);
    RelationMeaning(root, Resolve(root, relativePath));
  }

  predicate SeparateRoots(first: Path, second: Path) {
    var a, b := Relative(first, second), Relative(second, first);
    !(a == "" || StaysInside(a)) && !(b == "" || StaysInside(b))
  }

  /**
   Roots count as separate exactly when neither contains the other, except that a directory whose
   name starts with two dots passes as separate from its parent.
   */
  lemma SeparateRootsMeaning(first: Path, second: Path)
    requires Clean(first) && Clean(second)
    ensures SeparateRoots(first, second) <==>
              && first != second
              && (first < second ==> ".." <= second[|first|])
              && (second < first ==> ".." <= first[|second|])
  {
    RelationMeaning(first, second);
    RelationMeaning(second, first);
  }

  // -- Left out, and refused --------------------------------------------------------------

  predicate EndsWith(name: string, suffix: string) {
    |suffix| <= |name| && name[|name| - |suffix|..] == suffix
  }

  function Lower(name: string): (r: string)
    ensures |r| == |name|
  {
    seq(|name|, i requires 0 <= i < |name| =>
      if 'A' <= name[i] <= 'Z' then (name[i] as int + 32) as char else name[i])
  }

  predicate Excluded(name: string) {
    EndsWith(name, ".tmp") || name == ".write.lock"
  }

  predicate LineTerminator(c: char) {
    c == '\n' || c == '\r' || c as int == 0x2028 || c as int == 0x2029
  }

  predicate MasterKeyAt(n: string, i: nat)
    requires i <= |n|
  {
    || "masterkey" <= n[i..]
    || ("master" <= n[i..] && |n| - i >= 10 && !LineTerminator(n[i + 6]) && "key" <= n[i + 7..])
  }

  /** The two patterns for key material, without regard to case. */
  predicate Private(name: string) {
    var n := Lower(name);
    || EndsWith(n, ".key") || EndsWith(n, ".pem") || EndsWith(n, ".p12") || EndsWith(n, ".pfx")
    || exists i :: 0 <= i <= |n| && MasterKeyAt(n, i)
  }

  // -- Names -------------------------------------------------------------------------------

  /** The pattern in lower case, matched without regard to case. */
  ghost predicate Spells(text: string, pattern: string) {
    && |text| == |pattern|
    && forall i :: 0 <= i < |text| ==>
         text[i] == pattern[i] || ('a' <= pattern[i] <= 'z' && text[i] as int == pattern[i] as int - 32)
  }

  ghost predicate SpellsAt(name: string, i: nat, pattern: string) {
    i + |pattern| <= |name| && Spells(name[i..i + |pattern|], pattern)
  }

  ghost predicate EndsLike(name: string, suffix: string) {
    |suffix| <= |name| && SpellsAt(name, |name| - |suffix|, suffix)
  }

  /** The words master and key, together or with one character between them. */
  ghost predicate MasterKeyFrom(name: string, i: nat) {
    && SpellsAt(name, i, "master")
    && (SpellsAt(name, i + 6, "key")
        || (SpellsAt(name, i + 7, "key") && name[i + 6] !in {'\n', '\r', 0x2028 as char, 0x2029 as char}))
  }

  ghost predicate LowerCase(pattern: string) {
    forall i :: 0 <= i < |pattern| ==> !('A' <= pattern[i] <= 'Z')
  }

  lemma LowerSpells(name: string, i: nat, pattern: string)
    requires LowerCase(pattern)
    ensures SpellsAt(name, i, pattern) <==> i + |pattern| <= |name| && pattern <= Lower(name)[i..]
  {
    var n := Lower(name);
    if i + |pattern| <= |name| {
      if pattern <= n[i..] {
        forall k | 0 <= k < |pattern|
          ensures name[i + k] == pattern[k]
               || ('a' <= pattern[k] <= 'z' && name[i + k] as int == pattern[k] as int - 32)
        {
          assert n[i..][k] == pattern[k] && n[i..][k] == n[i + k];
        }
      }
      if SpellsAt(name, i, pattern) {
        forall k | 0 <= k < |pattern| ensures n[i..][k] == pattern[k] {
          assert name[i..i + |pattern|][k] == name[i + k] && n[i..][k] == n[i + k];
        }
        assert n[i..][..|pattern|] == pattern;
      }
    }
  }

  lemma EndingSpells(name: string, suffix: string)
    requires LowerCase(suffix)
    ensures EndsWith(Lower(name), suffix) <==> EndsLike(name, suffix)
  {
    if |suffix| <= |name| {
      LowerSpells(name, |name| - |suffix|, suffix);
      assert |Lower(name)[|name| - |suffix|..]| == |suffix|;
    }
  }

  lemma MasterKeySpells(name: string, i: nat)
    requires i <= |name|
    ensures MasterKeyAt(Lower(name), i) <==> MasterKeyFrom(name, i)
  {
    var n := Lower(name);
    LowerSpells(name, i, "master");
    LowerSpells(name, i + 6, "key");
    LowerSpells(name, i + 7, "key");
    assert "masterkey" == "master" + "key";
    if i + 9 <= |name| {
      assert n[i..][6..] == n[i + 6..];
      assert "masterkey" <= n[i..] <==> "master" <= n[i..] && "key" <= n[i + 6..];
    }
    if i + 10 <= |name| {
      assert LineTerminator(n[i + 6]) <==> name[i + 6] in {'\n', '\r', 0x2028 as char, 0x2029 as char};
    }
  }

  /** Which names count as temporary and which as key material. */
  lemma NamesMean(name: string)
    ensures Excluded(name) <==> name == ".write.lock" || exists stem :: name == stem + ".tmp"
    ensures Private(name) <==>
              || (exists ending :: ending in {".key", ".pem", ".p12", ".pfx"} && EndsLike(name, ending))
              || (exists i: nat :: MasterKeyFrom(name, i))
  {
    if EndsWith(name, ".tmp") {
      assert name == name[..|name| - 4] + ".tmp";
    }
    EndingSpells(name, ".key");
    EndingSpells(name, ".pem");
    EndingSpells(name, ".p12");
    EndingSpells(name, ".pfx");
    forall i: nat ensures i <= |name| && MasterKeyAt(Lower(name), i) <==> MasterKeyFrom(name, i) {
      if i <= |name| {
        MasterKeySpells(name, i);
      }
    }
    if i: nat :| MasterKeyFrom(name, i) {
      assert i <= |Lower(name)| && MasterKeyAt(Lower(name), i);
    }
  }

  // -- Listing -----------------------------------------------------------------------------

  datatype Listed = Listed(path: Path, content: Content)

  function Listing(children: seq<Child>, at: Path): Result<seq<Listed>, BackupError>
    decreases children
  {
    if children == [] then Ok([])
    else match EntryListing(children[0], at)
      case Err(error) => Err(error)
      case Ok(first) =>
        match Listing(children[1..], at)
        case Err(error) => Err(error)
        case Ok(rest) => Ok(first + rest)
  }

  function EntryListing(c: Child, at: Path): Result<seq<Listed>, BackupError>
    decreases c
  {
    match c.node
    case Symlink => Err(HasSymlink)
    case Directory(children) => Listing(children, at + [c.name])
    case Regular(content) =>
      if Excluded(c.name) then Ok([])
      else if Private(c.name) then Err(PrivateMaterial)
      else Ok([Listed(at + [c.name], content)])
    case Special => Ok([])
  }

  /** Names of one directory are distinct single segments. */
  ghost predicate WellFormed(children: seq<Child>)
    decreases children
  {
    && (forall i :: 0 <= i < |children| ==> CleanSegment(children[i].name))
    && (forall i, j :: 0 <= i < j < |children| ==> children[i].name != children[j].name)
    && (forall i :: 0 <= i < |children| && children[i].node.Directory? ==> WellFormed(children[i].node.children))
  }

  function Find(children: seq<Child>, name: string): Option<Node> {
    if children == [] then None
    else if children[0].name == name then Some(children[0].node)
    else Find(children[1..], name)
  }

  /** What is at a path of the tree. */
  function At(children: seq<Child>, path: Path): Option<Node>
    decreases |path|
  {
    if path == [] then None
    else match Find(children, path[0])
      case None => None
      case Some(node) =>
        if |path| == 1 then Some(node)
        else if node.Directory? then At(node.children, path[1..])
        else None
  }

  predicate IsStored(children: seq<Child>, path: Path, content: Content) {
    path != [] && At(children, path) == Some(Regular(content)) && !Excluded(path[|path| - 1])
  }

  lemma {:induction false} FindAbsent(children: seq<Child>, name: string)
    requires forall i :: 0 <= i < |children| ==> children[i].name != name
    ensures Find(children, name) == None
  {
    if children == [] {
    } else {
      FindAbsent(children[1..], name);
    }
  }

  /** Every listed path lies below the directory that was listed. */
  lemma {:induction false} ListedBelow(children: seq<Child>, at: Path, f: Listed)
    requires Listing(children, at).Ok? && f in Listing(children, at).value
    ensures at < f.path
    decreases children
  {
    var first := EntryListing(children[0], at).value;
    if f in first {
      if children[0].node.Directory? {
        ListedBelow(children[0].node.children, at + [children[0].name], f);
      }
    } else {
      ListedBelow(children[1..], at, f);
    }
  }

  lemma EntryListedBelow(c: Child, at: Path, f: Listed)
    requires EntryListing(c, at).Ok? && f in EntryListing(c, at).value
    ensures at + [c.name] <= f.path
  {
    if c.node.Directory? {
      ListedBelow(c.node.children, at + [c.name], f);
    }
  }

  lemma WellFormedTail(children: seq<Child>)
    requires WellFormed(children) && children != []
    ensures WellFormed(children[1..])
    ensures forall i :: 0 <= i < |children[1..]| ==> children[1..][i].name != children[0].name
  {}

  /** The listing holds exactly the regular files of the tree that are not temporary or lock files. */
  lemma {:induction false} ListingIsExact(children: seq<Child>, at: Path, path: Path, content: Content)
    requires WellFormed(children) && Listing(children, at).Ok?
    ensures Listed(at + path, content) in Listing(children, at).value <==> IsStored(children, path, content)
    decreases children
  {
    var f := Listed(at + path, content);
    if path == [] {
      if f in Listing(children, at).value {
        ListedBelow(children, at, f);
      }
    } else if children != [] {
      var c := children[0];
      WellFormedTail(children);
      ListingIsExact(children[1..], at, path, content);
      if c.name == path[0] {
        EntryIsExact(c, at, path, content);
        FindAbsent(children[1..], path[0]);
        if At(children[1..], path).Some? {
          assert false;
        }
      } else {
        assert (at + path)[|at|] == path[0];
        if f in EntryListing(c, at).value {
          EntryListedBelow(c, at, f);
        }
      }
    }
  }

  lemma {:induction false} EntryIsExact(c: Child, at: Path, path: Path, content: Content)
    requires path != [] && path[0] == c.name ==> (c.node.Directory? ==> WellFormed(c.node.children))
    requires path != [] && EntryListing(c, at).Ok? && path[0] == c.name
    ensures Listed(at + path, content) in EntryListing(c, at).value <==> IsStored([c], path, content)
    decreases c
  {
    assert Find([c], c.name) == Some(c.node);
    assert at + path == at + [c.name] + path[1..];
    match c.node
    case Directory(children) =>
      ListingIsExact(children, at + [c.name], path[1..], content);
    case Regular(_) =>
      if |path| > 1 {
        assert |at + path| > |at + [c.name]|;
      } else {
        assert path == [c.name];
      }
    case _ =>
  }

  // -- Distinct paths ----------------------------------------------------------------------

  ghost predicate DistinctPaths(list: seq<Listed>) {
    forall i, j :: 0 <= i < j < |list| ==> list[i].path != list[j].path
  }

  /** What the rest of a directory lists starts with another name. */
  lemma {:induction false} OtherListedBelow(children: seq<Child>, at: Path, name: string, f: Listed)
    requires Listing(children, at).Ok? && f in Listing(children, at).value
    requires forall i :: 0 <= i < |children| ==> children[i].name != name
    ensures !(at + [name] <= f.path)
    decreases |children|
  {
    if f in EntryListing(children[0], at).value {
      EntryListedBelow(children[0], at, f);
      assert f.path[|at|] == children[0].name;
    } else {
      OtherListedBelow(children[1..], at, name, f);
    }
  }

  lemma {:induction false} ListingIsDistinct(children: seq<Child>, at: Path)
    requires WellFormed(children) && Listing(children, at).Ok?
    ensures DistinctPaths(Listing(children, at).value)
    decreases children
  {
    if children == [] {
    } else {
      var c := children[0];
      WellFormedTail(children);
      ListingIsDistinct(children[1..], at);
      var first, rest := EntryListing(c, at).value, Listing(children[1..], at).value;
      if c.node.Directory? {
        ListingIsDistinct(c.node.children, at + [c.name]);
      }
      forall i, j | 0 <= i < |first| && 0 <= j < |rest| ensures first[i].path != rest[j].path {
        EntryListedBelow(c, at, first[i]);
        OtherListedBelow(children[1..], at, c.name, rest[j]);
      }
    }
  }

  lemma {:induction false} ListedIsClean(children: seq<Child>, at: Path, f: Listed)
    requires WellFormed(children) && Clean(at) && Listing(children, at).Ok? && f in Listing(children, at).value
    ensures Clean(f.path)
    decreases children
  {
    var c := children[0];
    if f in EntryListing(c, at).value {
      if c.node.Directory? {
        ListedIsClean(c.node.children, at + [c.name], f);
      }
    } else {
      WellFormedTail(children);
      ListedIsClean(children[1..], at, f);
    }
  }

  // -- When listing succeeds ---------------------------------------------------------------

  /** No symbolic link, and no file that looks like key material. */
  predicate Listable(node: Node, name: string) {
    !node.Symlink? && (node.Regular? && !Excluded(name) ==> !Private(name))
  }

  ghost predicate AllListable(children: seq<Child>) {
    forall path :: path != [] && At(children, path).Some? ==> Listable(At(children, path).value, path[|path| - 1])
  }

  lemma HeadIsListable(children: seq<Child>)
    requires children != [] && AllListable(children)
    ensures Listable(children[0].node, children[0].name)
    ensures children[0].node.Directory? ==> AllListable(children[0].node.children)
  {
    var c := children[0];
    assert At(children, [c.name]) == Some(c.node);
    if c.node.Directory? {
      forall path | path != [] && At(c.node.children, path).Some?
        ensures Listable(At(c.node.children, path).value, path[|path| - 1])
      {
        var whole := [c.name] + path;
        assert whole[1..] == path;
        assert At(children, whole) == At(c.node.children, path);
        assert whole[|whole| - 1] == path[|path| - 1];
      }
    }
  }

  lemma TailIsListable(children: seq<Child>)
    requires WellFormed(children) && children != [] && AllListable(children)
    ensures AllListable(children[1..])
  {
    forall path | path != [] && At(children[1..], path).Some?
      ensures Listable(At(children[1..], path).value, path[|path| - 1])
    {
      if path[0] == children[0].name {
        FindAbsent(children[1..], path[0]);
        assert false;
      }
      assert At(children, path) == At(children[1..], path);
    }
  }

  lemma {:induction false} ListingSucceeds(children: seq<Child>, at: Path)
    requires WellFormed(children)
    ensures Listing(children, at).Ok? <==> AllListable(children)
    decreases children
  {
    if children == [] {
      assert forall path: Path :: path != [] ==> At(children, path) == None;
    } else {
      var c := children[0];
      WellFormedTail(children);
      ListingSucceeds(children[1..], at);
      if c.node.Directory? {
        ListingSucceeds(c.node.children, at + [c.name]);
      }
      if AllListable(children) {
        HeadIsListable(children);
        TailIsListable(children);
      } else {
        var path :| path != [] && At(children, path).Some? && !Listable(At(children, path).value, path[|path| - 1]);
        if path[0] != c.name {
          assert At(children[1..], path) == At(children, path);
        } else if |path| > 1 {
          assert At(c.node.children, path[1..]) == At(children, path);
          assert path[1..][|path[1..]| - 1] == path[|path| - 1];
        }
      }
    }
  }

  /** What in the tree a refusal is about. */
  ghost predicate Offends(children: seq<Child>, path: Path, error: BackupError) {
    && path != []
    && match At(children, path)
       case Some(Symlink) => error == HasSymlink
       case Some(Regular(_)) => error == PrivateMaterial && Private(path[|path| - 1]) && !Excluded(path[|path| - 1])
       case _ => false
  }

  /** A listing that fails names what it found: a symbolic link, or a file that looks like key material. */
  lemma {:induction false} ListingError(children: seq<Child>, at: Path) returns (path: Path)
    requires WellFormed(children) && Listing(children, at).Err?
    ensures Offends(children, path, Listing(children, at).error)
    decreases children
  {
    var c := children[0];
    WellFormedTail(children);
    if EntryListing(c, at).Err? {
      path := [c.name];
      assert At(children, path) == Some(c.node);
      if c.node.Directory? {
        var inner := ListingError(c.node.children, at + [c.name]);
        path := [c.name] + inner;
        assert path[1..] == inner && path[|path| - 1] == inner[|inner| - 1];
        assert At(children, path) == At(c.node.children, inner);
      }
    } else {
      path := ListingError(children[1..], at);
      if path[0] == c.name {
        FindAbsent(children[1..], path[0]);
        assert false;
      }
      assert At(children, path) == At(children[1..], path);
    }
  }

  function Prepend(front: seq<Listed>, r: Result<seq<Listed>, BackupError>): Result<seq<Listed>, BackupError> {
    match r
    case Err(error) => Err(error)
    case Ok(rest) => Ok(front + rest)
  }

  lemma PrependNothing(r: Result<seq<Listed>, BackupError>)
    ensures Prepend([], r) == r
  {
    if r.Ok? {
      assert [] + r.value == r.value;
    }
  }

  lemma PrependTwice(front: seq<Listed>, middle: seq<Listed>, r: Result<seq<Listed>, BackupError>)
    ensures Prepend(front, Prepend(middle, r)) == Prepend(front + middle, r)
  {
    if r.Ok? {
      assert front + (middle + r.value) == (front + middle) + r.value;
    }
  }

  lemma ListingFrom(children: seq<Child>, at: Path, i: nat)
    requires i < |children|
    ensures Listing(children[i..], at) ==
      match EntryListing(children[i], at)
      case Err(error) => Err(error)
      case Ok(first) => Prepend(first, Listing(children[i + 1..], at))
  {
    assert children[i..][1..] == children[i + 1..];
  }

  /** listStoreFiles: visits the entries in order and pushes files, or what a subdirectory lists. */
  method ListStoreFiles(children: seq<Child>, at: Path) returns (r: Result<seq<Listed>, BackupError>)
    ensures r == Listing(children, at)
    decreases children
  {
    var result: seq<Listed> := [];
    var i := 0;
    assert children[0..] == children;
    PrependNothing(Listing(children, at));
    while i < |children|
      invariant 0 <= i <= |children|
      invariant Listing(children, at) == Prepend(result, Listing(children[i..], at))
    {
      var c := children[i];
      ListingFrom(children, at, i);
      match c.node {
        case Symlink =>
          return Err(HasSymlink);
        case Directory(inner) =>
          var listed := ListStoreFiles(inner, at + [c.name]);
          if listed.Err? {
            return listed;
          }
          PrependTwice(result, listed.value, Listing(children[i + 1..], at));
          result := result + listed.value;
        case Regular(content) =>
          if Excluded(c.name) {
            PrependNothing(Listing(children[i + 1..], at));
          } else {
            if Private(c.name) {
              return Err(PrivateMaterial);
            }
            PrependTwice(result, [Listed(at + [c.name], content)], Listing(children[i + 1..], at));
            result := result + [Listed(at + [c.name], content)];
          }
        case Special =>
          PrependNothing(Listing(children[i + 1..], at));
      }
      i := i + 1;
    }
    assert result + [] == result;
    return Ok(result);
  }
}
