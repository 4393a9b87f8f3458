/** POSIX paths: normal absolute paths as lists of segments, and the text forms resolve and relative work on. */
module PathText {
  type Path = seq<string>

  /** A segment of a normal path. */
  predicate CleanSegment(s: string) {
    s != "" && s != "." && s != ".." && '/' !in s
  }

  predicate Clean(p: Path) {
    forall i :: 0 <= i < |p| ==> CleanSegment(p[i])
  }

  function Split(text: string): (segments: seq<string>)
    ensures segments != []
  {
    if text == "" then [""]
    else
      var rest := Split(text[1..]);
      if text[0] == '/' then [""] + rest else [[text[0]] + rest[0]] + rest[1..]
  }

  function Join(segments: seq<string>): string {
    if segments == [] then ""
    else if |segments| == 1 then segments[0]
    else segments[0] + "/" + Join(segments[1..])
  }

  lemma {:induction false} SplitSegment(s: string)
    requires '/' !in s
    ensures Split(s) == [s]
  {
    if s == "" {
    } else {
      SplitSegment(s[1..]);
      assert [s[0]] + s[1..] == s;
    }
  }

  lemma {:induction false} SplitAtSlash(s: string, rest: string)
    requires '/' !in s
    ensures Split(s + "/" + rest) == [s] + Split(rest)
  {
    var text := s + "/" + rest;
    if s == "" {
      assert text[1..] == rest;
    } else {
      assert text[1..] == s[1..] + "/" + rest;
      SplitAtSlash(s[1..], rest);
      assert [s[0]] + s[1..] == s;
    }
  }

  lemma {:induction false} SplitJoin(segments: seq<string>)
    requires segments != [] && forall i :: 0 <= i < |segments| ==> '/' !in segments[i]
    ensures Split(Join(segments)) == segments
  {
    if |segments| == 1 {
      SplitSegment(segments[0]);
    } else {
      SplitJoin(segments[1..]);
      SplitAtSlash(segments[0], Join(segments[1..]));
    }
  }

  lemma JoinIsInjective(p: Path, q: Path)
    requires p != [] && q != [] && Clean(p) && Clean(q) && Join(p) == Join(q)
    ensures p == q
  {
    SplitJoin(p);
    SplitJoin(q);
  }

  function Walk(from: Path, segments: seq<string>): Path
    decreases |segments|
  {
    if segments == [] then from
    else
      var s := segments[0];
      var next :=
        if s == "" || s == "." then from
        else if s == ".." then (if from == [] then [] else from[..|from| - 1])
        else from + [s];
      Walk(next, segments[1..])
  }

  /** path.resolve(from, text), for a relative text. */
  function Resolve(from: Path, text: string): Path {
    Walk(from, Split(text))
  }

  function CommonLength(p: Path, q: Path): (k: nat)
    ensures k <= |p| && k <= |q|
  {
    if p == [] || q == [] || p[0] != q[0] then 0 else 1 + CommonLength(p[1..], q[1..])
  }

  function Ups(k: nat): seq<string> {
    if k == 0 then [] else [".."] + Ups(k - 1)
  }

  /** path.relative(from, to), as text. */
  function Relative(from: Path, to: Path): string {
    var k := CommonLength(from, to);
    Join(Ups(|from| - k) + to[k..])
  }

  predicate StartsWithDots(text: string) {
    |text| >= 2 && text[0] == '.' && text[1] == '.'
  }

  predicate IsAbsolute(text: string) {
    text != "" && text[0] == '/'
  }

  /** The test both guards use: does the relation stay inside? */
  predicate StaysInside(relation: string) {
    !StartsWithDots(relation) && !IsAbsolute(relation)
  }

  lemma {:induction false} CommonOfPrefix(p: Path, q: Path)
    ensures CommonLength(p, q) == |p| <==> p <= q
  {
    if p != [] && q != [] && p[0] == q[0] {
      CommonOfPrefix(p[1..], q[1..]);
      assert p == [p[0]] + p[1..] && q == [q[0]] + q[1..];
    }
  }

  lemma {:induction false} WalkStaysClean(from: Path, segments: seq<string>)
    requires Clean(from) && forall i :: 0 <= i < |segments| ==> '/' !in segments[i]
    ensures Clean(Walk(from, segments))
    decreases |segments|
  {
    if segments == [] {
    } else {
      var s := segments[0];
      var next :=
        if s == "" || s == "." then from
        else if s == ".." then (if from == [] then [] else from[..|from| - 1])
        else from + [s];
      assert Clean(next);
      WalkStaysClean(next, segments[1..]);
    }
  }

  lemma {:induction false} SplitHasNoSlash(text: string)
    ensures forall i :: 0 <= i < |Split(text)| ==> '/' !in Split(text)[i]
  {
    if text == "" {
    } else {
      SplitHasNoSlash(text[1..]);
    }
  }

  lemma ResolveIsClean(from: Path, text: string)
    requires Clean(from)
    ensures Clean(Resolve(from, text))
  {
    SplitHasNoSlash(text);
    WalkStaysClean(from, Split(text));
  }

  lemma {:induction false} WalkAppends(from: Path, segments: seq<string>)
    requires Clean(segments)
    ensures Walk(from, segments) == from + segments
    decreases |segments|
  {
    if segments == [] {
    } else {
      WalkAppends(from + [segments[0]], segments[1..]);
      assert from + [segments[0]] + segments[1..] == from + segments;
    }
  }

  /** A normal relative path resolves to itself, below the root. */
  lemma ResolveAppends(from: Path, p: Path)
    requires p != [] && Clean(p)
    ensures Resolve(from, Join(p)) == from + p
  {
    SplitJoin(p);
    WalkAppends(from, p);
  }

  lemma JoinedStart(segments: seq<string>)
    requires segments != [] && segments[0] != "" && '/' !in segments[0]
    ensures Join(segments) != "" && !IsAbsolute(Join(segments))
    ensures StartsWithDots(Join(segments)) <==> StartsWithDots(segments[0])
  {
    assert segments[0][0] != '/';
    if |segments| > 1 {
      var text := Join(segments);
      assert text[..|segments[0]|] == segments[0];
      assert text[|segments[0]|] == '/';
    }
  }

  /** What a relation says about two normal paths. */
  lemma RelationMeaning(from: Path, to: Path)
    requires Clean(from) && Clean(to)
    ensures Relative(from, to) == "" <==> from == to
    ensures from != to ==>
              (StaysInside(Relative(from, to)) <==> from < to && !(".." <= to[|from|]))
  {
    CommonOfPrefix(from, to);
    var k := CommonLength(from, to);
    var segments := Ups(|from| - k) + to[k..];
    if k == |from| {
      if from != to {
        JoinedStart(segments);
      }
    } else {
      assert segments[0] == "..";
      JoinedStart(segments);
    }
  }

  // -- Laws of resolution ------------------------------------------------------------------

  lemma {:induction false} WalkOn(from: Path, first: seq<string>, second: seq<string>)
    ensures Walk(from, first + second) == Walk(Walk(from, first), second)
    decreases |first|
  {
    if first == [] {
      assert first + second == second;
    } else {
      assert (first + second)[1..] == first[1..] + second;
      var s := first[0];
      var next :=
        if s == "" || s == "." then from
        else if s == ".." then (if from == [] then [] else from[..|from| - 1])
        else from + [s];
      WalkOn(next, first[1..], second);
    }
  }

  lemma {:induction false} SplitTwo(a: string, b: string)
    ensures Split(a + "/" + b) == Split(a) + Split(b)
    decreases |a|
  {
    var text := a + "/" + b;
    if a == "" {
      assert text[1..] == b;
    } else {
      assert text[1..] == a[1..] + "/" + b;
      SplitTwo(a[1..], b);
    }
  }

  lemma OneStep(from: Path, s: string)
    requires '/' !in s
    ensures Resolve(from, s) ==
      if s == "" || s == "." then from
      else if s == ".." then (if from == [] then [] else from[..|from| - 1])
      else from + [s]
  {
    SplitSegment(s);
    var next :=
      if s == "" || s == "." then from
      else if s == ".." then (if from == [] then [] else from[..|from| - 1])
      else from + [s];
    assert [s][1..] == [] && Walk(next, []) == next;
    assert Walk(from, [s]) == Walk(next, [s][1..]);
  }

  /** A text is resolved step by step: a slash joins two steps, and each step is one of four kinds. */
  lemma ResolutionLaws(from: Path, a: string, b: string, segment: string)
    ensures Resolve(from, a + "/" + b) == Resolve(Resolve(from, a), b)
    ensures Resolve(from, "") == from && Resolve(from, ".") == from
    ensures Resolve(from, "..") == if from == [] then [] else from[..|from| - 1]
    ensures CleanSegment(segment) ==> Resolve(from, segment) == from + [segment]
  {
    SplitTwo(a, b);
    WalkOn(from, Split(a), Split(b));
    OneStep(from, "");
    OneStep(from, ".");
    OneStep(from, "..");
    assert ".."[0] == '.' && |".."| == 2;
    if CleanSegment(segment) {
      OneStep(from, segment);
    }
  }

  lemma {:induction false} CommonIsPrefix(p: Path, q: Path)
    ensures var k := CommonLength(p, q); p[..k] == q[..k]
  {
    if p != [] && q != [] && p[0] == q[0] {
      CommonIsPrefix(p[1..], q[1..]);
      var k := CommonLength(p[1..], q[1..]);
      assert p[..k + 1] == [p[0]] + p[1..][..k] && q[..k + 1] == [q[0]] + q[1..][..k];
    }
  }

  lemma {:induction false} WalkUp(from: Path, k: nat)
    requires k <= |from|
    ensures Walk(from, Ups(k)) == from[..|from| - k]
    decreases k
  {
    if k > 0 {
      WalkUp(from[..|from| - 1], k - 1);
    }
  }

  lemma {:induction false} UpsHaveNoSlash(k: nat)
    ensures forall i :: 0 <= i < |Ups(k)| ==> '/' !in Ups(k)[i]
  {
    if k > 0 {
      UpsHaveNoSlash(k - 1);
    }
  }

  lemma WalkDown(from: Path, to: Path, k: nat)
    requires Clean(to) && k <= |from| && k <= |to| && from[..k] == to[..k]
    ensures Walk(from, Ups(|from| - k) + to[k..]) == to
  {
    WalkUp(from, |from| - k);
    WalkOn(from, Ups(|from| - k), to[k..]);
    WalkAppends(from[..k], to[k..]);
    assert from[..k] + to[k..] == to;
  }

  /** The relation of two paths leads from the one to the other. */
  lemma RelativeResolves(from: Path, to: Path)
    requires Clean(from) && Clean(to)
    ensures Resolve(from, Relative(from, to)) == to
  {
    var k := CommonLength(from, to);
    var segments := Ups(|from| - k) + to[k..];
    CommonIsPrefix(from, to);
    WalkDown(from, to, k);
    if segments == [] {
      OneStep(from, "");
    } else {
      UpsHaveNoSlash(|from| - k);
      SplitJoin(segments);
    }
  }
}
