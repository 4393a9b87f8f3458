/**
 The two walks over a document, stated by positions: a position is the way down from the root by
 child indices, and document order is the order of positions.
 */
module XmlPositions {
  import opened Common
  import opened XmlTraversal

  type Position = seq<nat>

  ghost function NodeAt(n: Node, p: Position): Option<Node> {
    if p == [] then Some(n)
    else if n.Element? && p[0] < |n.children| then NodeAt(n.children[p[0]], p[1..])
    else None
  }

  ghost predicate ElementAt(n: Node, p: Position) {
    NodeAt(n, p).Some? && NodeAt(n, p).value.Element?
  }

  /** The names on the way down, each after a slash. */
  ghost function PathAt(n: Node, p: Position): string
    requires ElementAt(n, p)
  {
    "/" + n.localName + if p == [] then "" else PathAt(n.children[p[0]], p[1..])
  }

  /** A node comes before what is below it and before its later siblings with all below them. */
  ghost predicate Before(p: Position, q: Position) {
    q != [] && (p == [] || p[0] < q[0] || (p[0] == q[0] && Before(p[1..], q[1..])))
  }

  /** An element none of whose children is an element. */
  ghost predicate LeafAt(n: Node, p: Position) {
    ElementAt(n, p)
    && var e := NodeAt(n, p).value; forall i :: 0 <= i < |e.children| ==> !e.children[i].Element?
  }

  // -- Text --------------------------------------------------------------------------------

  lemma FirstCounts(ns: seq<Node>)
    requires ns != []
    ensures CountAll(ns) == 1 + CountAll(Children(ns[0])) + CountAll(ns[1..])
  {}

  lemma {:induction false} CountJoins(a: seq<Node>, b: seq<Node>)
    ensures CountAll(a + b) == CountAll(a) + CountAll(b)
    decreases |a|
  {
    if a == [] {
      assert a + b == b;
    } else {
      assert (a + b)[1..] == a[1..] + b;
      CountJoins(a[1..], b);
    }
  }

  /** The text and CDATA below a list of nodes, read off in one pass. */
  ghost function Flat(ns: seq<Node>): Units
    decreases CountAll(ns)
  {
    if ns == [] then []
    else
      FirstCounts(ns);
      match ns[0]
      case Element(_, _, children) =>
        CountJoins(children, ns[1..]);
        Flat(children + ns[1..])
      case Text(data) => data + Flat(ns[1..])
      case CData(data) => data + Flat(ns[1..])
      case Comment(_) => Flat(ns[1..])
  }

  lemma {:induction false} TextsJoin(a: seq<Node>, b: seq<Node>)
    ensures TextContentAll(a + b) == TextContentAll(a) + TextContentAll(b)
    decreases |a|
  {
    if a == [] {
      assert a + b == b;
    } else {
      assert (a + b)[1..] == a[1..] + b;
      TextsJoin(a[1..], b);
    }
  }

  lemma {:induction false} TextIsFlat(ns: seq<Node>)
    ensures TextContentAll(ns) == Flat(ns)
    decreases CountAll(ns)
  {
    if ns != [] {
      FirstCounts(ns);
      match ns[0]
      case Element(_, _, children) =>
        CountJoins(children, ns[1..]);
        TextsJoin(children, ns[1..]);
        TextIsFlat(children + ns[1..]);
      case _ => TextIsFlat(ns[1..]);
    }
  }

  /** White space and line ends of ECMAScript. */
  ghost predicate Blank(u: nat) {
    || u in {9, 10, 11, 12, 13, 32, 160, 5760, 8232, 8233, 8239, 8287, 12288, 65279}
    || 8192 <= u <= 8202
  }

  ghost predicate AllBlank(s: Units) {
    forall i :: 0 <= i < |s| ==> Blank(s[i])
  }

  ghost predicate TrimParts(s: Units, lead: Units, r: Units, tail: Units) {
    && s == lead + r + tail && AllBlank(lead) && AllBlank(tail)
    && (r != [] ==> !Blank(r[0]) && !Blank(r[|r| - 1]))
  }

  /** What is left of a text without the white space at its ends. */
  ghost predicate TrimsTo(s: Units, r: Units) {
    exists lead, tail :: TrimParts(s, lead, r, tail)
  }

  lemma {:induction false} TrimKeepsMiddle(s: Units) returns (lead: Units, tail: Units)
    ensures TrimParts(s, lead, TrimBy(s, u => IsSpaceUnit(u)), tail)
    decreases |s|
  {
    lead, tail := [], [];
    var r := TrimBy(s, u => IsSpaceUnit(u));
    if s == [] {
      assert r == [];
    } else if IsSpaceUnit(s[0]) {
      lead, tail := TrimKeepsMiddle(s[1..]);
      lead := [s[0]] + lead;
      assert s == [s[0]] + s[1..];
    } else if IsSpaceUnit(s[|s| - 1]) {
      lead, tail := TrimKeepsMiddle(s[..|s| - 1]);
      tail := tail + [s[|s| - 1]];
      assert s == s[..|s| - 1] + [s[|s| - 1]];
    } else {
      assert s == [] + s + [];
    }
  }

  // -- Leaf fields -------------------------------------------------------------------------

  /** The leaf at a position, with what comes before its path. */
  ghost predicate LeafOfPosition(n: Node, prefix: string, p: Position, leaf: Leaf) {
    && LeafAt(n, p)
    && leaf.path == prefix + PathAt(n, p)
    && leaf.elementName == NodeAt(n, p).value.localName
    && TrimsTo(Flat([NodeAt(n, p).value]), leaf.value)
  }

  ghost predicate Ordered(ps: seq<Position>) {
    forall i, j :: 0 <= i < j < |ps| ==> Before(ps[i], ps[j])
  }

  /** The leaves of a node in order, one for each position of a leaf. */
  ghost predicate LeavesByPosition(n: Node, prefix: string, leaves: seq<Leaf>, ps: seq<Position>) {
    && |ps| == |leaves| && Ordered(ps)
    && (forall k :: 0 <= k < |ps| ==> LeafOfPosition(n, prefix, ps[k], leaves[k]))
    && (forall p :: LeafAt(n, p) ==> p in ps)
  }

  /** The same for children from `i` on; the positions start with the index of the child. */
  ghost predicate ForestByPosition(cs: seq<Node>, i: nat, prefix: string, leaves: seq<Leaf>, ps: seq<Position>) {
    && |ps| == |leaves| && Ordered(ps)
    && (forall k :: 0 <= k < |ps| ==>
          ps[k] != [] && i <= ps[k][0] < |cs| && LeafOfPosition(cs[ps[k][0]], prefix, ps[k][1..], leaves[k]))
    && (forall p: Position :: p != [] && i <= p[0] < |cs| && LeafAt(cs[p[0]], p[1..]) ==> p in ps)
  }

  lemma {:induction false} NoElementsMeans(ns: seq<Node>)
    ensures ElementsOf(ns) == [] <==> forall i :: 0 <= i < |ns| ==> !ns[i].Element?
  {
    if ns != [] {
      NoElementsMeans(ns[1..]);
      assert forall i :: 0 <= i < |ns[1..]| ==> ns[1..][i] == ns[i + 1];
      assert forall i :: 0 < i < |ns| ==> ns[i] == ns[1..][i - 1];
    }
  }

  lemma OneNodeText(n: Node)
    ensures Flat([n]) == TextContent(n)
  {
    TextIsFlat([n]);
    assert TextContentAll([n]) == TextContent(n) + TextContentAll([n][1..]);
    assert TextContent(n) + [] == TextContent(n);
  }

  lemma NoElementBelow(e: Node, p: Position)
    requires LeafAt(e, []) && p != []
    ensures !ElementAt(e, p)
  {
    if p[0] < |e.children| {
      assert !e.children[p[0]].Element?;
      assert NodeAt(e, p) == NodeAt(e.children[p[0]], p[1..]);
    }
  }

  lemma LeafStands(e: Node, prefix: string) returns (ps: seq<Position>)
    requires IsLeaf(e)
    ensures LeavesByPosition(e, prefix, [LeafOf(e, prefix + "/" + e.localName)], ps)
  {
    ps := [[]];
    NoElementsMeans(e.children);
    OneNodeText(e);
    var lead, tail := TrimKeepsMiddle(TextContent(e));
    assert TrimsTo(Flat([e]), LeafOf(e, "").value);
    assert prefix + ("/" + e.localName + "") == prefix + "/" + e.localName;
    forall p | p != [] ensures !LeafAt(e, p) {
      NoElementBelow(e, p);
    }
    assert ps[0] == [];
  }

  lemma BranchStands(e: Node, prefix: string, leaves: seq<Leaf>, ps: seq<Position>)
    requires e.Element? && !IsLeaf(e)
    requires ForestByPosition(e.children, 0, prefix + "/" + e.localName, leaves, ps)
    ensures LeavesByPosition(e, prefix, leaves, ps)
  {
    NoElementsMeans(e.children);
    forall k | 0 <= k < |ps| ensures LeafOfPosition(e, prefix, ps[k], leaves[k]) {
      var c := e.children[ps[k][0]];
      assert LeafOfPosition(c, prefix + "/" + e.localName, ps[k][1..], leaves[k]);
      assert NodeAt(e, ps[k]) == NodeAt(c, ps[k][1..]);
      assert prefix + ("/" + e.localName + PathAt(c, ps[k][1..])) == prefix + "/" + e.localName + PathAt(c, ps[k][1..]);
    }
    forall p | LeafAt(e, p) ensures p in ps {
      if p != [] {
        assert NodeAt(e, p) == NodeAt(e.children[p[0]], p[1..]);
      }
    }
  }

  ghost function Below(i: nat, ps: seq<Position>): (r: seq<Position>)
    ensures |r| == |ps| && forall k :: 0 <= k < |ps| ==> r[k] == [i] + ps[k]
  {
    seq(|ps|, k requires 0 <= k < |ps| => [i] + ps[k])
  }

  /** First all below child `i`, and then all below the later children. */
  ghost predicate Joined(cs: seq<Node>, i: nat, ps: seq<Position>, qs: seq<Position>, all: seq<Position>) {
    all == Below(i, ps) + qs && forall k :: 0 <= k < |qs| ==> qs[k] != [] && i + 1 <= qs[k][0] < |cs|
  }

  lemma JoinedOrder(cs: seq<Node>, i: nat, ps: seq<Position>, qs: seq<Position>, all: seq<Position>)
    requires Joined(cs, i, ps, qs, all) && Ordered(ps) && Ordered(qs)
    ensures Ordered(all)
  {
    forall j, k | 0 <= j < k < |all| ensures Before(all[j], all[k]) {
      if k < |ps| {
        assert all[j][1..] == ps[j] && all[k][1..] == ps[k] && Before(ps[j], ps[k]);
      } else if |ps| <= j {
        assert Before(qs[j - |ps|], qs[k - |ps|]);
      }
    }
  }

  lemma JoinedAll(cs: seq<Node>, i: nat, ps: seq<Position>, qs: seq<Position>, all: seq<Position>, p: Position)
    requires i < |cs| && Joined(cs, i, ps, qs, all) && p != []
    requires if p[0] == i then p[1..] in ps else p in qs
    ensures p in all
  {
    if p[0] == i {
      var k :| 0 <= k < |ps| && ps[k] == p[1..];
      assert all[k] == [i] + ps[k] == p;
    } else {
      var k :| 0 <= k < |qs| && qs[k] == p;
      assert all[|ps| + k] == p;
    }
  }

  lemma ForestJoins(cs: seq<Node>, i: nat, prefix: string, first: seq<Leaf>, ps: seq<Position>, rest: seq<Leaf>,
                    qs: seq<Position>)
    requires i < |cs| && LeavesByPosition(cs[i], prefix, first, ps) && ForestByPosition(cs, i + 1, prefix, rest, qs)
    ensures ForestByPosition(cs, i, prefix, first + rest, Below(i, ps) + qs)
  {
    var all, leaves := Below(i, ps) + qs, first + rest;
    assert Joined(cs, i, ps, qs, all);
    JoinedOrder(cs, i, ps, qs, all);
    forall k | 0 <= k < |all|
      ensures all[k] != [] && i <= all[k][0] < |cs| && LeafOfPosition(cs[all[k][0]], prefix, all[k][1..], leaves[k])
    {
      if k < |ps| {
        assert all[k][1..] == ps[k] && LeafOfPosition(cs[i], prefix, ps[k], first[k]);
      } else {
        assert all[k] == qs[k - |ps|] && leaves[k] == rest[k - |ps|];
      }
    }
    forall p: Position | p != [] && i <= p[0] < |cs| && LeafAt(cs[p[0]], p[1..]) ensures p in all {
      JoinedAll(cs, i, ps, qs, all, p);
    }
  }

  lemma ForestSkips(cs: seq<Node>, i: nat, prefix: string, leaves: seq<Leaf>, ps: seq<Position>)
    requires i < |cs| && !cs[i].Element? && ForestByPosition(cs, i + 1, prefix, leaves, ps)
    ensures ForestByPosition(cs, i, prefix, leaves, ps)
  {
    forall p: Position | p != [] && i <= p[0] < |cs| && LeafAt(cs[p[0]], p[1..]) ensures p in ps {
      assert NodeAt(cs[i], p[1..]).Some? ==> p[1..] == [];
    }
  }

  lemma {:induction false} TreeStands(e: Node, prefix: string) returns (ps: seq<Position>)
    requires e.Element?
    ensures LeavesByPosition(e, prefix, Leaves(e, prefix + "/" + e.localName), ps)
    decreases e, |Children(e)| + 1
  {
    if IsLeaf(e) {
      ps := LeafStands(e, prefix);
    } else {
      ps := ForestStands(e, 0, prefix + "/" + e.localName);
      assert e.children[0..] == e.children;
      BranchStands(e, prefix, Leaves(e, prefix + "/" + e.localName), ps);
    }
  }

  lemma {:induction false} ForestStands(parent: Node, i: nat, prefix: string) returns (ps: seq<Position>)
    requires parent.Element? && i <= |parent.children|
    ensures ForestByPosition(parent.children, i, prefix, LeavesOfAll(parent.children[i..], prefix), ps)
    decreases parent, |Children(parent)| - i
  {
    var cs := parent.children;
    if i == |cs| {
      ps := [];
    } else {
      assert cs[i..][1..] == cs[i + 1..];
      var rest := ForestStands(parent, i + 1, prefix);
      if cs[i].Element? {
        var first := TreeStands(cs[i], prefix);
        ForestJoins(cs, i, prefix, Leaves(cs[i], prefix + "/" + cs[i].localName), first,
                    LeavesOfAll(cs[i + 1..], prefix), rest);
        ps := Below(i, first) + rest;
      } else {
        ForestSkips(cs, i, prefix, LeavesOfAll(cs[i + 1..], prefix), rest);
        ps := rest;
      }
    }
  }

  /** The field at a position, with its place in the list. */
  ghost predicate FieldOfPosition(root: Node, p: Position, field: Field, order: nat) {
    && LeafAt(root, p) && field.path == PathAt(root, p) && field.order == order
    && field.elementName == NodeAt(root, p).value.localName
    && TrimsTo(Flat([NodeAt(root, p).value]), field.value)
  }

  /**
   The collected fields are those of the elements without child elements, each once, in document order:
   the names on the way down, the own name, the trimmed text, and the place in the list.
   */
  lemma FieldsByPosition(root: Node) returns (ps: seq<Position>)
    requires root.Element?
    ensures
      var fields := Numbered(Leaves(root, "/" + root.localName));
      && |ps| == |fields| && Ordered(ps)
      && (forall k :: 0 <= k < |ps| ==> FieldOfPosition(root, ps[k], fields[k], k))
      && (forall p :: LeafAt(root, p) <==> p in ps)
  {
    assert "" + "/" + root.localName == "/" + root.localName;
    ps := TreeStands(root, "");
    var leaves := Leaves(root, "/" + root.localName);
    forall k | 0 <= k < |ps| ensures FieldOfPosition(root, ps[k], Numbered(leaves)[k], k) {
      assert LeafOfPosition(root, "", ps[k], leaves[k]);
      assert "" + PathAt(root, ps[k]) == PathAt(root, ps[k]);
    }
  }

  // -- Bounds ------------------------------------------------------------------------------

  ghost function WorkSize(work: seq<Item>): nat {
    if work == [] then 0 else NodeCount(work[0].node) + WorkSize(work[1..])
  }

  ghost function Deeper(ns: seq<Node>, depth: nat): (r: seq<Item>)
    ensures |r| == |ns| && forall i :: 0 <= i < |ns| ==> r[i] == Item(ns[i], depth)
  {
    seq(|ns|, i requires 0 <= i < |ns| => Item(ns[i], depth))
  }

  lemma {:induction false} WorkJoins(a: seq<Item>, b: seq<Item>)
    ensures WorkSize(a + b) == WorkSize(a) + WorkSize(b)
    decreases |a|
  {
    if a == [] {
      assert a + b == b;
    } else {
      assert (a + b)[1..] == a[1..] + b;
      WorkJoins(a[1..], b);
    }
  }

  lemma {:induction false} DeeperSize(ns: seq<Node>, depth: nat)
    ensures WorkSize(Deeper(ns, depth)) == CountAll(ns)
  {
    if ns != [] {
      assert Deeper(ns, depth)[1..] == Deeper(ns[1..], depth);
      DeeperSize(ns[1..], depth);
    }
  }

  /** A list of nodes and all below them, in document order, each with its depth. */
  ghost function Visited(work: seq<Item>): seq<Item>
    decreases WorkSize(work)
  {
    if work == [] then []
    else
      var below := Deeper(Children(work[0].node), work[0].depth + 1);
      WorkJoins(below, work[1..]);
      DeeperSize(Children(work[0].node), work[0].depth + 1);
      [work[0]] + Visited(below + work[1..])
  }

  /** What the walk does with a list of nodes. */
  ghost function WalkList(work: seq<Item>, allowed: set<string>, c: Counters): Result<Counters, XmlError> {
    if work == [] then Ok(c)
    else match Walk(work[0].node, work[0].depth, allowed, c)
      case Err(error) => Err(error)
      case Ok(after) => WalkList(work[1..], allowed, after)
  }

  ghost function Scan(items: seq<Item>, allowed: set<string>, c: Counters): Result<Counters, XmlError> {
    if items == [] then Ok(c)
    else match Enter(items[0].node, items[0].depth, allowed, c)
      case Err(error) => Err(error)
      case Ok(after) => Scan(items[1..], allowed, after)
  }

  lemma {:induction false} ChildrenWalk(ns: seq<Node>, depth: nat, rest: seq<Item>, allowed: set<string>, c: Counters)
    ensures WalkList(Deeper(ns, depth) + rest, allowed, c) ==
            match WalkAll(ns, depth, allowed, c)
            case Err(error) => Err(error)
            case Ok(after) => WalkList(rest, allowed, after)
    decreases |ns|
  {
    if ns == [] {
      assert Deeper(ns, depth) + rest == rest;
    } else {
      assert (Deeper(ns, depth) + rest)[1..] == Deeper(ns[1..], depth) + rest;
      var first := Walk(ns[0], depth, allowed, c);
      if first.Ok? {
        ChildrenWalk(ns[1..], depth, rest, allowed, first.value);
      }
    }
  }

  lemma {:induction false} WalkIsScan(work: seq<Item>, allowed: set<string>, c: Counters)
    ensures WalkList(work, allowed, c) == Scan(Visited(work), allowed, c)
    decreases WorkSize(work)
  {
    if work != [] {
      var node, depth := work[0].node, work[0].depth;
      var below := Deeper(Children(node), depth + 1);
      WorkJoins(below, work[1..]);
      DeeperSize(Children(node), depth + 1);
      assert Visited(work)[1..] == Visited(below + work[1..]);
      var entered := Enter(node, depth, allowed, c);
      if entered.Ok? {
        ChildrenWalk(Children(node), depth + 1, work[1..], allowed, entered.value);
        WalkIsScan(below + work[1..], allowed, entered.value);
      }
    }
  }

  ghost function TextSum(items: seq<Item>): nat {
    if items == [] then 0
    else
      var last := items[|items| - 1].node;
      TextSum(items[..|items| - 1]) + (if last.Text? then |last.data| else 0)
  }

  /** One node within the limits that concern it alone. */
  ghost predicate Harmless(item: Item, allowed: set<string>) {
    && item.depth <= 64
    && (item.node.Element? ==>
          && item.node.namespace in allowed
          && (item.depth > 1 ==>
                item.node.localName != "FacturaElectronica" && item.node.localName != "TiqueteElectronico"))
    && (item.node.Text? ==> |item.node.data| <= 20000)
  }

  /** The first `n` nodes are within every limit. */
  ghost predicate Within(items: seq<Item>, allowed: set<string>, n: nat)
    requires n <= |items|
  {
    n <= 50000 && TextSum(items[..n]) <= 1500000 && forall i :: 0 <= i < n ==> Harmless(items[i], allowed)
  }

  /** The first node out of bounds is an element of a foreign namespace, and neither too deep nor one too many. */
  ghost predicate ForeignAt(items: seq<Item>, allowed: set<string>, n: nat) {
    && n < |items| && Within(items, allowed, n) && n + 1 <= 50000
    && items[n].depth <= 64 && items[n].node.Element? && items[n].node.namespace !in allowed
  }

  lemma TextGrows(items: seq<Item>, n: nat)
    requires n < |items|
    ensures TextSum(items[..n + 1])
         == TextSum(items[..n]) + if items[n].node.Text? then |items[n].node.data| else 0
  {
    assert items[..n + 1][..n] == items[..n];
  }

  lemma {:induction false} TextOnlyGrows(items: seq<Item>, m: nat, n: nat)
    requires m <= n <= |items|
    ensures TextSum(items[..m]) <= TextSum(items[..n])
    decreases n
  {
    if m < n {
      TextGrows(items, n - 1);
      TextOnlyGrows(items, m, n - 1);
    }
  }

  lemma OneMore(items: seq<Item>, allowed: set<string>, n: nat)
    requires n < |items| && Within(items, allowed, n)
    ensures
      var entered := Enter(items[n].node, items[n].depth, allowed, Counters(n, TextSum(items[..n])));
      && (entered.Ok? <==> Within(items, allowed, n + 1))
      && (entered.Ok? ==> entered.value == Counters(n + 1, TextSum(items[..n + 1])))
      && (entered == Err(NamespaceInvalid) <==> ForeignAt(items, allowed, n))
  {
    TextGrows(items, n);
  }

  lemma WithinIsPrefix(items: seq<Item>, allowed: set<string>, m: nat, n: nat)
    requires m <= n <= |items| && Within(items, allowed, n)
    ensures Within(items, allowed, m)
  {
    TextOnlyGrows(items, m, n);
  }

  lemma {:induction false} ScanMeaning(items: seq<Item>, allowed: set<string>, n: nat)
    requires n <= |items| && Within(items, allowed, n)
    ensures
      var r := Scan(items[n..], allowed, Counters(n, TextSum(items[..n])));
      && (r.Ok? <==> Within(items, allowed, |items|))
      && (r == Err(NamespaceInvalid) <==> exists k :: n <= k < |items| && ForeignAt(items, allowed, k))
    decreases |items| - n
  {
    if n == |items| {
    } else {
      OneMore(items, allowed, n);
      assert items[n..][1..] == items[n + 1..];
      if Within(items, allowed, n + 1) {
        ScanMeaning(items, allowed, n + 1);
      } else {
        forall k | n < k <= |items| ensures !Within(items, allowed, k) {
          if Within(items, allowed, k) {
            WithinIsPrefix(items, allowed, n + 1, k);
          }
        }
      }
    }
  }

  /**
   A document passes exactly if all its nodes are within the limits, and is refused for its namespaces
   exactly if the first node out of bounds, in document order, has a foreign one.
   */
  lemma BoundsByPosition(root: Node, allowed: set<string>)
    ensures
      var items := Visited([Item(root, 1)]);
      var r := Walk(root, 1, allowed, Counters(0, 0));
      && (r.Ok? <==> Within(items, allowed, |items|))
      && (r == Err(NamespaceInvalid) <==> exists k :: 0 <= k < |items| && ForeignAt(items, allowed, k))
  {
    var items := Visited([Item(root, 1)]);
    assert WalkList([Item(root, 1)][1..], allowed, Counters(0, 0)) == Ok(Counters(0, 0));
    WalkIsScan([Item(root, 1)], allowed, Counters(0, 0));
    assert items[..0] == [] && items[0..] == items;
    ScanMeaning(items, allowed, 0);
  }
}
