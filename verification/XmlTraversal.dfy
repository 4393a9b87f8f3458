/** The two stack-based walks over a parsed XML document, against their recursive meaning. */
module XmlTraversal {
  import opened Common

  const MAX_DEPTH: nat := 64
  const MAX_NODES: nat := 50000
  const MAX_TEXT_NODE_CHARS: nat := 20000
  const MAX_TOTAL_TEXT_CHARS: nat := 1500000

  const INVOICE_ROOT := "FacturaElectronica"
  const TICKET_ROOT := "TiqueteElectronico"

  /** UTF-16 code units. */
  type Units = seq<nat>

  /** Only elements have children; of the others, text and CDATA are part of the text content. */
  datatype Node =
    | Element(localName: string, namespace: string, children: seq<Node>)
    | Text(data: Units)
    | CData(data: Units)
    | Comment(data: Units)

  datatype XmlError = SecurityRejected | NamespaceInvalid

  datatype Counters = Counters(nodes: nat, text: nat)

  function Children(n: Node): seq<Node> {
    if n.Element? then n.children else []
  }

  // -- The bounds, recursively -------------------------------------------------------------

  predicate IsRootName(name: string) {
    name == INVOICE_ROOT || name == TICKET_ROOT
  }

  /** The checks made when a node is reached. */
  function Enter(n: Node, depth: nat, allowed: set<string>, c: Counters): Result<Counters, XmlError> {
    if c.nodes + 1 > MAX_NODES || depth > MAX_DEPTH then Err(SecurityRejected)
    else if n.Element? && n.namespace !in allowed then Err(NamespaceInvalid)
    else if depth > 1 && n.Element? && IsRootName(n.localName) then Err(SecurityRejected)
    else if n.Text? && (|n.data| > MAX_TEXT_NODE_CHARS || c.text + |n.data| > MAX_TOTAL_TEXT_CHARS)
    then Err(SecurityRejected)
    else Ok(Counters(c.nodes + 1, c.text + if n.Text? then |n.data| else 0))
  }

  /** A node and everything below it, in document order, up to the first violation. */
  function Walk(n: Node, depth: nat, allowed: set<string>, c: Counters): Result<Counters, XmlError>
    decreases n
  {
    match Enter(n, depth, allowed, c)
    case Err(error) => Err(error)
    case Ok(after) => if n.Element? then WalkAll(n.children, depth + 1, allowed, after) else Ok(after)
  }

  function WalkAll(ns: seq<Node>, depth: nat, allowed: set<string>, c: Counters): Result<Counters, XmlError>
    decreases ns
  {
    if ns == [] then Ok(c)
    else match Walk(ns[0], depth, allowed, c)
      case Err(error) => Err(error)
      case Ok(after) => WalkAll(ns[1..], depth, allowed, after)
  }

  // -- The bounds, as limits ---------------------------------------------------------------

  function NodeCount(n: Node): nat
    decreases n
  {
    1 + if n.Element? then CountAll(n.children) else 0
  }

  function CountAll(ns: seq<Node>): nat
    decreases ns
  {
    if ns == [] then 0 else NodeCount(ns[0]) + CountAll(ns[1..])
  }

  function TextLength(n: Node): nat
    decreases n
  {
    match n
    case Element(_, _, children) => TextLengthAll(children)
    case Text(data) => |data|
    case _ => 0
  }

  function TextLengthAll(ns: seq<Node>): nat
    decreases ns
  {
    if ns == [] then 0 else TextLength(ns[0]) + TextLengthAll(ns[1..])
  }

  /** What every node has to satisfy on its own, at its depth. */
  predicate NodeAllowed(n: Node, depth: nat, allowed: set<string>) {
    && depth <= MAX_DEPTH
    && (n.Element? ==> n.namespace in allowed && (depth > 1 ==> !IsRootName(n.localName)))
    && (n.Text? ==> |n.data| <= MAX_TEXT_NODE_CHARS)
  }

  predicate AllNodesAllowed(n: Node, depth: nat, allowed: set<string>)
    decreases n
  {
    && NodeAllowed(n, depth, allowed)
    && (n.Element? ==> forall i :: 0 <= i < |n.children| ==> AllNodesAllowed(n.children[i], depth + 1, allowed))
  }

  lemma {:induction false} WalkMeaning(n: Node, depth: nat, allowed: set<string>, c: Counters)
    requires c.nodes <= MAX_NODES && c.text <= MAX_TOTAL_TEXT_CHARS
    ensures Walk(n, depth, allowed, c).Ok? <==>
              && AllNodesAllowed(n, depth, allowed)
              && c.nodes + NodeCount(n) <= MAX_NODES && c.text + TextLength(n) <= MAX_TOTAL_TEXT_CHARS
    ensures Walk(n, depth, allowed, c).Ok? ==>
              Walk(n, depth, allowed, c).value == Counters(c.nodes + NodeCount(n), c.text + TextLength(n))
    decreases n
  {
    if Enter(n, depth, allowed, c).Ok? && n.Element? {
      WalkAllMeaning(n.children, depth + 1, allowed, Enter(n, depth, allowed, c).value);
    }
  }

  lemma {:induction false} WalkAllMeaning(ns: seq<Node>, depth: nat, allowed: set<string>, c: Counters)
    requires c.nodes <= MAX_NODES && c.text <= MAX_TOTAL_TEXT_CHARS
    ensures WalkAll(ns, depth, allowed, c).Ok? <==>
              && (forall i :: 0 <= i < |ns| ==> AllNodesAllowed(ns[i], depth, allowed))
              && c.nodes + CountAll(ns) <= MAX_NODES && c.text + TextLengthAll(ns) <= MAX_TOTAL_TEXT_CHARS
    ensures WalkAll(ns, depth, allowed, c).Ok? ==>
              WalkAll(ns, depth, allowed, c).value == Counters(c.nodes + CountAll(ns), c.text + TextLengthAll(ns))
    decreases ns
  {
    if ns == [] {
    } else {
      WalkMeaning(ns[0], depth, allowed, c);
      if Walk(ns[0], depth, allowed, c).Ok? {
        WalkAllMeaning(ns[1..], depth, allowed, Walk(ns[0], depth, allowed, c).value);
        assert (forall i :: 0 <= i < |ns| ==> AllNodesAllowed(ns[i], depth, allowed)) <==>
          AllNodesAllowed(ns[0], depth, allowed) && forall i :: 0 <= i < |ns[1..]| ==>
              AllNodesAllowed(ns[1..][i], depth, allowed);
      }
    }
  }

  /** A document is accepted exactly when it meets every limit. */
  lemma BoundsMeaning(root: Node, allowed: set<string>)
    ensures Walk(root, 1, allowed, Counters(0, 0)).Ok? <==>
              && AllNodesAllowed(root, 1, allowed)
              && NodeCount(root) <= MAX_NODES
              && TextLength(root) <= MAX_TOTAL_TEXT_CHARS
  {
    WalkMeaning(root, 1, allowed, Counters(0, 0));
  }

  // -- The bounds, with a work stack -------------------------------------------------------

  datatype Item = Item(node: Node, depth: nat)

  /** What remains to be done: the stack from its top down. */
  function WalkStack(stack: seq<Item>, allowed: set<string>, c: Counters): Result<Counters, XmlError> {
    if stack == [] then Ok(c)
    else
      var top := stack[|stack| - 1];
      match Walk(top.node, top.depth, allowed, c)
      case Err(error) => Err(error)
      case Ok(after) => WalkStack(stack[..|stack| - 1], allowed, after)
  }

  function StackSize(stack: seq<Item>): nat {
    if stack == [] then 0 else NodeCount(stack[|stack| - 1].node) + StackSize(stack[..|stack| - 1])
  }

  /** Children from `i` on, pushed from the last to the first. */
  function Pushed(children: seq<Node>, i: nat, depth: nat): seq<Item>
    requires i <= |children|
    decreases |children| - i
  {
    if i == |children| then [] else Pushed(children, i + 1, depth) + [Item(children[i], depth)]
  }

  lemma {:induction false} PushedWalk(rest: seq<Item>, children: seq<Node>, i: nat, depth: nat,
      allowed: set<string>, c: Counters)
    requires i <= |children|
    ensures WalkStack(rest + Pushed(children, i, depth), allowed, c) ==
      match WalkAll(children[i..], depth, allowed, c)
      case Err(error) => Err(error)
      case Ok(after) => WalkStack(rest, allowed, after)
    decreases |children| - i
  {
    if i == |children| {
      assert rest + Pushed(children, i, depth) == rest;
    } else {
      var stack := rest + Pushed(children, i, depth);
      assert stack[..|stack| - 1] == rest + Pushed(children, i + 1, depth);
      assert children[i..][1..] == children[i + 1..];
      var first := Walk(children[i], depth, allowed, c);
      if first.Ok? {
        PushedWalk(rest, children, i + 1, depth, allowed, first.value);
      }
    }
  }

  lemma {:induction false} PushedSize(rest: seq<Item>, children: seq<Node>, i: nat, depth: nat)
    requires i <= |children|
    ensures StackSize(rest + Pushed(children, i, depth)) == StackSize(rest) + CountAll(children[i..])
    decreases |children| - i
  {
    if i == |children| {
      assert rest + Pushed(children, i, depth) == rest;
    } else {
      var stack := rest + Pushed(children, i, depth);
      assert stack[..|stack| - 1] == rest + Pushed(children, i + 1, depth);
      assert children[i..][1..] == children[i + 1..];
      PushedSize(rest, children, i + 1, depth);
    }
  }

  method PushChildren(stack: seq<Item>, children: seq<Node>, depth: nat) returns (r: seq<Item>)
    ensures r == stack + Pushed(children, 0, depth)
  {
    r := stack;
    var i := |children|;
    while i > 0
      invariant 0 <= i <= |children|
      invariant r == stack + Pushed(children, i, depth)
    {
      i := i - 1;
      r := r + [Item(children[i], depth)];
    }
  }

  /** assertBounds: accepts or rejects as the recursive walk does, with the same first error. */
  method AssertBounds(root: Node, allowed: set<string>) returns (failure: Option<XmlError>)
    ensures
      match Walk(root, 1, allowed, Counters(0, 0))
      case Err(error) => failure == Some(error)
      case Ok(_) => failure == None
  {
    var queue := [Item(root, 1)];
    var nodes: nat, allText: nat := 0, 0;
    assert queue[..0] == [];
    while queue != []
      invariant WalkStack(queue, allowed, Counters(nodes, allText)) == Walk(root, 1, allowed, Counters(0, 0))
      decreases StackSize(queue)
    {
      var node, depth := queue[|queue| - 1].node, queue[|queue| - 1].depth;
      ghost var entered := Enter(node, depth, allowed, Counters(nodes, allText));
      ghost var rest := queue[..|queue| - 1];
      queue := queue[..|queue| - 1];
      nodes := nodes + 1;
      if nodes > MAX_NODES || depth > MAX_DEPTH {
        return Some(SecurityRejected);
      }
      if node.Element? && node.namespace !in allowed {
        return Some(NamespaceInvalid);
      }
      if depth > 1 && node.Element? && (node.localName == INVOICE_ROOT || node.localName == TICKET_ROOT) {
        return Some(SecurityRejected);
      }
      if node.Text? {
        if |node.data| > MAX_TEXT_NODE_CHARS {
          return Some(SecurityRejected);
        }
        allText := allText + |node.data|;
        if allText > MAX_TOTAL_TEXT_CHARS {
          return Some(SecurityRejected);
        }
      }
      assert entered == Ok(Counters(nodes, allText));
      queue := PushChildren(queue, Children(node), depth + 1);
      PushedWalk(rest, Children(node), 0, depth + 1, allowed, Counters(nodes, allText));
      PushedSize(rest, Children(node), 0, depth + 1);
      assert Children(node)[0..] == Children(node);
    }
    return None;
  }

  // -- Leaf fields, recursively ------------------------------------------------------------

  function ElementsOf(ns: seq<Node>): (r: seq<Node>)
    ensures |r| <= |ns| && forall i :: 0 <= i < |r| ==> r[i].Element? && r[i] in ns
  {
    if ns == [] then []
    else if ns[0].Element? then [ns[0]] + ElementsOf(ns[1..])
    else ElementsOf(ns[1..])
  }

  function TextContent(n: Node): Units
    decreases n
  {
    match n
    case Element(_, _, children) => TextContentAll(children)
    case Text(data) => data
    case CData(data) => data
    case Comment(_) => []
  }

  function TextContentAll(ns: seq<Node>): Units
    decreases ns
  {
    if ns == [] then [] else TextContent(ns[0]) + TextContentAll(ns[1..])
  }

  datatype Field = Field(path: string, elementName: string, value: Units, order: nat)

  /** A leaf element, before it is numbered. */
  datatype Leaf = Leaf(path: string, elementName: string, value: Units)

  function LeafOf(e: Node, path: string): Leaf
    requires e.Element?
  {
    Leaf(path, e.localName, TrimBy(TextContent(e), u => IsSpaceUnit(u)))
  }

  predicate IsLeaf(e: Node) {
    e.Element? && ElementsOf(e.children) == []
  }

  function ChildPath(path: string, e: Node): string
    requires e.Element?
  {
    path + "/" + e.localName
  }

  /** The leaves below an element, in document order. */
  function Leaves(e: Node, path: string): seq<Leaf>
    requires e.Element?
    decreases e, 1
  {
    if IsLeaf(e) then [LeafOf(e, path)] else LeavesOfAll(e.children, path)
  }

  function LeavesOfAll(ns: seq<Node>, path: string): seq<Leaf>
    decreases ns, 0
  {
    if ns == [] then []
    else if ns[0].Element? then Leaves(ns[0], ChildPath(path, ns[0])) + LeavesOfAll(ns[1..], path)
    else LeavesOfAll(ns[1..], path)
  }

  function Numbered(leaves: seq<Leaf>): (r: seq<Field>)
    ensures |r| == |leaves|
    ensures forall i :: 0 <= i < |r| ==>
              r[i] == Field(leaves[i].path, leaves[i].elementName, leaves[i].value, i)
  {
    if leaves == [] then []
    else
      var n := |leaves| - 1;
      Numbered(leaves[..n]) + [Field(leaves[n].path, leaves[n].elementName, leaves[n].value, n)]
  }

  /** Every element below a node with its path, in document order. */
  datatype Placed = Placed(element: Node, path: string)

  function Preorder(e: Node, path: string): seq<Placed>
    requires e.Element?
    decreases e, 1
  {
    [Placed(e, path)] + PreorderOfAll(e.children, path)
  }

  function PreorderOfAll(ns: seq<Node>, path: string): seq<Placed>
    decreases ns, 0
  {
    if ns == [] then []
    else if ns[0].Element? then Preorder(ns[0], ChildPath(path, ns[0])) + PreorderOfAll(ns[1..], path)
    else PreorderOfAll(ns[1..], path)
  }

  function LeavesAmong(ps: seq<Placed>): seq<Leaf> {
    if ps == [] then []
    else if IsLeaf(ps[0].element) then [LeafOf(ps[0].element, ps[0].path)] + LeavesAmong(ps[1..])
    else LeavesAmong(ps[1..])
  }

  lemma {:induction false} LeavesAmongAppend(a: seq<Placed>, b: seq<Placed>)
    ensures LeavesAmong(a + b) == LeavesAmong(a) + LeavesAmong(b)
  {
    if a == [] {
      assert a + b == b;
    } else {
      assert (a + b)[1..] == a[1..] + b;
      LeavesAmongAppend(a[1..], b);
    }
  }

  lemma {:induction false} NoElements(ns: seq<Node>, path: string)
    requires ElementsOf(ns) == []
    ensures PreorderOfAll(ns, path) == []
  {
    if ns == [] {
    } else {
      NoElements(ns[1..], path);
    }
  }

  /** The leaves are the elements without child elements, in the document order of all elements. */
  lemma {:induction false} LeavesAreLeafElements(e: Node, path: string)
    requires e.Element?
    ensures Leaves(e, path) == LeavesAmong(Preorder(e, path))
    decreases e, 1
  {
    assert Preorder(e, path)[1..] == PreorderOfAll(e.children, path);
    if IsLeaf(e) {
      NoElements(e.children, path);
    } else {
      LeavesOfAllAreLeafElements(e.children, path);
    }
  }

  lemma {:induction false} LeavesOfAllAreLeafElements(ns: seq<Node>, path: string)
    ensures LeavesOfAll(ns, path) == LeavesAmong(PreorderOfAll(ns, path))
    decreases ns, 0
  {
    if ns == [] {
    } else {
      LeavesOfAllAreLeafElements(ns[1..], path);
      if ns[0].Element? {
        LeavesAreLeafElements(ns[0], ChildPath(path, ns[0]));
        LeavesAmongAppend(Preorder(ns[0], ChildPath(path, ns[0])), PreorderOfAll(ns[1..], path));
      }
    }
  }

  // -- Leaf fields, with a stack -----------------------------------------------------------

  function LeavesOfStack(stack: seq<Placed>): seq<Leaf>
    requires forall i :: 0 <= i < |stack| ==> stack[i].element.Element?
  {
    if stack == [] then []
    else
      var top := stack[|stack| - 1];
      Leaves(top.element, top.path) + LeavesOfStack(stack[..|stack| - 1])
  }

  function PlacedSize(stack: seq<Placed>): nat {
    if stack == [] then 0 else NodeCount(stack[|stack| - 1].element) + PlacedSize(stack[..|stack| - 1])
  }

  predicate AllElements(ns: seq<Node>) {
    forall i :: 0 <= i < |ns| ==> ns[i].Element?
  }

  function PushedElements(children: seq<Node>, i: nat, path: string): (r: seq<Placed>)
    requires AllElements(children) && i <= |children|
    ensures forall j :: 0 <= j < |r| ==> r[j].element.Element?
    decreases |children| - i
  {
    if i == |children| then []
    else PushedElements(children, i + 1, path) + [Placed(children[i], ChildPath(path, children[i]))]
  }

  lemma TopLeaves(rest: seq<Placed>, top: Placed)
    requires top.element.Element? && forall j :: 0 <= j < |rest| ==> rest[j].element.Element?
    ensures LeavesOfStack(rest + [top]) == Leaves(top.element, top.path) + LeavesOfStack(rest)
  {
    assert (rest + [top])[..|rest|] == rest;
  }

  lemma FirstLeaves(children: seq<Node>, i: nat, path: string)
    requires AllElements(children) && i < |children|
    ensures LeavesOfAll(children[i..], path)
         == Leaves(children[i], ChildPath(path, children[i])) + LeavesOfAll(children[i + 1..], path)
  {
    assert children[i..][1..] == children[i + 1..];
  }

  lemma RegroupLeaves(a: seq<Leaf>, b: seq<Leaf>, c: seq<Leaf>)
    ensures a + (b + c) == (a + b) + c
  {}

  lemma {:induction false} PushedLeaves(rest: seq<Placed>, children: seq<Node>, i: nat, path: string)
    requires AllElements(children) && i <= |children|
    requires forall j :: 0 <= j < |rest| ==> rest[j].element.Element?
    ensures LeavesOfStack(rest + PushedElements(children, i, path))
        == LeavesOfAll(children[i..], path) + LeavesOfStack(rest)
    decreases |children| - i
  {
    if i == |children| {
      assert rest + PushedElements(children, i, path) == rest;
      assert LeavesOfAll(children[i..], path) == [];
    } else {
      var more, top := PushedElements(children, i + 1, path), Placed(children[i], ChildPath(path, children[i]));
      assert rest + PushedElements(children, i, path) == (rest + more) + [top];
      TopLeaves(rest + more, top);
      PushedLeaves(rest, children, i + 1, path);
      FirstLeaves(children, i, path);
      RegroupLeaves(Leaves(top.element, top.path), LeavesOfAll(children[i + 1..], path), LeavesOfStack(rest));
    }
  }

  lemma {:induction false} PushedElementsSize(rest: seq<Placed>, children: seq<Node>, i: nat, path: string)
    requires AllElements(children) && i <= |children|
    ensures PlacedSize(rest + PushedElements(children, i, path)) == PlacedSize(rest) + CountAll(children[i..])
    decreases |children| - i
  {
    if i == |children| {
      assert rest + PushedElements(children, i, path) == rest;
    } else {
      var stack := rest + PushedElements(children, i, path);
      assert stack[..|stack| - 1] == rest + PushedElements(children, i + 1, path);
      assert children[i..][1..] == children[i + 1..];
      PushedElementsSize(rest, children, i + 1, path);
    }
  }

  lemma {:induction false} ElementsSuffice(ns: seq<Node>, path: string)
    ensures LeavesOfAll(ElementsOf(ns), path) == LeavesOfAll(ns, path)
    ensures CountAll(ElementsOf(ns)) <= CountAll(ns)
  {
    if ns == [] {
    } else {
      ElementsSuffice(ns[1..], path);
      if ns[0].Element? {
        assert ElementsOf(ns)[1..] == ElementsOf(ns[1..]);
      }
    }
  }

  method PushElements(stack: seq<Placed>, children: seq<Node>, path: string) returns (r: seq<Placed>)
    requires AllElements(children)
    ensures r == stack + PushedElements(children, 0, path)
  {
    r := stack;
    var index := |children|;
    while index > 0
      invariant 0 <= index <= |children|
      invariant r == stack + PushedElements(children, index, path)
    {
      index := index - 1;
      r := r + [Placed(children[index], ChildPath(path, children[index]))];
    }
  }

  lemma NumberNext(done: seq<Leaf>, leaf: Leaf)
    ensures Numbered(done + [leaf]) == Numbered(done) + [Field(leaf.path, leaf.elementName, leaf.value, |done|)]
  {
    assert (done + [leaf])[..|done|] == done;
  }

  ghost predicate OnlyElements(stack: seq<Placed>) {
    forall i :: 0 <= i < |stack| ==> stack[i].element.Element?
  }

  lemma LeafStep(rest: seq<Placed>, top: Placed, done: seq<Leaf>)
    requires OnlyElements(rest) && IsLeaf(top.element)
    ensures OnlyElements(rest + [top])
    ensures done + LeavesOfStack(rest + [top]) == done + [LeafOf(top.element, top.path)] + LeavesOfStack(rest)
    ensures PlacedSize(rest) < PlacedSize(rest + [top])
  {
    TopLeaves(rest, top);
    assert (rest + [top])[..|rest|] == rest;
  }

  lemma BranchStep(rest: seq<Placed>, top: Placed)
    requires OnlyElements(rest) && top.element.Element? && !IsLeaf(top.element)
    ensures
      var after := rest + PushedElements(ElementsOf(top.element.children), 0, top.path);
      && OnlyElements(rest + [top]) && OnlyElements(after)
      && LeavesOfStack(rest + [top]) == LeavesOfStack(after)
      && PlacedSize(after) < PlacedSize(rest + [top])
  {
    var children := ElementsOf(top.element.children);
    ElementsSuffice(top.element.children, top.path);
    TopLeaves(rest, top);
    assert (rest + [top])[..|rest|] == rest;
    PushedLeaves(rest, children, 0, top.path);
    PushedElementsSize(rest, children, 0, top.path);
    assert children[0..] == children;
  }

  /** collectLeafFields: the leaves in document order, each with its position as its order. */
  method CollectLeafFields(root: Node) returns (result: seq<Field>)
    requires root.Element?
    ensures result == Numbered(Leaves(root, "/" + root.localName))
  {
    result := [];
    var stack := [Placed(root, "/" + root.localName)];
    var order: nat := 0;
    ghost var done: seq<Leaf> := [];
    TopLeaves([], stack[0]);
    assert [] + [stack[0]] == stack;
    while stack != []
      invariant OnlyElements(stack)
      invariant Leaves(root, "/" + root.localName) == done + LeavesOfStack(stack)
      invariant result == Numbered(done) && order == |done|
      decreases PlacedSize(stack)
    {
      var current, rest := stack[|stack| - 1], stack[..|stack| - 1];
      assert stack == rest + [current];
      var children := ElementsOf(current.element.children);
      if |children| == 0 {
        LeafStep(rest, current, done);
        var leaf := LeafOf(current.element, current.path);
        NumberNext(done, leaf);
        done := done + [leaf];
        result := result + [Field(leaf.path, leaf.elementName, leaf.value, order)];
        order := order + 1;
        stack := rest;
      } else {
        BranchStep(rest, current);
        stack := PushElements(rest, children, current.path);
      }
    }
  }
}
