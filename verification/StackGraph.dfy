/** The graph-structured parse stack (stack.go:126-225, stack.go:579-604).

    Heads share nodes; a node links to every node it may have been pushed onto.  Nodes live
    in one store and are changed in place through their reference, so a change made through
    one head is seen by all. */
module StackGraph {
  import opened Lengths
  import opened Trees
  import opened EditSpec

  type NodeRef = nat

  datatype Link = Link(node: NodeRef, subtree: Option<Tree>, isPending: bool)

  datatype StackNode = StackNode(state: nat, position: Length, links: seq<Link>,
                                 errorCost: int, nodeCount: nat, dynamicPrecedence: int)

  type Graph = map<NodeRef, StackNode>

  /** What two nodes must share before anything is merged or spliced. */
  datatype Key = Key(state: nat, bytes: nat, errorCost: int)

  function KeyOf(n: StackNode): Key {
    Key(n.state, n.position.bytes, n.errorCost)
  }

  function Bytes(s: Option<Tree>): nat {
    if s.Some? then s.value.Total().bytes else 0
  }

  function Cost(s: Option<Tree>): int {
    if s.Some? then s.value.ErrorCost() else 0
  }

  function Precedence(s: Option<Tree>): int {
    if s.Some? then s.value.DynamicPrecedence() else 0
  }

  function NodeCount(s: Option<Tree>): nat {
    if s.None? then 0 else
    s.value.VisibleDescendants() + (if s.value.Visible() then 1 else 0)
      + (if s.value.Symbol() == SYM_ERROR_REPEAT then 1 else 0)
  }

  /** stackSubtreeIsEquivalent: the links a merge treats as the same step. */
  predicate Equivalent(left: Option<Tree>, right: Option<Tree>) {
    if left == right then true
    else if left.None? || right.None? then false
    else
      var a, b := left.value, right.value;
      && a.Symbol() == b.Symbol()
      && ((a.ErrorCost() > 0 && b.ErrorCost() > 0)
          || (a.Padding().bytes == b.Padding().bytes && a.Size().bytes == b.Size().bytes
              && |a.Children()| == |b.Children()| && a.Extra() == b.Extra()
              && a.ScannerState() == b.ScannerState()))
  }

  function Label(s: Option<Tree>): Option<nat> {
    match s
    case None => None
    case Some(t) => Some(t.Symbol())
  }

  // ---------------------------------------------------------------- the invariant

  /** A link fits the node it leaves: positions and error costs add up along it. */
  predicate Fits(from: Key, link: Link, to: Key) {
    && from.bytes == to.bytes + Bytes(link.subtree)
    && from.errorCost == to.errorCost + Cost(link.subtree)
  }

  ghost predicate WellFormed(g: Graph) {
    forall n, i :: n in g && 0 <= i < |g[n].links| ==>
      g[n].links[i].node in g && Fits(KeyOf(g[n]), g[n].links[i], KeyOf(g[g[n].links[i].node]))
  }

  /** Following a link always lowers the rank of the node's key.  When every subtree on the
      stack has a positive width, the byte position is such a rank. */
  ghost predicate Ranked(g: Graph, rank: Key -> nat) {
    forall n, i :: n in g && 0 <= i < |g[n].links| && g[n].links[i].node in g ==>
      rank(KeyOf(g[g[n].links[i].node])) < rank(KeyOf(g[n]))
  }

  // ---------------------------------------------------------------- readable sequences

  /** One step back along the stack: what was pushed, and the state it was pushed onto. */
  datatype Step = Step(symbol: Option<nat>, state: nat)

  function StepOf(g: Graph, link: Link): Step
    requires link.node in g
  {
    Step(Label(link.subtree), g[link.node].state)
  }

  /** The sequences of pushed symbols and states readable from node n. */
  ghost predicate Reads(g: Graph, n: NodeRef, path: seq<Step>)
    decreases |path|
  {
    n in g && (path == [] ||
      exists i :: 0 <= i < |g[n].links| && g[n].links[i].node in g
               && StepOf(g, g[n].links[i]) == path[0] && Reads(g, g[n].links[i].node, path[1..]))
  }

  /** Nodes keep their keys, and every link stays, up to an equivalent subtree. */
  ghost predicate Extends(g: Graph, g': Graph) {
    && g.Keys == g'.Keys
    && (forall n :: n in g ==> KeyOf(g'[n]) == KeyOf(g[n]) && |g[n].links| <= |g'[n].links|)
    && (forall n, i :: n in g && 0 <= i < |g[n].links| ==>
          && g'[n].links[i].node == g[n].links[i].node
          && Label(g'[n].links[i].subtree) == Label(g[n].links[i].subtree))
  }

  lemma {:induction false} ExtendsReads(g: Graph, g': Graph, n: NodeRef, path: seq<Step>)
    requires Extends(g, g') && Reads(g, n, path)
    ensures Reads(g', n, path)
    decreases |path|
  {
    if path != [] {
      var i :| 0 <= i < |g[n].links| && g[n].links[i].node in g
            && StepOf(g, g[n].links[i]) == path[0] && Reads(g, g[n].links[i].node, path[1..]);
      ExtendsReads(g, g', g[n].links[i].node, path[1..]);
      assert g'[n].links[i].node in g' && StepOf(g', g'[n].links[i]) == path[0];
    }
  }

  lemma ExtendsTransitive(g0: Graph, g1: Graph, g2: Graph)
    requires Extends(g0, g1) && Extends(g1, g2)
    ensures Extends(g0, g2)
  {
  }

  /** An edge of the graph, seen through keys: nothing but merging same-key nodes may make
      a new one. */
  ghost predicate Edge(g: Graph, from: Key, s: Option<Tree>, to: Key) {
    exists n, i :: n in g && 0 <= i < |g[n].links| && g[n].links[i].node in g
                && KeyOf(g[n]) == from && g[n].links[i].subtree == s && KeyOf(g[g[n].links[i].node]) == to
  }

  // ---------------------------------------------------------------- path sums

  /** A chain of links from n down to end. */
  ghost predicate LinkPath(g: Graph, n: NodeRef, ls: seq<Link>, end: NodeRef)
    decreases |ls|
  {
    if ls == [] then n == end
    else n in g && ls[0] in g[n].links && LinkPath(g, ls[0].node, ls[1..], end)
  }

  function PathBytes(ls: seq<Link>): nat {
    if ls == [] then 0 else Bytes(ls[0].subtree) + PathBytes(ls[1..])
  }

  function PathCost(ls: seq<Link>): int {
    if ls == [] then 0 else Cost(ls[0].subtree) + PathCost(ls[1..])
  }

  /** Whatever path is taken to the bottom, the widths and the error costs of the subtrees
      along it add up to the node's own position and cost. */
  lemma {:induction false} EveryPathAddsUp(g: Graph, n: NodeRef, ls: seq<Link>, end: NodeRef)
    requires WellFormed(g) && n in g && end in g && LinkPath(g, n, ls, end)
    ensures g[n].position.bytes == g[end].position.bytes + PathBytes(ls)
    ensures g[n].errorCost == g[end].errorCost + PathCost(ls)
    decreases |ls|
  {
    if ls != [] {
      var i :| 0 <= i < |g[n].links| && g[n].links[i] == ls[0];
      EveryPathAddsUp(g, ls[0].node, ls[1..], end);
    }
  }
}
