/** What adding a link does to any stack graph (stack.go:171-225), acyclic or not: as a function, with the
    links back to the node itself that it drops on its way. */
module LinkSplices {
  import opened Lengths
  import opened Trees
  import opened EditSpec
  import opened StackGraph

  ghost predicate Closed(g: Graph) {
    forall n, i :: n in g && 0 <= i < |g[n].links| ==> g[n].links[i].node in g
  }

  ghost predicate Grew(g: Graph, g': Graph) {
    g.Keys == g'.Keys && forall n :: n in g ==> |g[n].links| <= |g'[n].links|
  }

  /** The graph afterwards, and whether a self link was dropped. */
  datatype Splice = Splice(graph: Graph, dropped: bool)

  /** The first of self's links from i on that takes the link in: an equivalent one to a node of the same key. */
  ghost function Taker(g: Graph, self: NodeRef, link: Link, i: nat): (r: nat)
    requires Closed(g) && self in g && link.node in g && i <= |g[self].links|
    ensures i <= r <= |g[self].links|
    ensures r < |g[self].links| ==> Equivalent(g[self].links[r].subtree, link.subtree)
                                    && KeyOf(g[g[self].links[r].node]) == KeyOf(g[link.node])
    decreases |g[self].links| - i
  {
    if i == |g[self].links| then i
    else
      var existing := g[self].links[i];
      if Equivalent(existing.subtree, link.subtree) && KeyOf(g[existing.node]) == KeyOf(g[link.node]) then i
      else Taker(g, self, link, i + 1)
  }

  function Replaced(n: StackNode, i: nat, link: Link, below: StackNode): StackNode
    requires i < |n.links|
  {
    if Precedence(link.subtree) > Precedence(n.links[i].subtree) then
      n.(links := n.links[i := n.links[i].(subtree := link.subtree)],
         dynamicPrecedence := below.dynamicPrecedence + Precedence(link.subtree))
    else n
  }

  function Raised(n: StackNode, precedence: int): StackNode {
    if precedence > n.dynamicPrecedence then n.(dynamicPrecedence := precedence) else n
  }

  function Appended(n: StackNode, link: Link, below: StackNode): StackNode {
    var count := below.nodeCount + NodeCount(link.subtree);
    Raised(n.(links := n.links + [link], nodeCount := if count > n.nodeCount then count else n.nodeCount),
           below.dynamicPrecedence + Precedence(link.subtree))
  }

  /** stackNodeAddLink; None when the recursion goes deeper than the fuel. */
  ghost function AddLinkAt(g: Graph, self: NodeRef, link: Link, fuel: nat): (r: Option<Splice>)
    requires Closed(g) && self in g && link.node in g
    ensures r.Some? ==> Closed(r.value.graph) && Grew(g, r.value.graph)
    decreases fuel, 0
  {
    if link.node == self then Some(Splice(g, true)) else
    var i := Taker(g, self, link, 0);
    if i == |g[self].links| then Some(Splice(g[self := Appended(g[self], link, g[link.node])], false)) else
    var existing := g[self].links[i];
    if existing.node == link.node then Some(Splice(g[self := Replaced(g[self], i, link, g[link.node])], false))
    else if fuel == 0 then None
    else
      match AddAllAt(g, existing.node, link.node, |g[link.node].links|, fuel - 1)
      case None => None
      case Some(s) =>
        var precedence := s.graph[link.node].dynamicPrecedence + Precedence(link.subtree);
        Some(Splice(s.graph[self := Raised(s.graph[self], precedence)], s.dropped))
  }

  /** The first j links of one node added to another, each as it is when its turn comes. */
  ghost function AddAllAt(g: Graph, into: NodeRef, from: NodeRef, j: nat, fuel: nat): (r: Option<Splice>)
    requires Closed(g) && into in g && from in g && j <= |g[from].links|
    ensures r.Some? ==> Closed(r.value.graph) && Grew(g, r.value.graph)
    decreases fuel, j
  {
    if j == 0 then Some(Splice(g, false)) else
    match AddAllAt(g, into, from, j - 1, fuel)
    case None => None
    case Some(s) =>
      match AddLinkAt(s.graph, into, s.graph[from].links[j - 1], fuel)
      case None => None
      case Some(t) => Some(Splice(t.graph, s.dropped || t.dropped))
  }

  /** The graph part of merging the head at `gone` into the head at `kept`. */
  ghost function MergedAt(g: Graph, kept: NodeRef, gone: NodeRef, fuel: nat): Option<Splice>
    requires Closed(g) && kept in g && gone in g
  {
    AddAllAt(g, kept, gone, |g[gone].links|, fuel)
  }

  /** One turn of AddLinkAt that goes deeper. */
  lemma Deeper(g: Graph, self: NodeRef, link: Link, fuel: nat)
    requires Closed(g) && self in g && link.node in g && link.node != self
    requires var i := Taker(g, self, link, 0); i < |g[self].links| && g[self].links[i].node != link.node
    ensures var into := g[self].links[Taker(g, self, link, 0)].node;
      AddLinkAt(g, self, link, fuel)
      == if fuel == 0 then None else
         match AddAllAt(g, into, link.node, |g[link.node].links|, fuel - 1)
         case None => None
         case Some(s) =>
           Some(Splice(s.graph[self := Raised(s.graph[self], s.graph[link.node].dynamicPrecedence + Precedence(link.subtree))],
                       s.dropped))
  {
    hide Taker, Replaced, Raised, Appended, AddAllAt, Closed, Grew, KeyOf, Equivalent;
  }

  lemma SelfAdded(g: Graph, self: NodeRef, link: Link, fuel: nat)
    requires Closed(g) && self in g && link.node == self
    ensures AddLinkAt(g, self, link, fuel) == Some(Splice(g, true))
  {
  }

  lemma TakerHere(g: Graph, self: NodeRef, link: Link, i: nat)
    requires Closed(g) && self in g && link.node in g && i < |g[self].links|
    ensures g[self].links[i].node in g
    ensures Taker(g, self, link, i)
         == if Equivalent(g[self].links[i].subtree, link.subtree) && KeyOf(g[g[self].links[i].node]) == KeyOf(g[link.node])
            then i else Taker(g, self, link, i + 1)
  {
    hide KeyOf, Equivalent;
  }

  lemma ReplacedAdded(g: Graph, g': Graph, self: NodeRef, link: Link, fuel: nat)
    requires Closed(g) && self in g && link.node in g && link.node != self
    requires var i := Taker(g, self, link, 0);
      i < |g[self].links| && g[self].links[i].node == link.node && g' == g[self := Replaced(g[self], i, link, g[link.node])]
    ensures AddLinkAt(g, self, link, fuel) == Some(Splice(g', false))
  {
    hide Taker, Closed, Grew, KeyOf, Equivalent, AddAllAt;
  }

  lemma AppendedAdded(g: Graph, g': Graph, self: NodeRef, link: Link, fuel: nat)
    requires Closed(g) && self in g && link.node in g && link.node != self
    requires Taker(g, self, link, 0) == Taker(g, self, link, |g[self].links|)
    requires g' == g[self := Appended(g[self], link, g[link.node])]
    ensures AddLinkAt(g, self, link, fuel) == Some(Splice(g', false))
  {
    hide Closed, Grew, KeyOf, Equivalent, AddAllAt;
  }

  lemma NothingAdded(g: Graph, into: NodeRef, from: NodeRef, fuel: nat)
    requires Closed(g) && into in g && from in g
    ensures AddAllAt(g, into, from, 0, fuel) == Some(Splice(g, false))
  {
  }

  /** One turn that does not. */
  lemma NoDeeper(g: Graph, self: NodeRef, link: Link, fuel: nat, more: nat)
    requires Closed(g) && self in g && link.node in g
    requires var i := Taker(g, self, link, 0);
      link.node == self || i == |g[self].links| || g[self].links[i].node == link.node
    ensures AddLinkAt(g, self, link, fuel) == AddLinkAt(g, self, link, more)
  {
    hide Taker, Replaced, Raised, Appended, AddAllAt, Closed, Grew, KeyOf, Equivalent;
  }

  lemma {:induction false} MoreFuel(g: Graph, self: NodeRef, link: Link, fuel: nat, more: nat)
    requires Closed(g) && self in g && link.node in g && fuel <= more
    requires AddLinkAt(g, self, link, fuel).Some?
    ensures AddLinkAt(g, self, link, more) == AddLinkAt(g, self, link, fuel)
    decreases fuel, 0
  {
    hide Taker, Raised, AddLinkAt, AddAllAt, Grew, KeyOf, Equivalent;
    var i := Taker(g, self, link, 0);
    if link.node == self || i == |g[self].links| || g[self].links[i].node == link.node {
      NoDeeper(g, self, link, fuel, more);
    } else {
      Deeper(g, self, link, fuel);
      Deeper(g, self, link, more);
      AllMoreFuel(g, g[self].links[i].node, link.node, |g[link.node].links|, fuel - 1, more - 1);
    }
  }

  lemma {:induction false} AllMoreFuel(g: Graph, into: NodeRef, from: NodeRef, j: nat, fuel: nat, more: nat)
    requires Closed(g) && into in g && from in g && j <= |g[from].links| && fuel <= more
    requires AddAllAt(g, into, from, j, fuel).Some?
    ensures AddAllAt(g, into, from, j, more) == AddAllAt(g, into, from, j, fuel)
    decreases fuel, j
  {
    hide AddLinkAt;
    if j > 0 {
      AllMoreFuel(g, into, from, j - 1, fuel, more);
      var s := AddAllAt(g, into, from, j - 1, fuel).value;
      MoreFuel(s.graph, into, s.graph[from].links[j - 1], fuel, more);
    }
  }

  // ---------------------------------------------------------------- without a dropped link nothing is lost

  lemma ReadsVia(g: Graph, n: NodeRef, i: nat, path: seq<Step>)
    requires n in g && i < |g[n].links| && g[n].links[i].node in g && Reads(g, g[n].links[i].node, path)
    ensures Reads(g, n, [StepOf(g, g[n].links[i])] + path)
  {
    var whole := [StepOf(g, g[n].links[i])] + path;
    assert whole[1..] == path && whole[0] == StepOf(g, g[n].links[i]);
  }

  ghost predicate Passes(g: Graph, from: NodeRef, g': Graph, into: NodeRef, step: Step) {
    forall path :: Reads(g, from, path) ==> Reads(g', into, [step] + path)
  }

  lemma AppendPasses(g: Graph, g': Graph, self: NodeRef, link: Link)
    requires Closed(g) && self in g && link.node in g && g' == g[self := Appended(g[self], link, g[link.node])]
    ensures Extends(g, g') && Passes(g, link.node, g', self, StepOf(g, link))
  {
    assert Extends(g, g');
    var i := |g[self].links|;
    assert g'[self].links[i] == link && StepOf(g', link) == StepOf(g, link);
    forall path | Reads(g, link.node, path) ensures Reads(g', self, [StepOf(g, link)] + path) {
      ExtendsReads(g, g', link.node, path);
      ReadsVia(g', self, i, path);
    }
  }

  lemma ReplacePasses(g: Graph, g': Graph, self: NodeRef, i: nat, link: Link)
    requires Closed(g) && self in g && link.node in g && i < |g[self].links| && g[self].links[i].node == link.node
    requires Equivalent(g[self].links[i].subtree, link.subtree) && g' == g[self := Replaced(g[self], i, link, g[link.node])]
    ensures Extends(g, g') && Passes(g, link.node, g', self, StepOf(g, link))
  {
    assert Extends(g, g');
    assert g'[self].links[i].node == link.node && StepOf(g', g'[self].links[i]) == StepOf(g, link);
    forall path | Reads(g, link.node, path) ensures Reads(g', self, [StepOf(g, link)] + path) {
      ExtendsReads(g, g', link.node, path);
      ReadsVia(g', self, i, path);
    }
  }

  lemma ThroughPasses(g: Graph, g1: Graph, g2: Graph, self: NodeRef, i: nat, link: Link, precedence: int)
    requires Closed(g) && self in g && link.node in g && i < |g[self].links|
    requires Equivalent(g[self].links[i].subtree, link.subtree) && KeyOf(g[g[self].links[i].node]) == KeyOf(g[link.node])
    requires Extends(g, g1) && g2 == g1[self := Raised(g1[self], precedence)]
    requires forall path :: Reads(g, link.node, path) ==> Reads(g1, g[self].links[i].node, path)
    ensures Extends(g, g2) && Passes(g, link.node, g2, self, StepOf(g, link))
  {
    assert Extends(g1, g2);
    ExtendsTransitive(g, g1, g2);
    var into := g[self].links[i].node;
    assert g2[self].links[i].node == into && StepOf(g2, g2[self].links[i]) == StepOf(g, link);
    forall path | Reads(g, link.node, path) ensures Reads(g2, self, [StepOf(g, link)] + path) {
      ExtendsReads(g1, g2, into, path);
      ReadsVia(g2, self, i, path);
    }
  }

  /** Adding a link keeps every node and reading, and, unless it dropped a self link on its way, whatever
      is readable through the link becomes readable from the node. */
  lemma {:induction false} AddLinkKeeps(g: Graph, self: NodeRef, link: Link, fuel: nat)
    requires Closed(g) && self in g && link.node in g && AddLinkAt(g, self, link, fuel).Some?
    ensures var s := AddLinkAt(g, self, link, fuel).value;
      Extends(g, s.graph) && (!s.dropped ==> Passes(g, link.node, s.graph, self, StepOf(g, link)))
    decreases fuel, 0
  {
    hide Reads, Passes, Equivalent, Replaced, Raised, Appended, StepOf, AddLinkAt, AddAllAt, Extends;
    if link.node == self {
      SelfAdded(g, self, link, fuel);
      ExtendsItself(g);
    } else {
      var i := Taker(g, self, link, 0);
      if i == |g[self].links| {
        TakerEnds(g, self, link, i);
        AppendedAdded(g, g[self := Appended(g[self], link, g[link.node])], self, link, fuel);
        AppendPasses(g, g[self := Appended(g[self], link, g[link.node])], self, link);
      } else if g[self].links[i].node == link.node {
        ReplacedAdded(g, g[self := Replaced(g[self], i, link, g[link.node])], self, link, fuel);
        ReplacePasses(g, g[self := Replaced(g[self], i, link, g[link.node])], self, i, link);
      } else {
        Deeper(g, self, link, fuel);
        var into, count := g[self].links[i].node, |g[link.node].links|;
        AddAllKeep(g, into, link.node, count, fuel - 1);
        var t := AddAllAt(g, into, link.node, count, fuel - 1).value;
        var precedence := t.graph[link.node].dynamicPrecedence + Precedence(link.subtree);
        RaisedExtends(g, t.graph, self, precedence);
        if !t.dropped {
          AllPassed(g, t.graph, into, link.node);
          ThroughPasses(g, t.graph, t.graph[self := Raised(t.graph[self], precedence)], self, i, link, precedence);
        }
      }
    }
  }

  lemma TakerEnds(g: Graph, self: NodeRef, link: Link, n: nat)
    requires Closed(g) && self in g && link.node in g && n == |g[self].links|
    ensures Taker(g, self, link, n) == n
  {
  }

  lemma ExtendsItself(g: Graph)
    ensures Extends(g, g)
  {
  }

  lemma RaisedExtends(g: Graph, g1: Graph, self: NodeRef, precedence: int)
    requires self in g && Extends(g, g1)
    ensures Extends(g, g1[self := Raised(g1[self], precedence)])
  {
  }

  /** Each of the first j links of `from`, as it was, passes its readings on. */
  ghost predicate AllPass(g: Graph, from: NodeRef, g': Graph, into: NodeRef, j: nat)
    requires Closed(g) && from in g && j <= |g[from].links|
  {
    forall i :: 0 <= i < j ==> Passes(g, g[from].links[i].node, g', into, StepOf(g, g[from].links[i]))
  }

  lemma ReadsHead(g: Graph, n: NodeRef, path: seq<Step>) returns (i: nat)
    requires Reads(g, n, path) && path != []
    ensures n in g && i < |g[n].links| && g[n].links[i].node in g
    ensures StepOf(g, g[n].links[i]) == path[0] && Reads(g, g[n].links[i].node, path[1..])
  {
    i :| 0 <= i < |g[n].links| && g[n].links[i].node in g
      && StepOf(g, g[n].links[i]) == path[0] && Reads(g, g[n].links[i].node, path[1..]);
  }

  lemma PassUse(g: Graph, from: NodeRef, g': Graph, into: NodeRef, step: Step, path: seq<Step>)
    requires Passes(g, from, g', into, step) && Reads(g, from, path)
    ensures Reads(g', into, [step] + path)
  {
    hide Reads;
  }

  lemma OnePassed(g: Graph, g': Graph, into: NodeRef, from: NodeRef, path: seq<Step>)
    requires Closed(g) && from in g && into in g' && AllPass(g, from, g', into, |g[from].links|) && Reads(g, from, path)
    ensures Reads(g', into, path)
  {
    if path != [] {
      var i := ReadsHead(g, from, path);
      hide Reads, StepOf, Closed, Passes;
      assert [path[0]] + path[1..] == path;
      PassUse(g, g[from].links[i].node, g', into, path[0], path[1..]);
    }
  }

  lemma AllPassed(g: Graph, g': Graph, into: NodeRef, from: NodeRef)
    requires Closed(g) && from in g && into in g' && AllPass(g, from, g', into, |g[from].links|)
    ensures forall path :: Reads(g, from, path) ==> Reads(g', into, path)
  {
    hide Reads, Closed, AllPass;
    forall path | Reads(g, from, path) ensures Reads(g', into, path) {
      OnePassed(g, g', into, from, path);
    }
  }

  lemma {:induction false} AddAllKeep(g: Graph, into: NodeRef, from: NodeRef, j: nat, fuel: nat)
    requires Closed(g) && into in g && from in g && j <= |g[from].links| && AddAllAt(g, into, from, j, fuel).Some?
    ensures var s := AddAllAt(g, into, from, j, fuel).value;
      Extends(g, s.graph) && (!s.dropped ==> AllPass(g, from, s.graph, into, j))
    decreases fuel, j
  {
    hide Reads, Passes, AddLinkAt;
    if j == 0 {
      ExtendsItself(g);
    } else {
      AddAllKeep(g, into, from, j - 1, fuel);
      var s := AddAllAt(g, into, from, j - 1, fuel).value;
      var link := s.graph[from].links[j - 1];
      AddLinkKeeps(s.graph, into, link, fuel);
      var t := AddLinkAt(s.graph, into, link, fuel).value;
      ExtendsTransitive(g, s.graph, t.graph);
      if !s.dropped && !t.dropped {
        OneMorePasses(g, s.graph, t.graph, into, from, j);
      }
    }
  }

  lemma OneMorePasses(g: Graph, g1: Graph, g2: Graph, into: NodeRef, from: NodeRef, j: nat)
    requires Closed(g) && from in g && 0 < j <= |g[from].links| && Extends(g, g1) && Extends(g1, g2)
    requires AllPass(g, from, g1, into, j - 1)
    requires Passes(g1, g1[from].links[j - 1].node, g2, into, StepOf(g1, g1[from].links[j - 1]))
    ensures AllPass(g, from, g2, into, j)
  {
    forall i | 0 <= i < j ensures Passes(g, g[from].links[i].node, g2, into, StepOf(g, g[from].links[i])) {
      var below, step := g[from].links[i].node, StepOf(g, g[from].links[i]);
      forall path | Reads(g, below, path) ensures Reads(g2, into, [step] + path) {
        if i < j - 1 {
          assert Passes(g, below, g1, into, step);
          ExtendsReads(g1, g2, into, [step] + path);
        } else {
          ExtendsReads(g, g1, below, path);
          assert g1[from].links[i].node == below && StepOf(g1, g1[from].links[i]) == step;
        }
      }
    }
  }

  /** On any graph, a merge that drops no self link loses no reading. */
  lemma MergeWithoutDropKeeps(g: Graph, kept: NodeRef, gone: NodeRef, fuel: nat)
    requires Closed(g) && kept in g && gone in g && MergedAt(g, kept, gone, fuel).Some?
    ensures var s := MergedAt(g, kept, gone, fuel).value;
      && (forall n, path :: Reads(g, n, path) ==> Reads(s.graph, n, path))
      && (!s.dropped ==> forall path :: Reads(g, gone, path) ==> Reads(s.graph, kept, path))
  {
    hide Reads, AddAllAt;
    var s := MergedAt(g, kept, gone, fuel).value;
    AddAllKeep(g, kept, gone, |g[gone].links|, fuel);
    forall n, path | Reads(g, n, path) ensures Reads(s.graph, n, path) {
      ExtendsReads(g, s.graph, n, path);
    }
    if !s.dropped { AllPassed(g, s.graph, kept, gone); }
  }

  // ---------------------------------------------------------------- when nothing is dropped

  /** No link joins two nodes of one key.  Every ranked graph is so, but a graph that is so may have cycles. */
  ghost predicate Apart(g: Graph)
    requires Closed(g)
  {
    forall n, i :: n in g && 0 <= i < |g[n].links| ==> KeyOf(g[g[n].links[i].node]) != KeyOf(g[n])
  }

  lemma {:induction false} AddLinkApart(g: Graph, self: NodeRef, link: Link, fuel: nat)
    requires Closed(g) && Apart(g) && self in g && link.node in g && KeyOf(g[link.node]) != KeyOf(g[self])
    ensures AddLinkAt(g, self, link, fuel).Some? ==>
      var s := AddLinkAt(g, self, link, fuel).value; !s.dropped && Apart(s.graph) && Extends(g, s.graph)
    decreases fuel, 0
  {
    hide Equivalent, Extends, AddLinkAt, AddAllAt;
    if AddLinkAt(g, self, link, fuel).Some? {
      AddLinkKeeps(g, self, link, fuel);
      var i := Taker(g, self, link, 0);
      if i == |g[self].links| {
        TakerEnds(g, self, link, i);
        AppendedAdded(g, g[self := Appended(g[self], link, g[link.node])], self, link, fuel);
      } else if g[self].links[i].node == link.node {
        ReplacedAdded(g, g[self := Replaced(g[self], i, link, g[link.node])], self, link, fuel);
      } else {
        Deeper(g, self, link, fuel);
        var into, count := g[self].links[i].node, |g[link.node].links|;
        AddAllApart(g, into, link.node, count, fuel - 1);
      }
    }
  }

  lemma {:induction false} AddAllApart(g: Graph, into: NodeRef, from: NodeRef, j: nat, fuel: nat)
    requires Closed(g) && Apart(g) && into in g && from in g && j <= |g[from].links| && KeyOf(g[into]) == KeyOf(g[from])
    ensures AddAllAt(g, into, from, j, fuel).Some? ==>
      var s := AddAllAt(g, into, from, j, fuel).value; !s.dropped && Apart(s.graph) && Extends(g, s.graph)
    decreases fuel, j
  {
    hide AddLinkAt;
    if j == 0 {
      ExtendsItself(g);
    } else if AddAllAt(g, into, from, j, fuel).Some? {
      AddAllApart(g, into, from, j - 1, fuel);
      var s := AddAllAt(g, into, from, j - 1, fuel).value;
      AddLinkApart(s.graph, into, s.graph[from].links[j - 1], fuel);
      AddAllKeep(g, into, from, j, fuel);
    }
  }

  /** Where no link joins two nodes of one key, merging two heads of one key drops nothing and loses no reading; and
      a merge into a node that one of the merged head's links leads to always drops that link. */
  lemma ApartMergeKeeps(g: Graph, kept: NodeRef, gone: NodeRef, fuel: nat)
    requires Closed(g) && kept in g && gone in g && MergedAt(g, kept, gone, fuel).Some?
    ensures var s := MergedAt(g, kept, gone, fuel).value;
      && (Apart(g) && KeyOf(g[kept]) == KeyOf(g[gone]) ==>
            !s.dropped && forall path :: Reads(g, gone, path) ==> Reads(s.graph, kept, path))
      && ((exists i :: 0 <= i < |g[gone].links| && g[gone].links[i].node == kept) ==> s.dropped)
  {
    hide Reads, AddAllAt;
    MergeWithoutDropKeeps(g, kept, gone, fuel);
    if Apart(g) && KeyOf(g[kept]) == KeyOf(g[gone]) { AddAllApart(g, kept, gone, |g[gone].links|, fuel); }
    if i :| 0 <= i < |g[gone].links| && g[gone].links[i].node == kept { DirectIsDropped(g, kept, gone, i, |g[gone].links|, fuel); }
  }

  lemma {:induction false} DirectIsDropped(g: Graph, into: NodeRef, from: NodeRef, i: nat, j: nat, fuel: nat)
    requires Closed(g) && into in g && from in g && i < j <= |g[from].links| && g[from].links[i].node == into
    requires AddAllAt(g, into, from, j, fuel).Some?
    ensures AddAllAt(g, into, from, j, fuel).value.dropped
    decreases j
  {
    hide AddLinkAt, Taker;
    AddAllKeep(g, into, from, j - 1, fuel);
    var s := AddAllAt(g, into, from, j - 1, fuel).value;
    if i < j - 1 {
      DirectIsDropped(g, into, from, i, j - 1, fuel);
    } else {
      SelfAdded(s.graph, into, s.graph[from].links[i], fuel);
    }
  }

  // ---------------------------------------------------------------- a dropped link

  /** Links go down: as they do in every graph built by pushes, each onto a node that is already there. */
  ghost predicate GoesDown(g: Graph, level: NodeRef -> nat) {
    forall n, i :: n in g && 0 <= i < |g[n].links| ==> level(g[n].links[i].node) < level(n)
  }

  ghost predicate LeadsOnlyTo(g: Graph, gone: NodeRef, kept: NodeRef)
    requires gone in g
  {
    forall i :: 0 <= i < |g[gone].links| ==> g[gone].links[i].node == kept
  }

  lemma {:induction false} SelfLinksAreDropped(g: Graph, kept: NodeRef, gone: NodeRef, j: nat, fuel: nat)
    requires Closed(g) && kept in g && gone in g && LeadsOnlyTo(g, gone, kept) && j <= |g[gone].links|
    ensures AddAllAt(g, kept, gone, j, fuel) == Some(Splice(g, j > 0))
    decreases j
  {
    hide AddLinkAt, Taker;
    if j > 0 {
      SelfLinksAreDropped(g, kept, gone, j - 1, fuel);
      SelfAdded(g, kept, g[gone].links[j - 1], fuel);
    }
  }

  lemma {:induction false} ReadingsAreShort(g: Graph, level: NodeRef -> nat, n: NodeRef, path: seq<Step>)
    requires GoesDown(g, level) && Reads(g, n, path)
    ensures |path| <= level(n)
    decreases |path|
  {
    if path != [] {
      var i :| 0 <= i < |g[n].links| && g[n].links[i].node in g
            && StepOf(g, g[n].links[i]) == path[0] && Reads(g, g[n].links[i].node, path[1..]);
      ReadingsAreShort(g, level, g[n].links[i].node, path[1..]);
    }
  }

  function Again(step: Step, k: nat): (r: seq<Step>)
    ensures |r| == k
  {
    if k == 0 then [] else [step] + Again(step, k - 1)
  }

  /** The most times a step can be read over and over. */
  lemma {:induction false} LastAgain(g: Graph, level: NodeRef -> nat, n: NodeRef, step: Step, k: nat) returns (last: nat)
    requires GoesDown(g, level) && Reads(g, n, Again(step, k))
    ensures Reads(g, n, Again(step, last)) && !Reads(g, n, Again(step, last + 1))
    decreases level(n) - k
  {
    if Reads(g, n, Again(step, k + 1)) {
      ReadingsAreShort(g, level, n, Again(step, k + 1));
      last := LastAgain(g, level, n, step, k + 1);
    } else {
      last := k;
    }
  }

  /** A head whose links all lead to the head it is merged into: the merge drops them and changes nothing.
      The readings lost are exactly those that go through such a link and are not readable from the kept
      head itself; on a graph whose links go down that is at least one as soon as there is a link. */
  lemma SelfMergeLoses(g: Graph, kept: NodeRef, gone: NodeRef, level: NodeRef -> nat, fuel: nat)
    requires Closed(g) && kept in g && gone in g && LeadsOnlyTo(g, gone, kept) && GoesDown(g, level)
    ensures MergedAt(g, kept, gone, fuel) == Some(Splice(g, g[gone].links != []))
    ensures (exists path :: Reads(g, gone, path) && !Reads(g, kept, path)) <==> g[gone].links != []
  {
    SelfLinksAreDropped(g, kept, gone, |g[gone].links|, fuel);
    if g[gone].links != [] {
      var step := StepOf(g, g[gone].links[0]);
      assert Reads(g, kept, Again(step, 0));
      var last := LastAgain(g, level, kept, step, 0);
      ReadsVia(g, gone, 0, Again(step, last));
      assert Again(step, last + 1) == [step] + Again(step, last);
    }
  }

  // ---------------------------------------------------------------- cycles

  /** One node leads down to another along links, or is it. */
  ghost predicate LeadsTo(g: Graph, n: NodeRef, end: NodeRef) { exists ls :: LinkPath(g, n, ls, end) }

  ghost predicate Acyclic(g: Graph) { forall n, ls :: ls != [] ==> !LinkPath(g, n, ls, n) }

  lemma {:induction false} PathsJoin(g: Graph, n: NodeRef, a: seq<Link>, mid: NodeRef, b: seq<Link>, end: NodeRef)
    requires LinkPath(g, n, a, mid) && LinkPath(g, mid, b, end)
    ensures LinkPath(g, n, a + b, end)
    decreases |a|
  {
    if a == [] {
      assert a + b == b;
    } else {
      assert (a + b)[0] == a[0] && (a + b)[1..] == a[1..] + b;
      PathsJoin(g, a[0].node, a[1..], mid, b, end);
    }
  }

  lemma LeadsOn(g: Graph, n: NodeRef, mid: NodeRef, end: NodeRef)
    requires LeadsTo(g, n, mid) && LeadsTo(g, mid, end)
    ensures LeadsTo(g, n, end)
  {
    var a :| LinkPath(g, n, a, mid);
    var b :| LinkPath(g, mid, b, end);
    PathsJoin(g, n, a, mid, b, end);
  }

  lemma {:induction false} PathStays(g: Graph, g': Graph, n: NodeRef, ls: seq<Link>, end: NodeRef)
    requires LinkPath(g, n, ls, end) && forall k :: k in g ==> k in g' && forall l :: l in g[k].links ==> l in g'[k].links
    ensures LinkPath(g', n, ls, end)
    decreases |ls|
  {
    if ls != [] { PathStays(g, g', ls[0].node, ls[1..], end); }
  }

  /** A path after a link was appended was there before, or passes the new link. */
  lemma {:induction false} PathsAppended(g: Graph, self: NodeRef, link: Link, below: StackNode, n: NodeRef, ls: seq<Link>, end: NodeRef)
    requires self in g && LinkPath(g[self := Appended(g[self], link, below)], n, ls, end)
    ensures LinkPath(g, n, ls, end) || (LeadsTo(g, n, self) && LeadsTo(g, link.node, end))
    decreases |ls|
  {
    hide Appended, LeadsTo;
    var g' := g[self := Appended(g[self], link, below)];
    AppendedLinks(g[self], link, below);
    if ls != [] {
      var m := ls[0].node;
      PathsAppended(g, self, link, below, m, ls[1..], end);
      LeadsHere(g, n);
      if n in g && ls[0] in g[n].links {
        LeadsFirst(g, n, ls[0]);
        if LeadsTo(g, m, self) { LeadsOn(g, n, m, self); }
      } else {
        assert n == self && ls[0] == link;
        if LinkPath(g, m, ls[1..], end) { LeadsAlong(g, m, ls[1..], end); }
      }
    }
  }

  lemma AppendedLinks(n: StackNode, link: Link, below: StackNode)
    ensures Appended(n, link, below).links == n.links + [link]
  {
  }

  lemma LeadsHere(g: Graph, n: NodeRef)
    ensures LeadsTo(g, n, n)
  {
    assert LinkPath(g, n, [], n);
  }

  lemma LeadsFirst(g: Graph, n: NodeRef, link: Link)
    requires n in g && link in g[n].links
    ensures LeadsTo(g, n, link.node)
  {
    assert [link][1..] == [];
    assert LinkPath(g, link.node, [], link.node);
    assert LinkPath(g, n, [link], link.node);
  }

  lemma LeadsAlong(g: Graph, n: NodeRef, ls: seq<Link>, end: NodeRef)
    requires LinkPath(g, n, ls, end)
    ensures LeadsTo(g, n, end)
  {
  }

  /** Appending a link to an acyclic graph keeps it acyclic exactly when the link does not lead back. */
  lemma AppendKeepsAcyclic(g: Graph, self: NodeRef, link: Link, below: StackNode)
    requires self in g && Acyclic(g)
    ensures Acyclic(g[self := Appended(g[self], link, below)]) <==> !LeadsTo(g, link.node, self)
  {
    var g' := g[self := Appended(g[self], link, below)];
    AppendedLinks(g[self], link, below);
    hide Appended;
    if LeadsTo(g, link.node, self) {
      var ls :| LinkPath(g, link.node, ls, self);
      PathStays(g, g', link.node, ls, self);
      assert ([link] + ls)[1..] == ls && link in g'[self].links;
      assert LinkPath(g', self, [link] + ls, self);
    } else {
      forall n, ls | ls != [] ensures !LinkPath(g', n, ls, n) {
        if LinkPath(g', n, ls, n) {
          PathsAppended(g, self, link, below, n, ls, n);
          if LeadsTo(g, n, self) && LeadsTo(g, link.node, n) { LeadsOn(g, link.node, n, self); }
        }
      }
    }
  }

  /** A head with one link, as every push makes: where no link of the head that stays takes it in, merging appends it,
      and an acyclic graph stays so exactly when that link does not lead back to the head that stays. */
  lemma MergeKeepsAcyclic(g: Graph, kept: NodeRef, gone: NodeRef, fuel: nat)
    requires Closed(g) && kept in g && gone in g && |g[gone].links| == 1 && Acyclic(g)
    requires var link := g[gone].links[0];
      link.node != kept && Taker(g, kept, link, 0) == |g[kept].links|
    ensures var m := MergedAt(g, kept, gone, fuel);
      m.Some? && !m.value.dropped && (Acyclic(m.value.graph) <==> !LeadsTo(g, g[gone].links[0].node, kept))
  {
    hide Acyclic, LeadsTo, AddLinkAt, Appended, Taker;
    var link := g[gone].links[0];
    var g' := g[kept := Appended(g[kept], link, g[link.node])];
    NothingAdded(g, kept, gone, fuel);
    TakerEnds(g, kept, link, |g[kept].links|);
    AppendedAdded(g, g', kept, link, fuel);
    AppendKeepsAcyclic(g, kept, link, g[link.node]);
  }

  lemma {:induction false} PathFalls(g: Graph, level: NodeRef -> nat, n: NodeRef, ls: seq<Link>, end: NodeRef)
    requires GoesDown(g, level) && LinkPath(g, n, ls, end)
    ensures level(end) <= level(n) && (ls != [] ==> level(end) < level(n))
    decreases |ls|
  {
    if ls != [] {
      var i :| 0 <= i < |g[n].links| && g[n].links[i] == ls[0];
      PathFalls(g, level, ls[0].node, ls[1..], end);
    }
  }

  /** Where links go down there is no cycle; on a ranked graph they do. */
  lemma DownIsAcyclic(g: Graph, level: NodeRef -> nat)
    requires GoesDown(g, level)
    ensures Acyclic(g)
  {
    forall n, ls | ls != [] ensures !LinkPath(g, n, ls, n) {
      if LinkPath(g, n, ls, n) { PathFalls(g, level, n, ls, n); }
    }
  }

  function RankAt(g: Graph, rank: Key -> nat, n: NodeRef): nat { if n in g then rank(KeyOf(g[n])) else 0 }

  lemma RankedIsAcyclic(g: Graph, rank: Key -> nat)
    requires Closed(g) && Ranked(g, rank)
    ensures Acyclic(g)
  {
    DownIsAcyclic(g, (n: NodeRef) => RankAt(g, rank, n));
  }
}
