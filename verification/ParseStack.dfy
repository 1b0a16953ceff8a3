/** The parse stack's operations on its shared graph (stack.go:126-225, 424-432, 547-604):
    push, the recursive link splicing, and merge. */
module ParseStacks {
  import opened Lengths
  import opened Trees
  import opened EditSpec
  import opened StackGraph
  import opened StackPaths
  import opened LinkSplices

  const ERROR_STATE := 0

  datatype Status = Active | Paused | Halted

  datatype Head = Head(node: NodeRef, nodeCountAtLastError: nat, lastExternalToken: Option<Tree>,
                       lookaheadWhenPaused: Option<Tree>, status: Status)

  ghost predicate AllIn(g: Graph, heads: seq<Head>) {
    forall v :: 0 <= v < |heads| ==> heads[v].node in g
  }

  /** stackNodeNew on top of an existing node. */
  function NewNode(g: Graph, previous: NodeRef, s: Option<Tree>, pending: bool, state: nat): StackNode
    requires previous in g
  {
    var p := g[previous];
    StackNode(state, if s.Some? then Add(p.position, s.value.Total()) else p.position,
              [Link(previous, s, pending)],
              p.errorCost + Cost(s), p.nodeCount + NodeCount(s), p.dynamicPrecedence + Precedence(s))
  }

  /** What splicing a link into a node does to the graph. */
  ghost predicate Spliced(g: Graph, g': Graph, rank: Key -> nat, self: NodeRef, link: Link) {
    && self in g && link.node in g
    && WellFormed(g') && Ranked(g', rank) && Extends(g, g')
    && (forall path :: Reads(g, link.node, path) ==> Reads(g', self, [StepOf(g, link)] + path))
    && (forall k, s, k' :: Edge(g', k, s, k') ==>
          Edge(g, k, s, k') || (k == KeyOf(g[self]) && s == link.subtree && k' == KeyOf(g[link.node])))
  }

  ghost predicate NoNewEdges(g: Graph, g': Graph) {
    forall k, s, k' :: Edge(g', k, s, k') ==> Edge(g, k, s, k')
  }

  /** The counters of a node may change freely: no statement below looks at them. */
  lemma CountersOnly(g: Graph, g': Graph, rank: Key -> nat)
    requires WellFormed(g) && Ranked(g, rank) && g.Keys == g'.Keys
    requires forall n :: n in g ==> KeyOf(g'[n]) == KeyOf(g[n]) && g'[n].links == g[n].links
    ensures WellFormed(g') && Ranked(g', rank) && Extends(g, g') && NoNewEdges(g, g')
  {
    forall k, s, k' | Edge(g', k, s, k') ensures Edge(g, k, s, k') {
      var n, i :| n in g' && 0 <= i < |g'[n].links| && g'[n].links[i].node in g'
               && KeyOf(g'[n]) == k && g'[n].links[i].subtree == s && KeyOf(g'[g'[n].links[i].node]) == k';
      assert KeyOf(g[n]) == k && g[n].links[i].subtree == s && KeyOf(g[g[n].links[i].node]) == k';
    }
  }

  /** A path through the link is readable in g' as soon as self has, in g', a link with the
      same label to a node that reads at least what link.node read. */
  lemma ReadsThrough(g: Graph, g': Graph, self: NodeRef, link: Link, i: nat)
    requires self in g' && i < |g'[self].links| && link.node in g && g'[self].links[i].node in g'
    requires StepOf(g', g'[self].links[i]) == StepOf(g, link)
    requires forall path :: Reads(g, link.node, path) ==> Reads(g', g'[self].links[i].node, path)
    ensures forall path :: Reads(g, link.node, path) ==> Reads(g', self, [StepOf(g, link)] + path)
  {
    forall path | Reads(g, link.node, path) ensures Reads(g', self, [StepOf(g, link)] + path) {
      var whole := [StepOf(g, link)] + path;
      assert whole[1..] == path;
    }
  }

  lemma SameReads(g: Graph, g': Graph, n: NodeRef)
    requires Extends(g, g')
    ensures forall path :: Reads(g, n, path) ==> Reads(g', n, path)
  {
    forall path | Reads(g, n, path) ensures Reads(g', n, path) {
      ExtendsReads(g, g', n, path);
    }
  }

  /** Case 1: an equivalent link to the same node gives way to the new subtree. */
  lemma ReplaceSplices(g: Graph, g': Graph, rank: Key -> nat, self: NodeRef, link: Link, i: nat)
    requires WellFormed(g) && Ranked(g, rank) && self in g && link.node in g && i < |g[self].links|
    requires Fits(KeyOf(g[self]), link, KeyOf(g[link.node]))
    requires g[self].links[i].node == link.node && Label(g[self].links[i].subtree) == Label(link.subtree)
    requires g'.Keys == g.Keys && forall n :: n in g && n != self ==> g'[n] == g[n]
    requires KeyOf(g'[self]) == KeyOf(g[self])
    requires g'[self].links == g[self].links || g'[self].links == g[self].links[i := g[self].links[i].(subtree := link.subtree)]
    ensures Spliced(g, g', rank, self, link)
  {
    assert Extends(g, g');
    SameReads(g, g', link.node);
    ReadsThrough(g, g', self, link, i);
    LinkEdges(g, g', self, link);
  }

  lemma LinkEdges(g: Graph, g': Graph, self: NodeRef, link: Link)
    requires self in g && link.node in g && WellFormed(g)
    requires g'.Keys == g.Keys && forall n :: n in g ==> KeyOf(g'[n]) == KeyOf(g[n])
    requires forall n :: n in g && n != self ==> g'[n] == g[n]
    requires forall j :: 0 <= j < |g'[self].links| ==>
               (j < |g[self].links| && g'[self].links[j] == g[self].links[j])
               || (g'[self].links[j].node == link.node && g'[self].links[j].subtree == link.subtree)
    ensures forall k, s, k' :: Edge(g', k, s, k') ==>
              Edge(g, k, s, k') || (k == KeyOf(g[self]) && s == link.subtree && k' == KeyOf(g[link.node]))
  {
    forall k, s, k' | Edge(g', k, s, k')
      ensures Edge(g, k, s, k') || (k == KeyOf(g[self]) && s == link.subtree && k' == KeyOf(g[link.node]))
    {
      var n, j :| n in g' && 0 <= j < |g'[n].links| && g'[n].links[j].node in g'
               && KeyOf(g'[n]) == k && g'[n].links[j].subtree == s && KeyOf(g'[g'[n].links[j].node]) == k';
      if j < |g[n].links| && g'[n].links[j] == g[n].links[j] {
        assert KeyOf(g[n]) == k && g[n].links[j].subtree == s && KeyOf(g[g[n].links[j].node]) == k';
      }
    }
  }

  /** Case 3: no equivalent link could take it, so the link is appended. */
  lemma AppendSplices(g: Graph, g': Graph, rank: Key -> nat, self: NodeRef, link: Link)
    requires WellFormed(g) && Ranked(g, rank) && self in g && link.node in g
    requires Fits(KeyOf(g[self]), link, KeyOf(g[link.node])) && rank(KeyOf(g[link.node])) < rank(KeyOf(g[self]))
    requires g'.Keys == g.Keys && forall n :: n in g && n != self ==> g'[n] == g[n]
    requires KeyOf(g'[self]) == KeyOf(g[self]) && g'[self].links == g[self].links + [link]
    ensures Spliced(g, g', rank, self, link)
  {
    assert Extends(g, g');
    SameReads(g, g', link.node);
    ReadsThrough(g, g', self, link, |g[self].links|);
    LinkEdges(g, g', self, link);
  }

  /** Case 2, in progress: the first j links of link.node have been spliced into its
      equivalent, the node `into`. */
  ghost predicate Splicing(g: Graph, g': Graph, rank: Key -> nat, into: NodeRef, from: NodeRef, j: nat) {
    && into in g && from in g && j <= |g[from].links|
    && WellFormed(g') && Ranked(g', rank) && Extends(g, g') && NoNewEdges(g, g')
    && forall i, path :: 0 <= i < j && g[from].links[i].node in g && Reads(g, g[from].links[i].node, path) ==>
         Reads(g', into, [StepOf(g, g[from].links[i])] + path)
  }

  lemma SplicingStep(g: Graph, g1: Graph, g2: Graph, rank: Key -> nat, into: NodeRef, from: NodeRef, j: nat)
    requires WellFormed(g) && Splicing(g, g1, rank, into, from, j) && j < |g[from].links|
    requires KeyOf(g[into]) == KeyOf(g[from])
    requires j < |g1[from].links| && Spliced(g1, g2, rank, into, g1[from].links[j])
    ensures Splicing(g, g2, rank, into, from, j + 1)
  {
    var link := g1[from].links[j];
    ExtendsTransitive(g, g1, g2);
    assert g[from].links[j].node == link.node && StepOf(g, g[from].links[j]) == StepOf(g1, link);
    forall i, path | 0 <= i < j + 1 && g[from].links[i].node in g && Reads(g, g[from].links[i].node, path)
      ensures Reads(g2, into, [StepOf(g, g[from].links[i])] + path)
    {
      if i < j {
        ExtendsReads(g1, g2, into, [StepOf(g, g[from].links[i])] + path);
      } else {
        ExtendsReads(g, g1, link.node, path);
      }
    }
    assert Edge(g1, KeyOf(g1[from]), link.subtree, KeyOf(g1[link.node]));
  }

  lemma SplicingDone(g: Graph, g': Graph, rank: Key -> nat, self: NodeRef, i: nat, link: Link)
    requires WellFormed(g) && self in g && link.node in g && i < |g[self].links|
    requires Label(g[self].links[i].subtree) == Label(link.subtree)
    requires g[self].links[i].node in g && KeyOf(g[g[self].links[i].node]) == KeyOf(g[link.node])
    requires Splicing(g, g', rank, g[self].links[i].node, link.node, |g[link.node].links|)
    ensures Spliced(g, g', rank, self, link) && self in g' && link.node in g'
  {
    SplicedAll(g, g', rank, g[self].links[i].node, link.node);
    ReadsThrough(g, g', self, link, i);
  }

  /** Once every link is spliced in, `into` reads whatever `from` read. */
  lemma SplicedAll(g: Graph, g': Graph, rank: Key -> nat, into: NodeRef, from: NodeRef)
    requires from in g && Splicing(g, g', rank, into, from, |g[from].links|)
    ensures forall path :: Reads(g, from, path) ==> Reads(g', into, path)
  {
    forall path | Reads(g, from, path) ensures Reads(g', into, path) {
      if path != [] {
        var j :| 0 <= j < |g[from].links| && g[from].links[j].node in g
              && StepOf(g, g[from].links[j]) == path[0] && Reads(g, g[from].links[j].node, path[1..]);
        assert path == [path[0]] + path[1..];
      }
    }
  }

  lemma SplicedThenCounters(g: Graph, g1: Graph, g2: Graph, rank: Key -> nat, self: NodeRef, link: Link)
    requires Spliced(g, g1, rank, self, link) && g1.Keys == g2.Keys
    requires forall n :: n in g1 ==> KeyOf(g2[n]) == KeyOf(g1[n]) && g2[n].links == g1[n].links
    ensures Spliced(g, g2, rank, self, link)
  {
    CountersOnly(g1, g2, rank);
    ExtendsTransitive(g, g1, g2);
    SameReads(g1, g2, self);
  }

  lemma LinkIn(g: Graph, rank: Key -> nat, n: NodeRef, i: nat)
    requires WellFormed(g) && Ranked(g, rank) && n in g && i < |g[n].links|
    ensures g[n].links[i].node in g && rank(KeyOf(g[g[n].links[i].node])) < rank(KeyOf(g[n]))
    ensures Fits(KeyOf(g[n]), g[n].links[i], KeyOf(g[g[n].links[i].node]))
  {
  }

  lemma SplicingStart(g: Graph, rank: Key -> nat, into: NodeRef, from: NodeRef)
    requires WellFormed(g) && Ranked(g, rank) && into in g && from in g
    ensures Splicing(g, g, rank, into, from, 0)
  {
  }

  /** The next link to splice still fits, and its rank allows the recursive call. */
  lemma SplicingLink(g: Graph, g': Graph, rank: Key -> nat, into: NodeRef, from: NodeRef, j: nat)
    requires Splicing(g, g', rank, into, from, j) && j < |g[from].links|
    requires KeyOf(g[into]) == KeyOf(g[from])
    ensures WellFormed(g') && Ranked(g', rank) && into in g' && from in g' && j < |g'[from].links|
    ensures KeyOf(g'[into]) == KeyOf(g[into]) && g'[from].links[j].node in g'
    ensures Fits(KeyOf(g'[into]), g'[from].links[j], KeyOf(g'[g'[from].links[j].node]))
    ensures rank(KeyOf(g'[g'[from].links[j].node])) < rank(KeyOf(g'[into]))
  {
  }

  /** One result of a pop: the subtrees, and the head created at the node they end on. */
  datatype Slice = Slice(subtrees: seq<Tree>, version: nat)

  predicate Versioned(slices: seq<Slice>, heads: seq<Head>) {
    forall k :: 0 <= k < |slices| ==> slices[k].version < |heads|
  }

  ghost function SliceBag(slices: seq<Slice>, heads: seq<Head>): Bag
    requires Versioned(slices, heads)
  {
    if slices == [] then multiset{} else
    multiset{(slices[0].subtrees, heads[slices[0].version].node)} + SliceBag(slices[1..], heads)
  }

  /** Slices come in ascending runs, one run per version created by the pop, and distinct
      versions sit on distinct nodes. */
  ghost predicate Grouped(slices: seq<Slice>, heads: seq<Head>, first: nat) {
    && first <= |heads|
    && (forall k :: 0 <= k < |slices| ==> first <= slices[k].version < |heads|)
    && (forall j, k :: 0 <= j < k < |slices| ==> slices[j].version <= slices[k].version)
    && (forall v, w :: first <= v < |heads| && first <= w < |heads| && heads[v].node == heads[w].node ==> v == w)
    && (forall v :: first <= v < |heads| ==> HasSlice(slices, v))
  }

  predicate HasSlice(slices: seq<Slice>, v: nat) {
    exists k :: 0 <= k < |slices| && slices[k].version == v
  }

  lemma {:induction false} SliceBagAppend(a: seq<Slice>, b: seq<Slice>, heads: seq<Head>)
    requires Versioned(a, heads) && Versioned(b, heads)
    ensures SliceBag(a + b, heads) == SliceBag(a, heads) + SliceBag(b, heads)
    decreases |a|
  {
    if a == [] {
      assert a + b == b;
    } else {
      assert (a + b)[1..] == a[1..] + b;
      SliceBagAppend(a[1..], b, heads);
    }
  }

  lemma {:induction false} SliceBagMoreHeads(a: seq<Slice>, heads: seq<Head>, more: seq<Head>)
    requires Versioned(a, heads)
    ensures SliceBag(a, heads + more) == SliceBag(a, heads)
    decreases |a|
  {
    if a != [] {
      SliceBagMoreHeads(a[1..], heads, more);
    }
  }

  function Inserted(slices: seq<Slice>, i: nat, s: Slice): (r: seq<Slice>)
    requires i < |slices|
    ensures |r| == |slices| + 1
    ensures forall k :: 0 <= k < |r| ==> r[k] == if k <= i then slices[k] else if k == i + 1 then s else slices[k - 1]
  {
    slices[..i + 1] + [s] + slices[i + 1..]
  }

  /** A slice placed after the last one of its version keeps the runs together. */
  lemma InsertGrouped(slices: seq<Slice>, heads: seq<Head>, first: nat, i: nat, subtrees: seq<Tree>)
    requires Grouped(slices, heads, first) && i < |slices|
    requires forall k :: i < k < |slices| ==> heads[slices[k].version].node != heads[slices[i].version].node
    ensures Grouped(Inserted(slices, i, Slice(subtrees, slices[i].version)), heads, first)
  {
    var slices' := Inserted(slices, i, Slice(subtrees, slices[i].version));
    hide Inserted;
    forall v | first <= v < |heads| ensures HasSlice(slices', v) {
      assert HasSlice(slices, v);
      var k :| 0 <= k < |slices| && slices[k].version == v;
      assert slices'[if k <= i then k else k + 1] == slices[k];
    }
  }

  lemma InsertBag(slices: seq<Slice>, heads: seq<Head>, i: nat, s: Slice)
    requires i < |slices| && s.version < |heads| && Versioned(slices, heads)
    ensures SliceBag(Inserted(slices, i, s), heads) == SliceBag(slices, heads) + multiset{(s.subtrees, heads[s.version].node)}
  {
    hide SliceBag;
    var a, b := slices[..i + 1], slices[i + 1..];
    assert slices == a + b;
    SliceBagAppend(a, b, heads);
    SliceBagAppend(a + [s], b, heads);
    SliceBagAppend(a, [s], heads);
    SliceBagSingle(s, heads);
  }

  lemma SliceBagSingle(s: Slice, heads: seq<Head>)
    requires s.version < |heads|
    ensures SliceBag([s], heads) == multiset{(s.subtrees, heads[s.version].node)}
  {
    assert [s][1..] == [];
  }

  lemma AppendGrouped(slices: seq<Slice>, heads: seq<Head>, first: nat, head: Head, subtrees: seq<Tree>)
    requires Grouped(slices, heads, first)
    requires forall k :: 0 <= k < |slices| ==> heads[slices[k].version].node != head.node
    ensures Grouped(slices + [Slice(subtrees, |heads|)], heads + [head], first)
  {
    var slices', heads' := slices + [Slice(subtrees, |heads|)], heads + [head];
    forall v | first <= v < |heads'| ensures HasSlice(slices', v) {
      if v < |heads| {
        assert HasSlice(slices, v);
        var k :| 0 <= k < |slices| && slices[k].version == v;
        assert slices'[k].version == v;
      } else {
        assert slices'[|slices|].version == v;
      }
    }
    forall v | first <= v < |heads| ensures heads[v].node != head.node {
      assert HasSlice(slices, v);
    }
  }

  lemma AppendBag(slices: seq<Slice>, heads: seq<Head>, head: Head, subtrees: seq<Tree>)
    requires Versioned(slices, heads)
    ensures SliceBag(slices + [Slice(subtrees, |heads|)], heads + [head])
         == SliceBag(slices, heads) + multiset{(subtrees, head.node)}
  {
    var s := Slice(subtrees, |heads|);
    SliceBagMoreHeads(slices, heads, [head]);
    SliceBagAppend(slices, [s], heads + [head]);
    assert [s][1..] == [];
  }

  // ---------------------------------------------------------------- the methods as functions of the graph

  lemma FormedCloses(g: Graph)
    requires WellFormed(g)
    ensures Closed(g)
  {
  }

  /** One more link of a node added to another. */
  lemma SpliceNext(g0: Graph, g: Graph, g': Graph, into: NodeRef, from: NodeRef, j: nat, spent: nat, fuel: nat)
    requires Closed(g0) && into in g0 && from in g0 && j < |g0[from].links| && spent <= fuel
    requires AddAllAt(g0, into, from, j, fuel) == Some(Splice(g, false))
    requires into in g && from in g && j < |g[from].links| && g[from].links[j].node in g && Closed(g)
    requires AddLinkAt(g, into, g[from].links[j], spent) == Some(Splice(g', false))
    ensures AddAllAt(g0, into, from, j + 1, fuel) == Some(Splice(g', false))
  {
    hide AddLinkAt, Closed;
    MoreFuel(g, into, g[from].links[j], spent, fuel);
  }

  // ---------------------------------------------------------------- why the stack must be ranked

  /** A fresh stack with a subtree pushed into some state. */
  function PushedOnce(t: Tree, state: nat): Graph {
    var base: Graph := map[0 := StackNode(1, ZERO, [], 0, 0, 0)];
    base[1 := NewNode(base, 0, Some(t), false, state)]
  }

  /** And pushed once more, into the same state, on a copy of that head. */
  function PushedTwice(t: Tree, state: nat): Graph {
    PushedOnce(t, state)[2 := NewNode(PushedOnce(t, state), 1, Some(t), false, state)]
  }

  lemma PushedLinks(t: Tree, state: nat)
    ensures var g := PushedTwice(t, state);
      && g.Keys == {0, 1, 2} && g[0].links == [] && KeyOf(g[0]) == Key(1, 0, 0)
      && g[1].links == [Link(0, Some(t), false)] && g[2].links == [Link(1, Some(t), false)]
      && KeyOf(g[1]) == Key(state, t.Total().bytes, t.ErrorCost())
      && KeyOf(g[2]) == Key(state, 2 * t.Total().bytes, 2 * t.ErrorCost())
  {
  }

  /** Without a rank a merge can lose a parse.  A leaf of no width and no cost, as an external scanner may
      produce, pushed twice: the two heads agree on state, position and cost, so they merge; the second one's
      only link leads to the first, is dropped, and with it the reading of two leaves. */
  lemma PushedTwiceLosesAParse(t: Tree, state: nat, fuel: nat)
    requires t.Total().bytes == 0 && t.ErrorCost() == 0
    ensures var g := PushedTwice(t, state);
      var two := [Step(Some(t.Symbol()), state), Step(Some(t.Symbol()), 1)];
      && WellFormed(g) && Closed(g) && g.Keys == {0, 1, 2} && KeyOf(g[1]) == KeyOf(g[2])
      && MergedAt(g, 1, 2, fuel) == Some(Splice(g, true))
      && Reads(g, 2, two) && !Reads(g, 1, two)
  {
    var g := PushedTwice(t, state);
    PushedLinks(t, state);
    hide PushedTwice, AddAllAt, Reads;
    SelfLinksAreDropped(g, 1, 2, 1, fuel);
    var a, b := Step(Some(t.Symbol()), 1), Step(Some(t.Symbol()), state);
    assert StepOf(g, g[1].links[0]) == a && StepOf(g, g[2].links[0]) == b;
    var level := (n: NodeRef) => n;
    assert GoesDown(g, level);
    if Reads(g, 1, [b, a]) { ReadingsAreShort(g, level, 1, [b, a]); }
    TwoSteps(g, a, b);
  }

  function PushedThrice(t: Tree, state: nat): Graph {
    PushedTwice(t, state)[3 := NewNode(PushedTwice(t, state), 2, Some(t), false, state)]
  }

  lemma ThriceLinks(t: Tree, state: nat)
    ensures var g := PushedThrice(t, state);
      && g.Keys == {0, 1, 2, 3} && g[0].links == [] && KeyOf(g[0]) == Key(1, 0, 0)
      && g[1].links == [Link(0, Some(t), false)] && g[2].links == [Link(1, Some(t), false)]
      && g[3].links == [Link(2, Some(t), false)]
      && KeyOf(g[1]) == Key(state, t.Total().bytes, t.ErrorCost())
      && KeyOf(g[2]) == Key(state, 2 * t.Total().bytes, 2 * t.ErrorCost())
      && KeyOf(g[3]) == Key(state, 3 * t.Total().bytes, 3 * t.ErrorCost())
  {
    PushedLinks(t, state);
  }

  /** Nor can it be trusted to keep the graph acyclic.  The same leaf pushed three times, and the third head merged
      into the first: nothing is dropped, but the first head then leads to the second, which leads to the first. */
  lemma PushedThriceMakesACycle(t: Tree, state: nat, fuel: nat)
    requires t.Total().bytes == 0 && t.ErrorCost() == 0 && state != 1
    ensures var g := PushedThrice(t, state);
      && Closed(g) && g.Keys == {0, 1, 2, 3} && KeyOf(g[1]) == KeyOf(g[3]) && Acyclic(g)
      && var m := MergedAt(g, 1, 3, fuel); m.Some? && !m.value.dropped && !Acyclic(m.value.graph)
  {
    var g := PushedThrice(t, state);
    ThriceLinks(t, state);
    hide PushedThrice, AddAllAt, AddLinkAt, Acyclic, LeadsTo;
    DownIsAcyclic(g, (n: NodeRef) => n);
    TakerHere(g, 1, g[3].links[0], 0);
    LeadsFirst(g, 2, g[2].links[0]);
    MergeKeepsAcyclic(g, 1, 3, fuel);
  }

  lemma TwoSteps(g: Graph, a: Step, b: Step)
    requires g.Keys == {0, 1, 2} && |g[1].links| == 1 && |g[2].links| == 1 && g[1].links[0].node == 0 && g[2].links[0].node == 1
    requires StepOf(g, g[1].links[0]) == a && StepOf(g, g[2].links[0]) == b
    ensures Reads(g, 2, [b, a])
  {
    assert Reads(g, 0, []);
    ReadsVia(g, 1, 0, []);
    assert [a] + [] == [a] && [b] + [a] == [b, a];
    ReadsVia(g, 2, 0, [a]);
  }

  class ParseStack {
    var nodes: Graph
    var next: NodeRef
    var heads: seq<Head>
    var slices: seq<Slice>
    var iterators: seq<Iterator>

    ghost predicate Valid(rank: Key -> nat)
      reads this
    {
      && WellFormed(nodes) && Ranked(nodes, rank) && AllIn(nodes, heads)
      && forall n :: n in nodes ==> n < next
    }

    /** stackNodeAddLink.  The link joins an equivalent one, is spliced into it, or is
        appended; in every case each sequence readable through it is readable afterwards.  A link
        back to the node itself is dropped. */
    method AddLink(self: NodeRef, link: Link, ghost rank: Key -> nat)
      requires WellFormed(nodes) && Ranked(nodes, rank) && self in nodes && link.node in nodes
      requires Fits(KeyOf(nodes[self]), link, KeyOf(nodes[link.node]))
      requires link.node != self ==> rank(KeyOf(nodes[link.node])) < rank(KeyOf(nodes[self]))
      modifies `nodes
      ensures link.node != self ==> Spliced(old(nodes), nodes, rank, self, link)
      ensures link.node == self ==> nodes == old(nodes)
      ensures Closed(old(nodes)) &&
              AddLinkAt(old(nodes), self, link, rank(KeyOf(old(nodes)[self]))) == Some(Splice(nodes, link.node == self))
      decreases rank(KeyOf(nodes[self]))
    {
      hide Spliced, Splicing, WellFormed, Ranked, Extends, Reads, Closed, Grew, AddLinkAt, AddAllAt, Taker;
      FormedCloses(nodes);
      ghost var fuel := rank(KeyOf(nodes[self]));
      if link.node == self {
        SelfAdded(nodes, self, link, fuel);
        return;
      }
      var i := 0;
      while i < |nodes[self].links|
        invariant nodes == old(nodes) && 0 <= i <= |nodes[self].links|
        invariant Taker(nodes, self, link, 0) == Taker(nodes, self, link, i)
      {
        var existing := nodes[self].links[i];
        LinkIn(nodes, rank, self, i);
        TakerHere(nodes, self, link, i);
        if Equivalent(existing.subtree, link.subtree) {
          if existing.node == link.node {
            if Precedence(link.subtree) > Precedence(existing.subtree) {
              var replaced := nodes[self].links[i := existing.(subtree := link.subtree)];
              nodes := nodes[self := nodes[self].(links := replaced,
                         dynamicPrecedence := nodes[link.node].dynamicPrecedence + Precedence(link.subtree))];
            }
            ReplaceSplices(old(nodes), nodes, rank, self, link, i);
            ReplacedAdded(old(nodes), nodes, self, link, fuel);
            return;
          }
          if KeyOf(nodes[existing.node]) == KeyOf(nodes[link.node]) {
            var count := |nodes[link.node].links|;
            SplicingStart(nodes, rank, existing.node, link.node);
            NothingAdded(nodes, existing.node, link.node, fuel - 1);
            for j := 0 to count
              invariant Splicing(old(nodes), nodes, rank, existing.node, link.node, j)
              invariant AddAllAt(old(nodes), existing.node, link.node, j, fuel - 1) == Some(Splice(nodes, false))
            {
              ghost var g := nodes;
              SplicingLink(old(nodes), g, rank, existing.node, link.node, j);
              FormedCloses(g);
              AddLink(existing.node, nodes[link.node].links[j], rank);
              SplicingStep(old(nodes), g, nodes, rank, existing.node, link.node, j);
              SpliceNext(old(nodes), g, nodes, existing.node, link.node, j, rank(KeyOf(g[existing.node])), fuel - 1);
            }
            SplicingDone(old(nodes), nodes, rank, self, i, link);
            ghost var spliced := nodes;
            var precedence := nodes[link.node].dynamicPrecedence + Precedence(link.subtree);
            if precedence > nodes[self].dynamicPrecedence {
              nodes := nodes[self := nodes[self].(dynamicPrecedence := precedence)];
            }
            SplicedThenCounters(old(nodes), spliced, nodes, rank, self, link);
            Deeper(old(nodes), self, link, fuel);
            assert nodes == spliced[self := Raised(spliced[self], precedence)];
            return;
          }
        }
        i := i + 1;
      }
      var count := nodes[link.node].nodeCount + NodeCount(link.subtree);
      var precedence := nodes[link.node].dynamicPrecedence + Precedence(link.subtree);
      var n := nodes[self];
      nodes := nodes[self := n.(links := n.links + [link],
                                nodeCount := if count > n.nodeCount then count else n.nodeCount,
                                dynamicPrecedence := if precedence > n.dynamicPrecedence then precedence
                                                     else n.dynamicPrecedence)];
      AppendSplices(old(nodes), nodes, rank, self, link);
      AppendedAdded(old(nodes), nodes, self, link, fuel);
    }

    constructor (ghost rank: Key -> nat)
      ensures Valid(rank) && nodes == map[0 := StackNode(1, ZERO, [], 0, 0, 0)]
      ensures heads == [Head(0, 0, None, None, Active)] && next == 1
    {
      nodes := map[0 := StackNode(1, ZERO, [], 0, 0, 0)];
      next := 1;
      heads := [Head(0, 0, None, None, Active)];
      slices, iterators := [], [];
    }

    /** Pushes a subtree.  The new node's position and cost extend the old head's, and every
        sequence readable from the old head is readable behind the pushed step. */
    method Push(version: nat, s: Option<Tree>, pending: bool, state: nat, ghost rank: Key -> nat)
      requires Valid(rank) && version < |heads|
      requires rank(KeyOf(NewNode(nodes, heads[version].node, s, pending, state)))
             > rank(KeyOf(nodes[heads[version].node]))
      modifies this
      ensures Valid(rank) && next == old(next) + 1
      ensures nodes == old(nodes)[old(next) := NewNode(old(nodes), old(heads)[version].node, s, pending, state)]
      ensures heads == old(heads)[version := old(heads)[version].(node := old(next),
                         nodeCountAtLastError := if s.None? then nodes[old(next)].nodeCount
                                                 else old(heads)[version].nodeCountAtLastError)]
      ensures forall path :: Reads(old(nodes), old(heads)[version].node, path) ==>
                Reads(nodes, heads[version].node, [Step(Label(s), old(nodes)[old(heads)[version].node].state)] + path)
    {
      var previous := heads[version].node;
      var node := NewNode(nodes, previous, s, pending, state);
      nodes := nodes[next := node];
      PushReads(old(nodes), nodes, next, previous);
      var head := heads[version];
      if s.None? {
        head := head.(nodeCountAtLastError := node.nodeCount);
      }
      heads := heads[version := head.(node := next)];
      next := next + 1;
    }

    predicate CanMerge(v1: nat, v2: nat)
      reads this
      requires v1 < |heads| && v2 < |heads| && heads[v1].node in nodes && heads[v2].node in nodes
    {
      && heads[v1].status == Active && heads[v2].status == Active
      && KeyOf(nodes[heads[v1].node]) == KeyOf(nodes[heads[v2].node])
      && TokenState(heads[v1].lastExternalToken) == TokenState(heads[v2].lastExternalToken)
    }

    method RemoveVersion(version: nat)
      requires version < |heads|
      modifies `heads
      ensures heads == old(heads)[..version] + old(heads)[version + 1..]
    {
      heads := heads[..version] + heads[version + 1..];
    }

    /** Merges two heads that agree on state, position, cost and scanner state.  Nothing
        readable from either is lost, nothing readable elsewhere is lost, and every edge of
        the new graph joins nodes whose keys were already joined by the same subtree. */
    method Merge(v1: nat, v2: nat, ghost rank: Key -> nat) returns (merged: bool)
      requires Valid(rank) && v1 < |heads| && v2 < |heads| && v1 != v2
      modifies this
      ensures Valid(rank) && next == old(next)
      ensures merged <==> old(CanMerge(v1, v2))
      ensures !merged ==> nodes == old(nodes) && heads == old(heads)
      ensures merged ==> Merged(old(nodes), nodes, old(heads)[v1].node, old(heads)[v2].node)
      ensures merged ==> var n1, n2 := old(heads)[v1].node, old(heads)[v2].node;
                Closed(old(nodes)) && MergedAt(old(nodes), n1, n2, rank(KeyOf(old(nodes)[n1]))) == Some(Splice(nodes, false))
      ensures merged ==>
                var h := old(heads)[v1];
                var h' := if nodes[h.node].state == ERROR_STATE then h.(nodeCountAtLastError := nodes[h.node].nodeCount) else h;
                heads == old(heads)[v1 := h'][..v2] + old(heads)[v1 := h'][v2 + 1..]
    {
      hide Splicing, WellFormed, Ranked, Extends, Reads, Spliced, Closed, AddLinkAt, AddAllAt;
      if !CanMerge(v1, v2) {
        return false;
      }
      var n1, n2 := heads[v1].node, heads[v2].node;
      var count := |nodes[n2].links|;
      SplicingStart(nodes, rank, n1, n2);
      FormedCloses(nodes);
      ghost var fuel := rank(KeyOf(nodes[n1]));
      NothingAdded(nodes, n1, n2, fuel);
      for i := 0 to count
        invariant heads == old(heads) && next == old(next)
        invariant Splicing(old(nodes), nodes, rank, n1, n2, i)
        invariant AddAllAt(old(nodes), n1, n2, i, fuel) == Some(Splice(nodes, false))
      {
        ghost var g := nodes;
        SplicingLink(old(nodes), g, rank, n1, n2, i);
        FormedCloses(g);
        AddLink(n1, nodes[n2].links[i], rank);
        SplicingStep(old(nodes), g, nodes, rank, n1, n2, i);
        SpliceNext(old(nodes), g, nodes, n1, n2, i, fuel, fuel);
      }
      MergeDone(old(nodes), nodes, rank, n1, n2);
      if nodes[n1].state == ERROR_STATE {
        heads := heads[v1 := heads[v1].(nodeCountAtLastError := nodes[n1].nodeCount)];
      }
      RemoveVersion(v2);
      return true;
    }

    /** addVersion: a new active head, with the original's error mark and external token. */
    method AddVersion(original: nat, node: NodeRef) returns (version: nat)
      requires original < |heads|
      modifies `heads
      ensures version == |old(heads)|
      ensures heads == old(heads) + [Head(node, old(heads)[original].nodeCountAtLastError,
                                          old(heads)[original].lastExternalToken, None, Active)]
    {
      heads := heads + [Head(node, heads[original].nodeCountAtLastError, heads[original].lastExternalToken, None, Active)];
      version := |heads| - 1;
    }

    /** addSlice: next to the slices already ending on the node, or on a new version. */
    method AddSlice(original: nat, node: NodeRef, subtrees: seq<Tree>, ghost first: nat)
      requires original < first && Grouped(slices, heads, first)
      modifies `heads, `slices
      ensures Grouped(slices, heads, first) && old(heads) <= heads
      ensures SliceBag(slices, heads) == SliceBag(old(slices), old(heads)) + multiset{(subtrees, node)}
      ensures forall v :: |old(heads)| <= v < |heads| ==>
                heads[v] == Head(node, old(heads)[original].nodeCountAtLastError,
                                 old(heads)[original].lastExternalToken, None, Active)
    {
      hide Grouped, SliceBag;
      GroupedVersions(slices, heads, first);
      var i := |slices| - 1;
      while i >= 0
        invariant -1 <= i < |slices|
        invariant forall k :: i < k < |slices| ==> heads[slices[k].version].node != node
      {
        var version := slices[i].version;
        if heads[version].node == node {
          InsertGrouped(slices, heads, first, i, subtrees);
          InsertBag(slices, heads, i, Slice(subtrees, version));
          slices := Inserted(slices, i, Slice(subtrees, version));
          return;
        }
        i := i - 1;
      }
      ghost var head := Head(node, heads[original].nodeCountAtLastError, heads[original].lastExternalToken, None, Active);
      AppendGrouped(slices, heads, first, head, subtrees);
      AppendBag(slices, heads, head, subtrees);
      var version := AddVersion(original, node);
      slices := slices + [Slice(subtrees, version)];
    }

    /** Copies of iterator i for its second and later links, in order, as far as the cap allows. */
    method CopyDownLinks(i: nat)
      requires WellFormed(nodes) && Placed(nodes, iterators) && i < |iterators|
      requires 1 <= |nodes[iterators[i].node].links|
      modifies `iterators
      ensures var links := nodes[old(iterators)[i].node].links;
        iterators == old(iterators) + Copies(old(iterators)[i], links, Copied(|old(iterators)|, |links|))
    {
      hide WellFormed;
      ghost var its0 := iterators;
      var links := nodes[iterators[i].node].links;
      assert its0 + Copies(its0[i], links, 0) == its0;
      for j := 1 to |links|
        invariant |its0| <= |iterators| && iterators[i] == its0[i]
        invariant var n := if j - 1 < Copied(|its0|, |links|) then j - 1 else Copied(|its0|, |links|);
          iterators == its0 + Copies(its0[i], links, n)
      {
        if |iterators| < MAX_ITERATOR_COUNT {
          iterators := iterators + [Across(iterators[i], links[j])];
        }
      }
    }

    /** What an iterator's turn delivers. */
    method Deliver(original: nat, it: Iterator, pop: bool, ghost heads0: seq<Head>)
      requires Popping(nodes, heads0, heads, slices, original) && Versioned(slices, heads) && it.node in nodes
      modifies `heads, `slices
      ensures Popping(nodes, heads0, heads, slices, original) && Versioned(slices, heads)
      ensures SliceBag(slices, heads) == SliceBag(old(slices), old(heads))
                + (if pop then multiset{(Reverse(it.subtrees), it.node)} else multiset{})
    {
      hide SliceBag;
      if pop {
        AddSlice(original, it.node, Reverse(it.subtrees), |heads0|);
        GroupedVersions(slices, heads, |heads0|);
      }
    }

    /** One iterator's turn: it delivers, and then leaves the list or moves down, with its copies. */
    method Turn(version: nat, i: nat, callback: Callback, ghost size: nat, ghost bound: nat, ghost heads0: seq<Head>,
                ghost start: Iterator, ghost ended: Bag, ghost short: Bag, ghost capped: bool, ghost rank: Key -> nat)
      returns (stopped: bool, ghost ended': Bag, ghost short': Bag, ghost capped': bool)
      requires WellFormed(nodes) && Ranked(nodes, rank) && start.node in nodes && i < size
      requires Popping(nodes, heads0, heads, slices, version) && Versioned(slices, heads)
      requires Descending(nodes, rank, iterators, i, size, bound) && Placed(nodes, iterators)
      requires Kept(nodes, rank, callback, start, iterators, SliceBag(slices, heads), ended, short, capped)
      modifies `heads, `slices, `iterators
      ensures Popping(nodes, heads0, heads, slices, version) && Versioned(slices, heads)
      ensures var (i', size') := if stopped then (i, size - 1) else (i + 1, size);
        Descending(nodes, rank, iterators, i', size', bound) && Placed(nodes, iterators) && size' <= |iterators|
      ensures Kept(nodes, rank, callback, start, iterators, SliceBag(slices, heads), ended', short', capped')
    {
      hide Popped, PoppedBy, SliceBag, Accounts, WellFormed, Ranked, Following, Popping, Kept, Ending, Short, Ends, PopsAtEnds,
        EndsAt, PopPart, Descending, Copies, Across, Copied, NewHeads;
      DescendingFacts(nodes, rank, iterators, i, size, bound);
      var it := iterators[i];
      var links := nodes[it.node].links;
      var action := callback(it);
      ghost var delivered := SliceBag(slices, heads);
      EndsWhen(nodes, callback, it);
      Deliver(version, it, action.pop, heads0);
      PartIs(callback, it);
      stopped, ended', short', capped' := action.stop || |links| == 0, ended, short, capped;
      if stopped {
        KeptStops(nodes, rank, callback, start, iterators, i, delivered, ended, short, capped);
        ended', short' := ended + PopPart(Ending(nodes, callback), it), short + PopPart(Short(nodes, callback), it);
        DescendingStops(nodes, rank, iterators, i, size, bound);
        iterators := Without(iterators, i);
        DescendingFacts(nodes, rank, iterators, i, size - 1, bound);
      } else {
        ghost var n := Copied(|iterators|, |links|);
        KeptFollows(nodes, rank, callback, start, iterators, i, delivered, ended, short, capped);
        TurnDescends(nodes, rank, iterators, i, n, size, bound);
        CopyDownLinks(i);
        iterators := iterators[i := Across(iterators[i], links[0])];
        capped' := capped || n + 1 < |links|;
        DescendingFacts(nodes, rank, iterators, i + 1, size, bound);
      }
    }

    /** iter: carries iterators down every link until the callback stops them.  With no more than 64 ends to
        reach, whatever is popped is exactly what the links hold.  With more, it is part of that; and when the
        callback pops at ends only, at least 64 of them are reached and as many slices popped, but for ends that
        pop nothing. */
    method Iter(version: nat, callback: Callback, ghost rank: Key -> nat)
      requires Valid(rank) && version < |heads|
      modifies `heads, `slices, `iterators
      ensures Valid(rank) && old(heads) <= heads && Grouped(slices, heads, |old(heads)|)
      ensures var start := Iterator(old(heads)[version].node, [], 0, true);
        var all, ends := Popped(nodes, rank, callback, start), Ends(nodes, rank, callback, start);
        && SliceBag(slices, heads) <= all && (ends <= MAX_ITERATOR_COUNT ==> SliceBag(slices, heads) == all)
        && (PopsAtEnds(nodes, callback) ==>
              |all| <= ends
              && |slices| + (ends - |all|) >= if ends < MAX_ITERATOR_COUNT then ends else MAX_ITERATOR_COUNT)
      ensures NewHeads(old(heads), heads, version)
    {
      hide Popped, PoppedBy, SliceBag, Accounts, WellFormed, Ranked, Following, Popping, Kept, Ending, Short, Ends, PopsAtEnds,
        EndsAt, PopPart, Descending, Copies, Across, Copied, NewHeads;
      slices := [];
      iterators := [Iterator(heads[version].node, [], 0, true)];
      ghost var start := iterators[0];
      ghost var ended: Bag, short: Bag, capped := multiset{}, multiset{}, false;
      ghost var bound: nat := rank(KeyOf(nodes[start.node])) + 1;
      IterStart(nodes, rank, callback, heads, version, start);
      DescendingStart(nodes, rank, start);
      while |iterators| > 0
        invariant Popping(nodes, old(heads), heads, slices, version) && Versioned(slices, heads)
        invariant Descending(nodes, rank, iterators, 0, |iterators|, bound) && Placed(nodes, iterators)
        invariant Kept(nodes, rank, callback, start, iterators, SliceBag(slices, heads), ended, short, capped)
        decreases bound
      {
        var size, i := |iterators|, 0;
        DescendingFacts(nodes, rank, iterators, i, size, bound);
        assert rank(KeyOf(nodes[iterators[0].node])) < bound;
        while i < size
          invariant 0 <= i <= size <= |iterators|
          invariant Popping(nodes, old(heads), heads, slices, version) && Versioned(slices, heads)
          invariant Descending(nodes, rank, iterators, i, size, bound) && Placed(nodes, iterators)
          invariant Kept(nodes, rank, callback, start, iterators, SliceBag(slices, heads), ended, short, capped)
          decreases size - i
        {
          var stopped;
          stopped, ended, short, capped := Turn(version, i, callback, size, bound, old(heads), start, ended, short, capped, rank);
          if stopped { size := size - 1; } else { i := i + 1; }
        }
        RoundEnds(nodes, rank, iterators, size, bound);
        bound := bound - 1;
      }
      KeptEnd(nodes, rank, callback, start, SliceBag(slices, heads), ended, short, capped);
      BagSize(slices, heads);
      IterEnd(nodes, old(heads), heads, slices, version);
    }

    /** popCount: every slice is a path with `count` counted links, and with no more than 64 ends to reach every
        such path is a slice.  With more, at least 64 ends are reached: as many slices, but for paths that reach the
        base too soon. */
    method PopCount(version: nat, count: nat, ghost rank: Key -> nat)
      requires Valid(rank) && version < |heads|
      modifies `heads, `slices, `iterators
      ensures Valid(rank) && old(heads) <= heads && Grouped(slices, heads, |old(heads)|)
      ensures NewHeads(old(heads), heads, version)
      ensures forall k :: 0 <= k < |slices| ==>
                IsPath(nodes, old(heads)[version].node, count, slices[k].subtrees, heads[slices[k].version].node)
      ensures var n := old(heads)[version].node;
        && |slices| <= Paths(nodes, rank, n, count) <= PathEnds(nodes, rank, n, count)
        && (PathEnds(nodes, rank, n, count) <= MAX_ITERATOR_COUNT ==>
              && |slices| == Paths(nodes, rank, n, count)
              && forall ls, end: NodeRef :: CountedPath(nodes, n, ls, count, end) ==>
                   Delivered(slices, heads, Reverse(SubtreesOn(ls)), end))
        && (PathEnds(nodes, rank, n, count) > MAX_ITERATOR_COUNT ==>
              |slices| + (PathEnds(nodes, rank, n, count) - Paths(nodes, rank, n, count)) >= MAX_ITERATOR_COUNT)
    {
      ghost var n := heads[version].node;
      Iter(version, CountAction(count), rank);
      GroupedVersions(slices, heads, |old(heads)|);
      BagSize(slices, heads);
      Fewer(SliceBag(slices, heads), Popped(nodes, rank, CountAction(count), Iterator(n, [], 0, true)));
      forall k | 0 <= k < |slices| ensures IsPath(nodes, n, count, slices[k].subtrees, heads[slices[k].version].node) {
        SliceInBag(slices, heads, k);
        PoppedIsExactlyThePaths(nodes, rank, count, n, slices[k].subtrees, heads[slices[k].version].node);
      }
      if PathEnds(nodes, rank, n, count) <= MAX_ITERATOR_COUNT {
        forall ls, end: NodeRef | CountedPath(nodes, n, ls, count, end)
          ensures Delivered(slices, heads, Reverse(SubtreesOn(ls)), end)
        {
          PoppedIsExactlyThePaths(nodes, rank, count, n, Reverse(SubtreesOn(ls)), end);
          assert (Reverse(SubtreesOn(ls)), end) in Popped(nodes, rank, CountAction(count), Iterator(n, [], 0, true));
          BagHasSlice(slices, heads, (Reverse(SubtreesOn(ls)), end));
        }
      }
    }
  }

  /** The paths of `count` counted links from n, and the ends a search for them reaches: those, and the base when
      it comes too soon. */
  ghost function Paths(g: Graph, rank: Key -> nat, n: NodeRef, count: nat): nat
    requires WellFormed(g) && Ranked(g, rank) && n in g
  {
    |Popped(g, rank, CountAction(count), Iterator(n, [], 0, true))|
  }

  ghost function PathEnds(g: Graph, rank: Key -> nat, n: NodeRef, count: nat): nat
    requires WellFormed(g) && Ranked(g, rank) && n in g
  {
    Ends(g, rank, CountAction(count), Iterator(n, [], 0, true))
  }

  /** The subtrees are those of some path of `count` counted links from n to end. */
  ghost predicate IsPath(g: Graph, n: NodeRef, count: nat, subtrees: seq<Tree>, end: NodeRef) {
    exists ls :: CountedPath(g, n, ls, count, end) && subtrees == Reverse(SubtreesOn(ls))
  }

  ghost predicate Delivered(slices: seq<Slice>, heads: seq<Head>, subtrees: seq<Tree>, end: NodeRef) {
    exists k :: 0 <= k < |slices| && slices[k].version < |heads|
             && slices[k].subtrees == subtrees && heads[slices[k].version].node == end
  }

  lemma {:induction false} SliceInBag(slices: seq<Slice>, heads: seq<Head>, k: nat)
    requires k < |slices| && Versioned(slices, heads)
    ensures (slices[k].subtrees, heads[slices[k].version].node) in SliceBag(slices, heads)
    decreases |slices|
  {
    if k > 0 {
      SliceInBag(slices[1..], heads, k - 1);
    }
  }

  lemma {:induction false} BagHasSlice(slices: seq<Slice>, heads: seq<Head>, x: (seq<Tree>, NodeRef))
    requires Versioned(slices, heads)
    requires x in SliceBag(slices, heads)
    ensures Delivered(slices, heads, x.0, x.1)
    decreases |slices|
  {
    if x == (slices[0].subtrees, heads[slices[0].version].node) {
    } else {
      BagHasSlice(slices[1..], heads, x);
      var k :| 0 <= k < |slices[1..]| && slices[1..][k].version < |heads|
            && slices[1..][k].subtrees == x.0 && heads[slices[1..][k].version].node == x.1;
      assert slices[k + 1] == slices[1..][k];
    }
  }

  /** The heads while a pop runs: the old ones, then one active copy per end node found. */
  ghost predicate Popping(g: Graph, heads0: seq<Head>, heads: seq<Head>, slices: seq<Slice>, original: nat) {
    && original < |heads0| && heads0 <= heads && AllIn(g, heads)
    && Grouped(slices, heads, |heads0|) && NewHeads(heads0, heads, original)
  }

  predicate NewHeads(heads0: seq<Head>, heads: seq<Head>, original: nat)
    requires original < |heads0|
  {
    forall v :: |heads0| <= v < |heads| ==>
      heads[v] == Head(heads[v].node, heads0[original].nodeCountAtLastError, heads0[original].lastExternalToken, None, Active)
  }

  lemma IterStart(g: Graph, rank: Key -> nat, cb: Callback, heads: seq<Head>, original: nat, it: Iterator)
    requires WellFormed(g) && Ranked(g, rank) && it.node in g && original < |heads| && AllIn(g, heads)
    ensures Popping(g, heads, heads, [], original) && Versioned([], heads)
    ensures Kept(g, rank, cb, it, [it], SliceBag([], heads), multiset{}, multiset{}, false)
  {
    KeptStart(g, rank, cb, it);
    hide Kept;
  }

  lemma EndsWhen(g: Graph, cb: Callback, it: Iterator)
    requires it.node in g
    ensures EndsAt(g, cb, it) <==> cb(it).stop || g[it.node].links == []
  {
  }

  lemma PartIs(cb: Callback, it: Iterator)
    ensures PopPart(cb, it) == if cb(it).pop then multiset{(Reverse(it.subtrees), it.node)} else multiset{}
  {
  }

  lemma {:induction false} BagSize(slices: seq<Slice>, heads: seq<Head>)
    requires Versioned(slices, heads)
    ensures |SliceBag(slices, heads)| == |slices|
    decreases |slices|
  {
    if slices != [] { BagSize(slices[1..], heads); }
  }

  lemma IterEnd(g: Graph, heads0: seq<Head>, heads: seq<Head>, slices: seq<Slice>, original: nat)
    requires Popping(g, heads0, heads, slices, original) && Versioned(slices, heads)
    ensures heads0 <= heads && AllIn(g, heads) && Grouped(slices, heads, |heads0|) && NewHeads(heads0, heads, original)
  {
  }

  lemma GroupedVersions(slices: seq<Slice>, heads: seq<Head>, first: nat)
    requires Grouped(slices, heads, first)
    ensures first <= |heads| && Versioned(slices, heads)
  {
  }

  function TokenState(token: Option<Tree>): seq<int> {
    if token.Some? then token.value.ScannerState() else []
  }

  /** What a merge of the head at n2 into the head at n1 guarantees. */
  ghost predicate Merged(g: Graph, g': Graph, n1: NodeRef, n2: NodeRef) {
    && Extends(g, g') && NoNewEdges(g, g')
    && (forall n, path :: Reads(g, n, path) ==> Reads(g', n, path))
    && (forall path :: Reads(g, n2, path) ==> Reads(g', n1, path))
  }

  lemma MergeDone(g: Graph, g': Graph, rank: Key -> nat, n1: NodeRef, n2: NodeRef)
    requires n2 in g && Splicing(g, g', rank, n1, n2, |g[n2].links|)
    ensures Merged(g, g', n1, n2) && WellFormed(g') && Ranked(g', rank) && g'.Keys == g.Keys && n1 in g'
  {
    SplicedAll(g, g', rank, n1, n2);
    forall n, path | Reads(g, n, path) ensures Reads(g', n, path) {
      ExtendsReads(g, g', n, path);
    }
  }

  lemma PushReads(g: Graph, g': Graph, n: NodeRef, previous: NodeRef)
    requires WellFormed(g) && n !in g && g'.Keys == g.Keys + {n} && previous in g
    requires forall k :: k in g ==> g'[k] == g[k]
    requires |g'[n].links| == 1 && g'[n].links[0].node == previous
    ensures forall path :: Reads(g, previous, path) ==> Reads(g', n, [StepOf(g', g'[n].links[0])] + path)
  {
    forall path | Reads(g, previous, path) ensures Reads(g', n, [StepOf(g', g'[n].links[0])] + path) {
      ReadsInLarger(g, g', previous, path);
      var whole := [StepOf(g', g'[n].links[0])] + path;
      assert whole[1..] == path;
    }
  }

  lemma {:induction false} ReadsInLarger(g: Graph, g': Graph, n: NodeRef, path: seq<Step>)
    requires Reads(g, n, path) && g.Keys <= g'.Keys && forall k :: k in g ==> g'[k] == g[k]
    ensures Reads(g', n, path)
    decreases |path|
  {
    if path != [] {
      var i :| 0 <= i < |g[n].links| && g[n].links[i].node in g
            && StepOf(g, g[n].links[i]) == path[0] && Reads(g, g[n].links[i].node, path[1..]);
      ReadsInLarger(g, g', g[n].links[i].node, path[1..]);
      assert StepOf(g', g'[n].links[i]) == path[0];
    }
  }

  /** When every subtree on the stack has a positive width, positions rank the nodes. */
  lemma PositiveWidthsRank(g: Graph)
    requires WellFormed(g)
    requires forall n, i :: n in g && 0 <= i < |g[n].links| ==> StackGraph.Bytes(g[n].links[i].subtree) > 0
    ensures Ranked(g, (k: Key) => k.bytes)
  {
  }
}
