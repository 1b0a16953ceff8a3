/** Rotating a repetition spine (subtree_core.go:419-454) on tree values. */
module Rotation {
  import opened Lengths
  import opened Trees
  import opened Summaries
  import opened VisibleTrees

  /** A node the visible tree does not show and no alias touches. */
  ghost predicate HiddenNode(lang: Language, d: NodeData) {
    !d.visible && !d.named && !d.extra && !d.isMissing && AliasFree(lang, d.productionId)
  }

  /** Every node of an auxiliary symbol is hidden, and only those count a repeat depth. */
  ghost predicate Plain(lang: Language, aux: set<nat>, t: Tree)
    decreases t
  {
    match t
    case Inline(_) => true
    case Node(d, cs) =>
      && (cs != [] && d.symbol in aux ==> HiddenNode(lang, d))
      && (d.repeatDepth > 0 ==> cs != [] && d.symbol in aux)
      && forall i :: 0 <= i < |cs| ==> Plain(lang, aux, cs[i])
  }

  predicate Long(t: Tree) { t.Node? && |t.children| >= 2 }

  /** A node, its first child and its first grandchild form the spine a rotation shortens. */
  predicate CanRotate(t: Tree, sym: nat) {
    Long(t) && Long(t.children[0]) && t.children[0].Symbol() == sym
    && Long(t.children[0].children[0]) && t.children[0].children[0].Symbol() == sym
  }

  /** The grandchild after the rotation: it has swapped its last child for the child, which took
      that last child for its own first.  Nothing is re-summarised yet. */
  function Raised(t: Tree, sym: nat): Tree
    requires CanRotate(t, sym)
  {
    var c := t.children[0];
    var g := c.children[0];
    var n := |g.children| - 1;
    Node(g.data, g.children[n := Node(c.data, c.children[0 := g.children[n]])])
  }

  predicate Rotates(t: Tree, sym: nat, k: nat)
    decreases k
  {
    k > 0 ==> CanRotate(t, sym) && Rotates(Raised(t, sym), sym, k - 1)
  }

  /** k rotations down the spine, then re-summarising from the bottom up. */
  function Squeeze(lang: Language, t: Tree, sym: nat, k: nat): (r: Tree)
    requires t.Node? && Rotates(t, sym, k)
    ensures r.Node? && |r.children| == |t.children|
    ensures k == 0 ==> r == t
    ensures forall i :: 1 <= i < |r.children| ==> r.children[i] == t.children[i]
    ensures t.children != [] && t.children[0].Node? ==> r.children[0].Node?
    decreases k
  {
    hide Summed;
    if k == 0 then t else
    var g := Squeeze(lang, Raised(t, sym), sym, k - 1);
    var n := |g.children| - 1;
    var g' := Resum(lang, Node(g.data, g.children[n := Resum(lang, g.children[n])]));
    Resum(lang, Node(t.data, t.children[0 := g']))
  }

  function Spine(sym: nat, t: Tree): nat {
    if Long(t) && t.Symbol() == sym then 1 + Spine(sym, t.children[0]) else 0
  }

  function NodeCount(t: Tree): nat { 1 + match t case Inline(_) => 0 case Node(_, cs) => CountAll(cs) }

  function CountAll(cs: seq<Tree>): nat { if cs == [] then 0 else NodeCount(cs[0]) + CountAll(cs[1..]) }

  /** What a repetition node stands for among its siblings: the same sums, leaves and visible nodes. */
  ghost predicate Equivalent(lang: Language, sym: nat, a: Tree, b: Tree) {
    && ItemSig(lang, 0, 0, a, ErrorClass(sym)) == ItemSig(lang, 0, 0, b, ErrorClass(sym))
    && a.Total() == b.Total()
    && (forall at :: Leaves([a], at) == Leaves([b], at))
    && (forall at :: Seen(lang, 0, 0, [a], at) == Seen(lang, 0, 0, [b], at))
  }

  ghost predicate EquivalentRuns(lang: Language, sym: nat, a: seq<Tree>, b: seq<Tree>) {
    && a != [] && b != []
    && ListSig(lang, 0, 0, a, ErrorClass(sym)) == ListSig(lang, 0, 0, b, ErrorClass(sym))
    && Totals(a) == Totals(b)
    && (forall at :: Leaves(a, at) == Leaves(b, at))
    && (forall at :: Seen(lang, 0, 0, a, at) == Seen(lang, 0, 0, b, at))
  }

  lemma NoAliasZero(lang: Language)
    ensures AliasFree(lang, 0)
  {
  }

  /** Runs put side by side stay equivalent. */
  lemma RunsAppend(lang: Language, sym: nat, a: seq<Tree>, b: seq<Tree>, c: seq<Tree>, d: seq<Tree>)
    requires EquivalentRuns(lang, sym, a, b) && EquivalentRuns(lang, sym, c, d)
    ensures EquivalentRuns(lang, sym, a + c, b + d)
  {
    hide ListSig, Totals, Leaves, Seen, Combine;
    var err := ErrorClass(sym);
    NoAliasZero(lang);
    ListSigAppend(lang, 0, a, c, err);
    ListSigAppend(lang, 0, b, d, err);
    TotalsAppend(a, c);
    TotalsAppend(b, d);
    forall at ensures Leaves(a + c, at) == Leaves(b + d, at) {
      LeavesAppend(a, c, at);
      LeavesAppend(b, d, at);
    }
    forall at ensures Seen(lang, 0, 0, a + c, at) == Seen(lang, 0, 0, b + d, at) {
      SeenAppend(lang, 0, a, c, at);
      SeenAppend(lang, 0, b, d, at);
    }
  }

  lemma RunsSelf(lang: Language, sym: nat, a: seq<Tree>)
    requires a != []
    ensures EquivalentRuns(lang, sym, a, a)
  {
  }

  lemma RunsAppendRight(lang: Language, sym: nat, a: seq<Tree>, b: seq<Tree>, c: seq<Tree>)
    requires EquivalentRuns(lang, sym, a, b)
    ensures EquivalentRuns(lang, sym, a + c, b + c)
  {
    if c == [] {
      assert a + c == a && b + c == b;
    } else {
      RunsSelf(lang, sym, c);
      RunsAppend(lang, sym, a, b, c, c);
    }
  }

  lemma RunsTransitive(lang: Language, sym: nat, a: seq<Tree>, b: seq<Tree>, c: seq<Tree>)
    requires EquivalentRuns(lang, sym, a, b) && EquivalentRuns(lang, sym, b, c)
    ensures EquivalentRuns(lang, sym, a, c)
  {
  }

  lemma SingleSums(lang: Language, sym: nat, a: Tree)
    ensures ListSig(lang, 0, 0, [a], ErrorClass(sym)) == ItemSig(lang, 0, 0, a, ErrorClass(sym))
    ensures Totals([a]) == a.Total()
  {
    hide ItemSig;
    assert [a][1..] == [];
    AddZero(a.Total());
  }

  lemma SingleRun(lang: Language, sym: nat, a: Tree, b: Tree)
    ensures EquivalentRuns(lang, sym, [a], [b]) <==> Equivalent(lang, sym, a, b)
  {
    hide ItemSig, Leaves, Seen, Combine;
    SingleSums(lang, sym, a);
    SingleSums(lang, sym, b);
  }

  /** A hidden summarised node can be spliced out: its children, in its place, add up to the same. */
  lemma Splices(lang: Language, sym: nat, t: Tree)
    requires t.Children() != [] && t.Symbol() == sym && HiddenNode(lang, t.data) && sym != SYM_ERROR
    requires Summarised(lang, t)
    ensures EquivalentRuns(lang, sym, [t], t.children)
  {
    var p := t.data.productionId;
    NoAliasZero(lang);
    assert [t][1..] == [];
    SingleSums(lang, sym, t);
    SplicesSig(lang, sym, t);
    SummarisedTotal(lang, t);
    forall at ensures Leaves([t], at) == Leaves(t.children, at) {
      LeavesOfNode(t, at);
    }
    forall at ensures Seen(lang, 0, 0, [t], at) == Seen(lang, 0, 0, t.children, at) {
      SeenAnywhere(lang, p, 0, 0, 0, t.children, at);
    }
  }

  lemma SplicesSig(lang: Language, sym: nat, t: Tree)
    requires t.Children() != [] && t.Symbol() == sym && HiddenNode(lang, t.data) && sym != SYM_ERROR
    requires Summarised(lang, t)
    ensures ItemSig(lang, 0, 0, t, ErrorClass(sym)) == ListSig(lang, 0, 0, t.children, ErrorClass(sym))
  {
    hide ListSig;
    NoAliasZero(lang);
    AnyIndex(lang, t.data.productionId, 0, 0, 0, t.children, ErrorClass(sym));
  }

  // ---------------------------------------------------------------- rotations keep everything

  lemma ResumGood(lang: Language, t: Tree)
    requires t.Children() != [] && AllGood(lang, t.children)
    ensures Good(lang, Resum(lang, t)) && Resum(lang, t).children == t.children
    ensures Kept(Resum(lang, t).data, t.data)
  {
    hide Summed, Summarised;
    ResumSummarised(lang, t);
  }

  lemma {:induction false} SqueezeKeepsFlags(lang: Language, t: Tree, sym: nat, k: nat)
    requires t.Node? && Rotates(t, sym, k)
    ensures Kept(Squeeze(lang, t, sym, k).data, t.data)
    decreases k
  {
    hide Summed, Summarised;
    if k > 0 {
      SqueezeKeepsFlags(lang, Raised(t, sym), sym, k - 1);
      var g := Squeeze(lang, Raised(t, sym), sym, k - 1);
      var n := |g.children| - 1;
      var g' := Resum(lang, Node(g.data, g.children[n := Resum(lang, g.children[n])]));
      ResumSummarised(lang, Node(t.data, t.children[0 := g']));
    }
  }

  lemma PlainNode(lang: Language, aux: set<nat>, d: NodeData, cs: seq<Tree>)
    requires HiddenNode(lang, d) && d.symbol in aux && cs != []
    requires forall i :: 0 <= i < |cs| ==> Plain(lang, aux, cs[i])
    ensures Plain(lang, aux, Node(d, cs))
  {
  }

  /** A rebuilt repetition node over good, plain children. */
  lemma Rebuilt(lang: Language, aux: set<nat>, sym: nat, t: Tree)
    requires t.Children() != [] && t.Symbol() == sym && HiddenNode(lang, t.data)
    requires AllGood(lang, t.children) && forall i :: 0 <= i < |t.children| ==> Plain(lang, aux, t.children[i])
    requires sym in aux && SYM_ERROR !in aux
    ensures var r := Resum(lang, t);
      && Good(lang, r) && Plain(lang, aux, r) && r.Symbol() == sym && r.children == t.children
      && HiddenNode(lang, r.data) && EquivalentRuns(lang, sym, [r], t.children)
  {
    hide Summed, EquivalentRuns, HiddenNode;
    ResumGood(lang, t);
    ResumSummarised(lang, t);
    var r := Resum(lang, t);
    assert HiddenNode(lang, r.data) by { HiddenKept(lang, r.data, t.data); }
    PlainNode(lang, aux, r.data, r.children);
    Splices(lang, sym, r);
  }

  lemma HiddenKept(lang: Language, d: NodeData, e: NodeData)
    requires Kept(d, e) && HiddenNode(lang, e)
    ensures HiddenNode(lang, d)
  {
  }

  /** The nodes of a rotation and their parts. */
  lemma RaisedShape(lang: Language, aux: set<nat>, t: Tree, sym: nat)
    requires CanRotate(t, sym) && Good(lang, t.children[0]) && Plain(lang, aux, t.children[0])
    requires sym in aux && SYM_ERROR !in aux
    ensures var c := t.children[0]; var g := c.children[0]; var n := |g.children| - 1;
      && HiddenNode(lang, c.data) && HiddenNode(lang, g.data)
      && Summarised(lang, c) && Summarised(lang, g) && Good(lang, g) && Plain(lang, aux, g)
      && AllGood(lang, c.children) && AllGood(lang, g.children)
      && (forall i :: 0 <= i < |c.children| ==> Plain(lang, aux, c.children[i]))
      && (forall i :: 0 <= i < |g.children| ==> Plain(lang, aux, g.children[i]))
  {
    hide Summarised, HiddenNode;
    var c := t.children[0];
    assert Good(lang, c.children[0]) && Plain(lang, aux, c.children[0]);
  }

  /** The runs before: the child gives way to the grandchild's children and its own others. */
  lemma RunsBefore(lang: Language, aux: set<nat>, t: Tree, sym: nat)
    requires CanRotate(t, sym) && Good(lang, t.children[0]) && Plain(lang, aux, t.children[0])
    requires sym in aux && SYM_ERROR !in aux
    ensures EquivalentRuns(lang, sym, [t.children[0]],
                           t.children[0].children[0].children + t.children[0].children[1..])
  {
    hide EquivalentRuns, HiddenNode, Summarised, Good, Plain;
    var c := t.children[0];
    var g := c.children[0];
    RaisedShape(lang, aux, t, sym);
    Splices(lang, sym, c);
    Splices(lang, sym, g);
    assert c.children == [g] + c.children[1..];
    RunsAppendRight(lang, sym, [g], g.children, c.children[1..]);
    RunsTransitive(lang, sym, [c], [g] + c.children[1..], g.children + c.children[1..]);
  }

  /** The child under the raised node, rebuilt. */
  function Lowered(lang: Language, c: Tree, g: Tree): (r: Tree)
    requires Long(c) && Long(g)
    ensures r.Node?
  {
    Resum(lang, Node(c.data, c.children[0 := g.children[|g.children| - 1]]))
  }

  /** The raised node, rebuilt over its squeezed spine. */
  function Lifted(lang: Language, r: Tree, low: Tree): (x: Tree)
    requires Long(r)
    ensures x.Node? && x.children == r.children[|r.children| - 1 := low]
  {
    hide Summed;
    Resum(lang, Node(r.data, r.children[|r.children| - 1 := low]))
  }

  lemma SqueezeStep(lang: Language, t: Tree, sym: nat, k: nat)
    requires t.Node? && k > 0 && Rotates(t, sym, k)
    ensures var r := Squeeze(lang, Raised(t, sym), sym, k - 1);
      var c := t.children[0]; var g := c.children[0];
      && |r.children| == |g.children|
      && (forall i :: 1 <= i < |g.children| - 1 ==> r.children[i] == g.children[i])
      && Squeeze(lang, t, sym, k).children[0] == Lifted(lang, r, Lowered(lang, c, g))
  {
    hide Summed;
    var r := Squeeze(lang, Raised(t, sym), sym, k - 1);
    var n := |r.children| - 1;
    assert r.children[n] == Raised(t, sym).children[n];
  }

  lemma LoweredFacts(lang: Language, aux: set<nat>, sym: nat, c: Tree, g: Tree)
    requires Long(c) && Long(g) && c.Symbol() == sym && HiddenNode(lang, c.data)
    requires AllGood(lang, c.children) && AllGood(lang, g.children)
    requires forall i :: 0 <= i < |c.children| ==> Plain(lang, aux, c.children[i])
    requires forall i :: 0 <= i < |g.children| ==> Plain(lang, aux, g.children[i])
    requires sym in aux && SYM_ERROR !in aux
    ensures var low := Lowered(lang, c, g);
      Good(lang, low) && Plain(lang, aux, low)
      && EquivalentRuns(lang, sym, [low], c.children[0 := g.children[|g.children| - 1]])
  {
    hide Good, Plain, EquivalentRuns, HiddenNode, Summed;
    Rebuilt(lang, aux, sym, Node(c.data, c.children[0 := g.children[|g.children| - 1]]));
  }

  lemma LiftedFacts(lang: Language, aux: set<nat>, sym: nat, g: Tree, r: Tree, low: Tree)
    requires Long(g) && Long(r) && |r.children| == |g.children| && r.Symbol() == sym
    requires HiddenNode(lang, r.data) && AllGood(lang, g.children)
    requires forall i :: 0 <= i < |g.children| ==> Plain(lang, aux, g.children[i])
    requires forall i :: 1 <= i < |g.children| - 1 ==> r.children[i] == g.children[i]
    requires Good(lang, r.children[0]) && Plain(lang, aux, r.children[0]) && Good(lang, low) && Plain(lang, aux, low)
    requires sym in aux && SYM_ERROR !in aux
    ensures var x := Lifted(lang, r, low);
      Good(lang, x) && Plain(lang, aux, x) && x.Symbol() == sym
      && EquivalentRuns(lang, sym, [x], [r.children[0]] + g.children[1..|g.children| - 1] + [low])
  {
    hide Good, Plain, EquivalentRuns, HiddenNode, Summed;
    var n := |r.children| - 1;
    var cs := r.children[n := low];
    assert cs == [r.children[0]] + g.children[1..n] + [low];
    Rebuilt(lang, aux, sym, Node(r.data, cs));
  }

  lemma SpineStep(sym: nat, c: Tree, g: Tree, x: Tree)
    requires Long(c) && c.Symbol() == sym && c.children[0] == g && Long(g) && g.Symbol() == sym
    requires Long(x) && x.Symbol() == sym
    ensures Spine(sym, c) == 2 + Spine(sym, g.children[0]) && Spine(sym, x) == 1 + Spine(sym, x.children[0])
  {
    assert Spine(sym, g) == 1 + Spine(sym, g.children[0]);
  }

  /** After k rotations the first child is a good node that stands for the same siblings, on a spine
      k nodes shorter. */
  lemma {:induction false} SqueezeFirst(lang: Language, aux: set<nat>, t: Tree, sym: nat, k: nat)
    requires Long(t) && Rotates(t, sym, k)
    requires Good(lang, t.children[0]) && Plain(lang, aux, t.children[0])
    requires sym in aux && SYM_ERROR !in aux
    ensures var x := Squeeze(lang, t, sym, k).children[0];
      && Good(lang, x) && Plain(lang, aux, x) && Equivalent(lang, sym, t.children[0], x)
      && Spine(sym, x) + k == Spine(sym, t.children[0])
    decreases k
  {
    hide Good, Plain, EquivalentRuns, Equivalent, HiddenNode, Summed, Squeeze, Lifted, Lowered, Spine, Summarised;
    if k == 0 {
      SqueezeNone(lang, t, sym);
      EquivalentSelf(lang, sym, t.children[0]);
    } else {
      var c := t.children[0];
      var g := c.children[0];
      var up := Raised(t, sym);
      RaisedShape(lang, aux, t, sym);
      SqueezeFirst(lang, aux, up, sym, k - 1);
      SqueezeKeepsFlags(lang, up, sym, k - 1);
      var r := Squeeze(lang, up, sym, k - 1);
      HiddenKept(lang, r.data, g.data);
      SqueezeStep(lang, t, sym, k);
      var low := Lowered(lang, c, g);
      LoweredFacts(lang, aux, sym, c, g);
      LiftedFacts(lang, aux, sym, g, r, low);
      var x := Lifted(lang, r, low);
      RunsAfter(lang, sym, g.children, c.children, r.children[0], low, x);
      RunsBefore(lang, aux, t, sym);
      RunsTransitive(lang, sym, [c], g.children + c.children[1..], [x]);
      SingleRun(lang, sym, c, x);
      SpineStep(sym, c, g, x);
    }
  }

  lemma SqueezeNone(lang: Language, t: Tree, sym: nat)
    requires t.Node?
    ensures Squeeze(lang, t, sym, 0) == t
  {
    hide Summed;
  }

  lemma EquivalentSelf(lang: Language, sym: nat, t: Tree)
    ensures Equivalent(lang, sym, t, t)
  {
  }

  lemma RunsFlip(lang: Language, sym: nat, a: seq<Tree>, b: seq<Tree>)
    requires EquivalentRuns(lang, sym, a, b)
    ensures EquivalentRuns(lang, sym, b, a)
  {
  }

  /** The runs after: the raised node's children add up to what the two nodes held before. */
  lemma RunsAfter(lang: Language, sym: nat, gs: seq<Tree>, cs: seq<Tree>, head: Tree, low: Tree, x: Tree)
    requires |gs| >= 2 && |cs| >= 2
    requires Equivalent(lang, sym, gs[0], head)
    requires EquivalentRuns(lang, sym, [low], cs[0 := gs[|gs| - 1]])
    requires EquivalentRuns(lang, sym, [x], [head] + gs[1..|gs| - 1] + [low])
    ensures EquivalentRuns(lang, sym, gs + cs[1..], [x])
  {
    hide EquivalentRuns, Equivalent;
    var n := |gs| - 1;
    var mid := gs[1..n];
    SingleRun(lang, sym, gs[0], head);
    RunsAppendRight(lang, sym, [gs[0]], [head], mid);
    RunsFlip(lang, sym, [low], cs[0 := gs[n]]);
    assert cs[0 := gs[n]] == [gs[n]] + cs[1..];
    RunsAppend(lang, sym, [gs[0]] + mid, [head] + mid, [gs[n]] + cs[1..], [low]);
    assert [gs[0]] + mid + ([gs[n]] + cs[1..]) == gs + cs[1..];
    RunsFlip(lang, sym, [x], [head] + mid + [low]);
    RunsTransitive(lang, sym, gs + cs[1..], [head] + mid + [low], [x]);
  }
}
