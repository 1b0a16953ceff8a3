/** Trees that differ only by rotations, however deep: everything a reader, a parent or an edit looks
    at is the same. */
module Balancing {
  import opened Lengths
  import opened Trees
  import opened Summaries
  import opened VisibleTrees
  import opened Rotation

  ghost predicate SameFields(a: Tree, b: Tree) {
    && a.Symbol() == b.Symbol() && (a.Children() == [] <==> b.Children() == [])
    && a.Visible() == b.Visible() && a.Named() == b.Named() && a.Extra() == b.Extra() && a.Missing() == b.Missing()
    && a.HasChanges() == b.HasChanges()
    && a.Padding() == b.Padding() && a.Size() == b.Size() && a.Lookahead() == b.Lookahead()
    && a.ErrorCost() == b.ErrorCost() && a.VisibleDescendants() == b.VisibleDescendants()
    && VisibleChildCount(a) == VisibleChildCount(b) && NamedChildCount(a) == NamedChildCount(b)
    && HasExternalTokens(a) == HasExternalTokens(b) && HasStateChange(a) == HasStateChange(b)
    && LeafSymbol(a) == LeafSymbol(b) && LeafParseState(a) == LeafParseState(b)
    && NodeCount(a) == NodeCount(b)
  }

  /** The same cached numbers, the same leaves in the same places, the same visible tree. */
  ghost predicate Same(lang: Language, a: Tree, b: Tree) {
    && SameFields(a, b)
    && (forall at :: Leaves([a], at) == Leaves([b], at))
    && (forall at, p, i :: SeenChild(lang, p, i, a, at) == SeenChild(lang, p, i, b, at))
  }

  ghost predicate AllSame(lang: Language, a: seq<Tree>, b: seq<Tree>) {
    |a| == |b| && forall i :: 0 <= i < |a| ==> Same(lang, a[i], b[i])
  }

  lemma SameSelf(lang: Language, t: Tree)
    ensures Same(lang, t, t)
  {
  }

  lemma SameTransitive(lang: Language, a: Tree, b: Tree, c: Tree)
    requires Same(lang, a, b) && Same(lang, b, c)
    ensures Same(lang, a, c)
  {
    hide SeenChild, Leaves, NodeCount;
  }

  lemma SameItem(lang: Language, p: nat, i: nat, a: Tree, b: Tree, err: bool)
    requires SameFields(a, b)
    ensures ItemSig(lang, p, i, a, err) == ItemSig(lang, p, i, b, err) && a.Total() == b.Total()
    ensures NextIndex(i, a) == NextIndex(i, b)
  {
    hide NodeCount;
  }

  lemma {:induction false} SameLists(lang: Language, p: nat, i: nat, a: seq<Tree>, b: seq<Tree>, err: bool)
    requires AllSame(lang, a, b)
    ensures ListSig(lang, p, i, a, err) == ListSig(lang, p, i, b, err)
    ensures CountAll(a) == CountAll(b)
    decreases |a|
  {
    hide Same, SameFields, ItemSig, Combine, NodeCount;
    if a != [] {
      SameParts(lang, a[0], b[0]);
      SameItem(lang, p, i, a[0], b[0], err);
      SameLists(lang, p, NextIndex(i, a[0]), a[1..], b[1..], err);
    }
  }

  lemma SameParts(lang: Language, a: Tree, b: Tree)
    requires Same(lang, a, b)
    ensures SameFields(a, b) && a.Total() == b.Total() && NodeCount(a) == NodeCount(b)
    ensures forall at :: Leaves([a], at) == Leaves([b], at)
    ensures forall at, p, i :: SeenChild(lang, p, i, a, at) == SeenChild(lang, p, i, b, at)
  {
    hide SeenChild, Leaves, NodeCount;
  }

  lemma {:induction false} SameLeaves(lang: Language, a: seq<Tree>, b: seq<Tree>, at: Length)
    requires AllSame(lang, a, b)
    ensures Leaves(a, at) == Leaves(b, at)
    decreases |a|
  {
    hide Same, SameFields;
    if a != [] {
      SameParts(lang, a[0], b[0]);
      SameLeaves(lang, a[1..], b[1..], Add(at, a[0].Total()));
      assert a == [a[0]] + a[1..] && b == [b[0]] + b[1..];
      LeavesAppend([a[0]], a[1..], at);
      LeavesAppend([b[0]], b[1..], at);
      OneTotal(a[0]);
      OneTotal(b[0]);
    }
  }

  lemma OneTotal(t: Tree)
    ensures Totals([t]) == t.Total()
  {
    assert [t][1..] == [];
    AddZero(t.Total());
  }

  lemma {:induction false} SameSeen(lang: Language, p: nat, i: nat, a: seq<Tree>, b: seq<Tree>, at: Length)
    requires AllSame(lang, a, b)
    ensures Seen(lang, p, i, a, at) == Seen(lang, p, i, b, at)
    decreases |a|
  {
    hide Same, SameFields, SeenChild;
    if a != [] {
      SameParts(lang, a[0], b[0]);
      SameItem(lang, p, i, a[0], b[0], false);
      SameSeen(lang, p, NextIndex(i, a[0]), a[1..], b[1..], Add(at, a[0].Total()));
    }
  }

  /** A parent over the same children is the same, and still summarised. */
  lemma SameNode(lang: Language, d: NodeData, a: seq<Tree>, b: seq<Tree>)
    requires AllSame(lang, a, b)
    ensures Same(lang, Node(d, a), Node(d, b))
    ensures Summarised(lang, Node(d, a)) ==> Summarised(lang, Node(d, b))
  {
    hide ListSig, AllSame, ItemSig;
    var s, t := Node(d, a), Node(d, b);
    assert |a| == |b| by { SameLengths(lang, a, b); }
    SameLists(lang, d.productionId, 0, a, b, ErrorClass(d.symbol));
    forall at ensures Leaves([s], at) == Leaves([t], at) {
      if a != [] {
        LeavesOfNode(s, at);
        LeavesOfNode(t, at);
        SameLeaves(lang, a, b, at);
      } else {
        assert a == b;
      }
    }
    forall at, p, i ensures SeenChild(lang, p, i, s, at) == SeenChild(lang, p, i, t, at) {
      SameSeen(lang, d.productionId, 0, a, b, at);
    }
  }

  lemma SameLengths(lang: Language, a: seq<Tree>, b: seq<Tree>)
    requires AllSame(lang, a, b)
    ensures |a| == |b|
  {
  }

  // ---------------------------------------------------------------- one squeezed node

  lemma {:induction false} CountAppend(a: seq<Tree>, b: seq<Tree>)
    ensures CountAll(a + b) == CountAll(a) + CountAll(b)
    decreases |a|
  {
    hide NodeCount;
    if a == [] {
      assert a + b == b;
    } else {
      assert (a + b)[0] == a[0] && (a + b)[1..] == a[1..] + b;
      CountAppend(a[1..], b);
    }
  }

  lemma CountUpdate(cs: seq<Tree>, i: nat, t: Tree)
    requires i < |cs|
    ensures CountAll(cs[i := t]) + NodeCount(cs[i]) == CountAll(cs) + NodeCount(t)
  {
    hide NodeCount;
    assert cs == cs[..i] + ([cs[i]] + cs[i + 1..]);
    assert cs[i := t] == cs[..i] + ([t] + cs[i + 1..]);
    CountAppend(cs[..i], [cs[i]] + cs[i + 1..]);
    CountAppend(cs[..i], [t] + cs[i + 1..]);
    assert ([cs[i]] + cs[i + 1..])[1..] == cs[i + 1..] && ([t] + cs[i + 1..])[1..] == cs[i + 1..];
  }

  /** Rotations move nodes about; there are as many of them as before. */
  lemma {:induction false} SqueezeCounts(lang: Language, t: Tree, sym: nat, k: nat)
    requires t.Node? && Rotates(t, sym, k)
    ensures NodeCount(Squeeze(lang, t, sym, k)) == NodeCount(t)
    decreases k
  {
    hide Summed, CountAll, Squeeze;
    if k == 0 {
      SqueezeNone(lang, t, sym);
    } else {
      var c := t.children[0];
      var g := c.children[0];
      var up := Raised(t, sym);
      SqueezeCounts(lang, up, sym, k - 1);
      SqueezeStep(lang, t, sym, k);
      SqueezeWhole(lang, t, sym, k);
      var r := Squeeze(lang, up, sym, k - 1);
      var n := |g.children| - 1;
      var low := Lowered(lang, c, g);
      CountUpdate(c.children, 0, g.children[n]);
      CountUpdate(g.children, n, Node(c.data, c.children[0 := g.children[n]]));
      CountUpdate(r.children, n, low);
      CountUpdate(t.children, 0, Lifted(lang, r, low));
      SqueezeLast(lang, t, sym, k);
    }
  }

  lemma SqueezeWhole(lang: Language, t: Tree, sym: nat, k: nat)
    requires t.Node? && k > 0 && Rotates(t, sym, k)
    ensures Squeeze(lang, t, sym, k) == Resum(lang, Node(t.data, t.children[0 := Squeeze(lang, t, sym, k).children[0]]))
  {
    hide Summed;
  }

  lemma SqueezeLast(lang: Language, t: Tree, sym: nat, k: nat)
    requires t.Node? && k > 0 && Rotates(t, sym, k)
    ensures var r := Squeeze(lang, Raised(t, sym), sym, k - 1);
      var c := t.children[0]; var g := c.children[0]; var n := |g.children| - 1;
      |r.children| == |g.children| && r.children[n] == Node(c.data, c.children[0 := g.children[n]])
  {
    hide Summed;
  }

  /** A hidden, summarised repetition node and its squeezed form are the same to everyone. */
  lemma SqueezeSame(lang: Language, aux: set<nat>, t: Tree, k: nat)
    requires t.Node? && t.Symbol() in aux && SYM_ERROR !in aux
    requires Good(lang, t) && Plain(lang, aux, t) && Rotates(t, t.Symbol(), k)
    ensures var r := Squeeze(lang, t, t.Symbol(), k);
      && Good(lang, r) && Plain(lang, aux, r) && Same(lang, t, r)
      && Spine(t.Symbol(), r) + k == Spine(t.Symbol(), t)
  {
    hide Good, Plain, Equivalent, EquivalentRuns, Same, Summed, Squeeze, Summarised, Spine;
    var sym := t.Symbol();
    if k == 0 {
      SqueezeNone(lang, t, sym);
      SameSelf(lang, t);
    } else {
      GoodParts(lang, aux, t);
      SqueezeFirst(lang, aux, t, sym, k);
      SqueezeWhole(lang, t, sym, k);
      var r := Squeeze(lang, t, sym, k);
      var x := r.children[0];
      var bare := Node(t.data, t.children[0 := x]);
      Rebuilt(lang, aux, sym, bare);
      RootRuns(lang, sym, t, r, x);
      SqueezeCounts(lang, t, sym, k);
      ResumGood(lang, bare);
      EquivalentSame(lang, sym, t, r);
      SpineOf(sym, t);
      SpineOf(sym, r);
    }
  }

  lemma SpineOf(sym: nat, t: Tree)
    requires Long(t) && t.Symbol() == sym
    ensures Spine(sym, t) == 1 + Spine(sym, t.children[0])
  {
  }

  lemma GoodParts(lang: Language, aux: set<nat>, t: Tree)
    requires t.Node? && t.children != [] && t.Symbol() in aux && Good(lang, t) && Plain(lang, aux, t)
    ensures HiddenNode(lang, t.data) && Summarised(lang, t) && AllGood(lang, t.children)
    ensures forall i :: 0 <= i < |t.children| ==> Plain(lang, aux, t.children[i])
  {
    hide HiddenNode, Summarised;
  }

  lemma RootRuns(lang: Language, sym: nat, t: Tree, r: Tree, x: Tree)
    requires t.Node? && r.Node? && t.children != [] && r.children == t.children[0 := x]
    requires t.Symbol() == sym && HiddenNode(lang, t.data) && sym != SYM_ERROR && Summarised(lang, t)
    requires Equivalent(lang, sym, t.children[0], x) && EquivalentRuns(lang, sym, [r], r.children)
    ensures Equivalent(lang, sym, t, r)
  {
    hide Equivalent, EquivalentRuns, Summarised, HiddenNode;
    Splices(lang, sym, t);
    SingleRun(lang, sym, t.children[0], x);
    RunsAppendRight(lang, sym, [t.children[0]], [x], t.children[1..]);
    assert t.children == [t.children[0]] + t.children[1..] && r.children == [x] + t.children[1..];
    RunsTransitive(lang, sym, [t], t.children, r.children);
    RunsFlip(lang, sym, [r], r.children);
    RunsTransitive(lang, sym, [t], r.children, [r]);
    SingleRun(lang, sym, t, r);
  }

  /** For hidden nodes of one symbol, adding up to the same among siblings is being the same. */
  lemma EquivalentSame(lang: Language, sym: nat, a: Tree, b: Tree)
    requires Equivalent(lang, sym, a, b) && sym != SYM_ERROR
    requires a.Node? && b.Node? && a.children != [] && b.children != []
    requires a.data.symbol == sym && Kept(b.data, a.data) && HiddenNode(lang, a.data) && NodeCount(a) == NodeCount(b)
    ensures Same(lang, a, b)
  {
    hide Seen, Leaves, NodeCount;
    var err := ErrorClass(sym);
    assert ItemSig(lang, 0, 0, a, err) == ItemSig(lang, 0, 0, b, err);
    assert a.ErrorCost() == b.ErrorCost();
    forall at, p, i ensures SeenChild(lang, p, i, a, at) == SeenChild(lang, p, i, b, at) {
      HiddenSeen(lang, a, at);
      HiddenSeen(lang, b, at);
    }
  }

  lemma HiddenSeen(lang: Language, t: Tree, at: Length)
    requires t.Node? && !t.data.visible && t.children != []
    ensures Seen(lang, 0, 0, [t], at) == Seen(lang, t.data.productionId, 0, t.children, at)
  {
    assert [t][1..] == [];
    NoAliasZero(lang);
    assert !Stands(lang, 0, 0, t);
  }
}
