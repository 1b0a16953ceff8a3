/** Reading a tree's children (node_core.go:27-93, 206-282; cursor.go:17-83): the child iterator, lookup
    by index through hidden nodes, the list of children, and the cursor. */
module Navigation {
  import opened Lengths
  import opened Trees
  import opened EditSpec
  import opened Summaries
  import opened VisibleTrees

  /** A node as a reader holds it: a subtree, where it starts after its padding, and its alias. */
  datatype NodeRef = NodeRef(tree: Tree, at: Length, alias: nat)

  /** The children of a node in order, with their positions and aliases. */
  function Items(lang: Language, production: nat, index: nat, cs: seq<Tree>, pos: Length, first: bool): (r: seq<NodeRef>)
    ensures |r| == |cs|
    decreases |cs|
  {
    if cs == [] then [] else
    var at := if first then pos else Add(pos, cs[0].Padding());
    var alias := if cs[0].Extra() then 0 else AliasOf(lang, production, index);
    [NodeRef(cs[0], at, alias)]
    + Items(lang, production, NextIndex(index, cs[0]), cs[1..], Add(at, cs[0].Size()), false)
  }

  function Below(lang: Language, n: NodeRef): seq<NodeRef> {
    Items(lang, Production(n.tree), 0, n.tree.Children(), n.at, true)
  }

  /** nodeChildIterator. */
  class ChildIterator {
    const lang: Language
    const parent: Tree
    var position: Length
    var childIndex: nat
    var structuralChildIndex: nat

    ghost predicate Valid()
      reads this
    {
      childIndex <= |parent.Children()|
    }

    /** What is still to come. */
    ghost function Rest(): seq<NodeRef>
      reads this
      requires Valid()
    {
      Items(lang, Production(parent), structuralChildIndex, parent.Children()[childIndex..], position, childIndex == 0)
    }

    constructor (lang: Language, n: NodeRef)
      ensures Valid() && Rest() == Below(lang, n) && this.lang == lang && this.parent == n.tree
    {
      this.lang, parent, position, childIndex, structuralChildIndex := lang, n.tree, n.at, 0, 0;
      new;
      assert parent.Children()[0..] == parent.Children();
    }

    method Next() returns (n: Option<NodeRef>)
      requires Valid()
      modifies this
      ensures Valid()
      ensures old(Rest()) == [] ==> n == None && Rest() == []
      ensures old(Rest()) != [] ==> n == Some(old(Rest())[0]) && Rest() == old(Rest())[1..]
    {
      var cs := parent.Children();
      if childIndex == |cs| { return None; }
      assert cs[childIndex..][0] == cs[childIndex] && cs[childIndex..][1..] == cs[childIndex + 1..];
      var child := cs[childIndex];
      var aliasSymbol := 0;
      if !child.Extra() {
        aliasSymbol := AliasOf(lang, Production(parent), structuralChildIndex);
        structuralChildIndex := structuralChildIndex + 1;
      }
      if childIndex > 0 { position := Add(position, child.Padding()); }
      n := Some(NodeRef(child, position, aliasSymbol));
      position := Add(position, child.Size());
      childIndex := childIndex + 1;
    }
  }

  /** isRelevant: shown on its own, rather than replaced by the nodes below it. */
  predicate Relevant(lang: Language, n: NodeRef, anonymous: bool) {
    if anonymous then n.tree.Visible() || n.alias != 0
    else if n.alias != 0 then lang.isNamed(n.alias)
    else n.tree.Visible() && n.tree.Named()
  }

  /** relevantChildCount: the cached number. */
  function RelevantCount(n: NodeRef, anonymous: bool): nat {
    if anonymous then VisibleChildCount(n.tree) else NamedChildCount(n.tree)
  }

  /** The relevant nodes of a run of siblings; a node that is not relevant gives way to those below it. */
  function Kids(lang: Language, anonymous: bool, production: nat, index: nat, cs: seq<Tree>, pos: Length, first: bool):
      seq<NodeRef>
    decreases cs
  {
    if cs == [] then [] else
    var n := Items(lang, production, index, cs, pos, first)[0];
    (if Relevant(lang, n, anonymous) then [n]
     else if RelevantCount(n, anonymous) > 0 then
       Kids(lang, anonymous, cs[0].data.productionId, 0, cs[0].children, n.at, true)
     else [])
    + Kids(lang, anonymous, production, NextIndex(index, cs[0]), cs[1..], Add(n.at, cs[0].Size()), false)
  }

  /** Children and NamedChildren of a node. */
  function ChildrenOf(lang: Language, anonymous: bool, n: NodeRef): seq<NodeRef> {
    Kids(lang, anonymous, Production(n.tree), 0, n.tree.Children(), n.at, true)
  }

  /** The same list, taken from an iterator's remaining nodes. */
  function Spread(lang: Language, anonymous: bool, ns: seq<NodeRef>): seq<NodeRef>
    decreases |ns|
  {
    if ns == [] then [] else One(lang, anonymous, ns[0]) + Spread(lang, anonymous, ns[1..])
  }

  /** What one child contributes. */
  function One(lang: Language, anonymous: bool, n: NodeRef): seq<NodeRef> {
    if Relevant(lang, n, anonymous) then [n]
    else if RelevantCount(n, anonymous) > 0 then ChildrenOf(lang, anonymous, n)
    else []
  }

  lemma {:induction false} KidsSpread(lang: Language, anonymous: bool, p: nat, i: nat, cs: seq<Tree>, pos: Length, first: bool)
    ensures Kids(lang, anonymous, p, i, cs, pos, first) == Spread(lang, anonymous, Items(lang, p, i, cs, pos, first))
    decreases |cs|
  {
    if cs != [] {
      var items := Items(lang, p, i, cs, pos, first);
      KidsSpread(lang, anonymous, p, NextIndex(i, cs[0]), cs[1..], Add(items[0].at, cs[0].Size()), false);
      assert items[1..] == Items(lang, p, NextIndex(i, cs[0]), cs[1..], Add(items[0].at, cs[0].Size()), false);
    }
  }

  lemma BelowSpreads(lang: Language, anonymous: bool, n: NodeRef)
    ensures ChildrenOf(lang, anonymous, n) == Spread(lang, anonymous, Below(lang, n))
  {
    KidsSpread(lang, anonymous, Production(n.tree), 0, n.tree.Children(), n.at, true);
  }

  lemma {:induction false} ItemTrees(lang: Language, p: nat, i: nat, cs: seq<Tree>, pos: Length, first: bool, j: nat)
    requires j < |cs|
    ensures Items(lang, p, i, cs, pos, first)[j].tree == cs[j]
    decreases |cs|
  {
    if j > 0 {
      var at := if first then pos else Add(pos, cs[0].Padding());
      ItemTrees(lang, p, NextIndex(i, cs[0]), cs[1..], Add(at, cs[0].Size()), false, j - 1);
    }
  }

  lemma BelowSmaller(lang: Language, n: NodeRef)
    ensures forall j :: 0 <= j < |Below(lang, n)| ==> Below(lang, n)[j].tree < n.tree
    ensures forall j :: 0 <= j < |Below(lang, n)| ==> Below(lang, n)[j].tree in n.tree.Children()
  {
    forall j | 0 <= j < |Below(lang, n)|
      ensures Below(lang, n)[j].tree < n.tree && Below(lang, n)[j].tree in n.tree.Children()
    {
      ItemTrees(lang, Production(n.tree), 0, n.tree.Children(), n.at, true, j);
    }
  }

  /** appendChildren. */
  method AppendChildren(lang: Language, n: NodeRef, onto: seq<NodeRef>, anonymous: bool) returns (out: seq<NodeRef>)
    ensures out == onto + ChildrenOf(lang, anonymous, n)
    decreases n.tree
  {
    hide ChildrenOf, Below, Spread, Items, Relevant, RelevantCount;
    out := onto;
    var iter := new ChildIterator(lang, n);
    BelowSpreads(lang, anonymous, n);
    BelowSmaller(lang, n);
    ghost var all := Below(lang, n);
    ghost var k := 0;
    var child := iter.Next();
    while child.Some?
      invariant fresh(iter) && iter.Valid() && 0 <= k <= |all|
      invariant child.Some? ==> k < |all| && child.value == all[k] && iter.Rest() == all[k + 1..]
      invariant child.None? ==> k == |all|
      invariant onto + Spread(lang, anonymous, all) == out + Spread(lang, anonymous, all[k..])
      decreases |all| - k
    {
      var c := child.value;
      SpreadStep(lang, anonymous, all, k);
      ghost var before := out;
      if Relevant(lang, c, anonymous) {
        out := out + [c];
      } else if RelevantCount(c, anonymous) > 0 {
        out := AppendChildren(lang, c, out, anonymous);
      }
      assert out == before + One(lang, anonymous, c);
      k := k + 1;
      child := iter.Next();
    }
    SpreadEnd(lang, anonymous, all);
  }

  lemma SpreadStep(lang: Language, anonymous: bool, all: seq<NodeRef>, k: nat)
    requires k < |all|
    ensures Spread(lang, anonymous, all[k..]) == One(lang, anonymous, all[k]) + Spread(lang, anonymous, all[k + 1..])
  {
    hide One;
    assert all[k..][0] == all[k] && all[k..][1..] == all[k + 1..];
  }

  lemma SpreadEnd(lang: Language, anonymous: bool, all: seq<NodeRef>)
    ensures Spread(lang, anonymous, all[|all|..]) == []
    ensures all[0..] == all
  {
  }

  // ---------------------------------------------------------------- cached counts are list lengths

  /** The end-of-file symbol is always an extra, so an alias can never fall on it. */
  ghost predicate EndIsExtra(t: Tree)
    decreases t
  {
    (t.Symbol() == SYM_END ==> t.Extra())
    && match t case Inline(_) => true case Node(_, cs) => forall i :: 0 <= i < |cs| ==> EndIsExtra(cs[i])
  }

  ghost predicate Readable(lang: Language, cs: seq<Tree>) {
    forall i :: 0 <= i < |cs| ==> Good(lang, cs[i]) && EndIsExtra(cs[i])
  }

  /** Named nodes that hide below a visible anonymous one: they are listed, but not counted. */
  function Leaked(lang: Language, production: nat, index: nat, cs: seq<Tree>, pos: Length, first: bool): nat
    decreases cs
  {
    if cs == [] then 0 else
    var n := Items(lang, production, index, cs, pos, first)[0];
    (if Relevant(lang, n, false) || NamedChildCount(cs[0]) == 0 then 0
     else if Relevant(lang, n, true) then
       |Kids(lang, false, cs[0].data.productionId, 0, cs[0].children, n.at, true)|
     else Leaked(lang, cs[0].data.productionId, 0, cs[0].children, n.at, true))
    + Leaked(lang, production, NextIndex(index, cs[0]), cs[1..], Add(n.at, cs[0].Size()), false)
  }

  function SigVisible(s: Sig): nat { if s.Nothing? then 0 else s.visible }

  function SigNamed(s: Sig): nat { if s.Nothing? then 0 else s.named }

  lemma CombineCounts(a: Sig, b: Sig)
    ensures SigVisible(Combine(a, b)) == SigVisible(a) + SigVisible(b)
    ensures SigNamed(Combine(a, b)) == SigNamed(a) + SigNamed(b)
  {
  }

  lemma {:induction false} KidsCounted(lang: Language, p: nat, i: nat, cs: seq<Tree>, pos: Length, first: bool, err: bool)
    requires Readable(lang, cs)
    ensures |Kids(lang, true, p, i, cs, pos, first)| == SigVisible(ListSig(lang, p, i, cs, err))
    ensures |Kids(lang, false, p, i, cs, pos, first)|
         == SigNamed(ListSig(lang, p, i, cs, err)) + Leaked(lang, p, i, cs, pos, first)
    decreases cs
  {
    hide Combine, ChildCost, ListSig;
    if cs != [] {
      var n := Items(lang, p, i, cs, pos, first)[0];
      KidsCounted(lang, p, NextIndex(i, cs[0]), cs[1..], Add(n.at, cs[0].Size()), false, err);
      ListSigUnfold(lang, p, i, cs, err);
      CombineCounts(ItemSig(lang, p, i, cs[0], err), ListSig(lang, p, NextIndex(i, cs[0]), cs[1..], err));
      if cs[0].Children() != [] {
        var d := cs[0].data;
        KidsCounted(lang, d.productionId, 0, cs[0].children, n.at, true, ErrorClass(d.symbol));
        SummarisedCounts(lang, cs[0]);
      }
      assert Aliased(lang, p, i, cs[0]) <==> n.alias != 0;
    } else {
      ListSigUnfold(lang, p, i, cs, err);
    }
  }

  lemma ListSigUnfold(lang: Language, p: nat, i: nat, cs: seq<Tree>, err: bool)
    ensures cs == [] ==> ListSig(lang, p, i, cs, err) == Nothing
    ensures cs != [] ==>
      ListSig(lang, p, i, cs, err)
      == Combine(ItemSig(lang, p, i, cs[0], err), ListSig(lang, p, NextIndex(i, cs[0]), cs[1..], err))
  {
    hide Combine, ItemSig;
  }

  lemma SummarisedCounts(lang: Language, t: Tree)
    requires Good(lang, t) && t.Children() != []
    ensures var s := ListSig(lang, t.data.productionId, 0, t.children, ErrorClass(t.data.symbol));
      t.data.visibleChildCount == SigVisible(s) && t.data.namedChildCount == SigNamed(s)
  {
    hide ListSig;
  }

  /** ChildCount is the number of Children, and NamedChildCount falls short of NamedChildren by
      exactly the named nodes below visible anonymous ones. */
  lemma CountsAreLengths(lang: Language, n: NodeRef)
    requires Good(lang, n.tree) && EndIsExtra(n.tree)
    ensures |ChildrenOf(lang, true, n)| == VisibleChildCount(n.tree)
    ensures |ChildrenOf(lang, false, n)|
         == NamedChildCount(n.tree) + Leaked(lang, Production(n.tree), 0, n.tree.Children(), n.at, true)
  {
    var t := n.tree;
    if t.Children() != [] {
      KidsCounted(lang, t.data.productionId, 0, t.children, n.at, true, ErrorClass(t.data.symbol));
      SummarisedCounts(lang, t);
    }
  }

  /** A node of no production over some children. */
  lemma NodeOver(lang: Language, symbol: nat, visible: bool, named: bool, cs: seq<Tree>)
    requires cs != [] && forall i :: 0 <= i < |cs| ==> Good(lang, cs[i])
    ensures var t := NewNode(lang, symbol, visible, named, 0, cs);
      && t.Node? && t.children == cs && t.Visible() == visible && t.Named() == named && Good(lang, t)
      && t.Symbol() == symbol && Production(t) == 0
      && NamedChildCount(t) == SigNamed(ListSig(lang, 0, 0, cs, ErrorClass(symbol)))
  {
    var err := ErrorClass(symbol);
    var blank := NodeData(ZERO, ZERO, 0, 0, symbol, 0, visible, named, false, err, err, false, false, false,
                          false, false, false, 0, 0, 0, 0, 0, 0, 0, 0, [], 0);
    var t := NewNode(lang, symbol, visible, named, 0, cs);
    hide Summed, Good, Summarised, ListSig;
    ResumSummarised(lang, Node(blank, cs));
    NewNodeGood(lang, symbol, visible, named, 0, cs);
    assert t.children == cs && t.data.productionId == 0 && t.data.symbol == symbol;
    SummarisedCounts(lang, t);
  }

  lemma OverOne(lang: Language, symbol: nat, visible: bool, named: bool, child: Tree)
    requires Good(lang, child)
    ensures var t := NewNode(lang, symbol, visible, named, 0, [child]);
      && t.Node? && t.children == [child] && t.Visible() == visible && t.Named() == named && Good(lang, t)
      && t.Symbol() == symbol && Production(t) == 0 && NamedChildCount(t) == ChildNamed(lang, 0, 0, child)
  {
    hide Good, ChildNamed, ListSig, SigNamed;
    NodeOver(lang, symbol, visible, named, [child]);
    NamedOne(lang, 0, child, ErrorClass(symbol));
  }

  lemma NamedOne(lang: Language, i: nat, child: Tree, err: bool)
    ensures SigNamed(ListSig(lang, 0, i, [child], err)) == ChildNamed(lang, 0, i, child)
  {
    hide ChildNamed, ListSig;
    NamedOf(lang, i, child, [], err);
    ListSigUnfold(lang, 0, NextIndex(i, child), [], err);
    assert [child] + [] == [child];
  }

  lemma NamedOf(lang: Language, i: nat, child: Tree, rest: seq<Tree>, err: bool)
    ensures SigNamed(ListSig(lang, 0, i, [child] + rest, err))
         == ChildNamed(lang, 0, i, child) + SigNamed(ListSig(lang, 0, NextIndex(i, child), rest, err))
  {
    assert ([child] + rest)[1..] == rest;
    ListSigUnfold(lang, 0, i, [child] + rest, err);
    CombineCounts(ItemSig(lang, 0, i, child, err), ListSig(lang, 0, NextIndex(i, child), rest, err));
    hide ChildNamed, ChildCost, ChildVisible, ChildDescendants, ListSig, Combine;
  }

  /** One node in the place of a list of one child. */
  lemma KidsOfOne(lang: Language, child: Tree, pos: Length)
    ensures var n := NodeRef(child, pos, 0);
      Kids(lang, false, 0, 0, [child], pos, true)
      == if child.Visible() && child.Named() then [n] else if NamedChildCount(child) > 0 then ChildrenOf(lang, false, n) else []
  {
    assert [child][1..] == [];
    assert Items(lang, 0, 0, [child], pos, true)[0] == NodeRef(child, pos, 0);
  }

  /** A named leaf, the only child of a visible anonymous node, the only child of the root: the root counts no
      named child, and lists one. */
  lemma LeakingTree(lang: Language, leaf: InlineLeaf, at: Length)
    requires leaf.visible && leaf.named
    ensures var anonymous := NewNode(lang, 1, true, false, 0, [Inline(leaf)]);
      var root := NodeRef(NewNode(lang, 2, true, true, 0, [anonymous]), at, 0);
      NamedChildCount(root.tree) == 0 && |ChildrenOf(lang, false, root)| == 1 && Good(lang, root.tree)
  {
    var anonymous := NewNode(lang, 1, true, false, 0, [Inline(leaf)]);
    OverOne(lang, 1, true, false, Inline(leaf));
    OverOne(lang, 2, true, true, anonymous);
    hide NewNode, Good, Kids;
    KidsOfOne(lang, Inline(leaf), at);
    KidsOfOne(lang, anonymous, at);
  }

  // ---------------------------------------------------------------- children by index

  function Cut(ns: seq<NodeRef>, k: nat): seq<NodeRef> { if k < |ns| then ns[..k] else ns }

  /** The nodes lookup by index finds, in the order of their indices.  It goes by the cached counts: below a child
      that is not relevant it looks no further than that child's count. */
  function Found(lang: Language, anonymous: bool, production: nat, index: nat, cs: seq<Tree>, pos: Length, first: bool):
      seq<NodeRef>
    decreases cs
  {
    if cs == [] then [] else
    var n := Items(lang, production, index, cs, pos, first)[0];
    (if Relevant(lang, n, anonymous) then [n]
     else if RelevantCount(n, anonymous) > 0 then
       Cut(Found(lang, anonymous, cs[0].data.productionId, 0, cs[0].children, n.at, true), RelevantCount(n, anonymous))
     else [])
    + Found(lang, anonymous, production, NextIndex(index, cs[0]), cs[1..], Add(n.at, cs[0].Size()), false)
  }

  function FoundOf(lang: Language, anonymous: bool, n: NodeRef): seq<NodeRef> {
    Found(lang, anonymous, Production(n.tree), 0, n.tree.Children(), n.at, true)
  }

  function FoundOne(lang: Language, anonymous: bool, n: NodeRef): seq<NodeRef> {
    if Relevant(lang, n, anonymous) then [n]
    else if RelevantCount(n, anonymous) > 0 then Cut(FoundOf(lang, anonymous, n), RelevantCount(n, anonymous))
    else []
  }

  function FoundSpread(lang: Language, anonymous: bool, ns: seq<NodeRef>): seq<NodeRef>
    decreases |ns|
  {
    if ns == [] then [] else FoundOne(lang, anonymous, ns[0]) + FoundSpread(lang, anonymous, ns[1..])
  }

  lemma {:induction false} FoundSpreads(lang: Language, anonymous: bool, p: nat, i: nat, cs: seq<Tree>, pos: Length, first: bool)
    ensures Found(lang, anonymous, p, i, cs, pos, first) == FoundSpread(lang, anonymous, Items(lang, p, i, cs, pos, first))
    decreases |cs|
  {
    if cs != [] {
      var items := Items(lang, p, i, cs, pos, first);
      FoundSpreads(lang, anonymous, p, NextIndex(i, cs[0]), cs[1..], Add(items[0].at, cs[0].Size()), false);
      assert items[1..] == Items(lang, p, NextIndex(i, cs[0]), cs[1..], Add(items[0].at, cs[0].Size()), false);
    }
  }

  lemma BelowFound(lang: Language, anonymous: bool, n: NodeRef)
    ensures FoundOf(lang, anonymous, n) == FoundSpread(lang, anonymous, Below(lang, n))
  {
    FoundSpreads(lang, anonymous, Production(n.tree), 0, n.tree.Children(), n.at, true);
  }

  /** A child's share of what is found is no less than what it counts for. */
  lemma ShareIsCounted(lang: Language, anonymous: bool, p: nat, i: nat, n: NodeRef)
    requires EndIsExtra(n.tree) && n.alias == if n.tree.Extra() then 0 else AliasOf(lang, p, i)
    requires |FoundOf(lang, anonymous, n)| >= RelevantCount(n, anonymous)
    ensures |FoundOne(lang, anonymous, n)| >= if anonymous then ChildVisible(lang, p, i, n.tree) else ChildNamed(lang, p, i, n.tree)
  {
    hide FoundOf;
    assert Aliased(lang, p, i, n.tree) <==> n.alias != 0;
  }

  /** Lookup finds as many nodes as are counted, and among named ones those below visible anonymous siblings too. */
  lemma {:induction false} FoundCounted(lang: Language, anonymous: bool, p: nat, i: nat, cs: seq<Tree>, pos: Length,
                                        first: bool, err: bool)
    requires Readable(lang, cs)
    ensures var s := ListSig(lang, p, i, cs, err);
      |Found(lang, anonymous, p, i, cs, pos, first)| >= if anonymous then SigVisible(s) else SigNamed(s)
    decreases cs
  {
    hide Combine, ChildCost, ListSig, Summarised, ChildVisible, ChildNamed, ChildDescendants, Relevant;
    ListSigUnfold(lang, p, i, cs, err);
    if cs != [] {
      var n := Items(lang, p, i, cs, pos, first)[0];
      FoundCounted(lang, anonymous, p, NextIndex(i, cs[0]), cs[1..], Add(n.at, cs[0].Size()), false, err);
      CombineCounts(ItemSig(lang, p, i, cs[0], err), ListSig(lang, p, NextIndex(i, cs[0]), cs[1..], err));
      if cs[0].Children() != [] {
        var d := cs[0].data;
        FoundCounted(lang, anonymous, d.productionId, 0, cs[0].children, n.at, true, ErrorClass(d.symbol));
        SummarisedCounts(lang, cs[0]);
      }
      ShareIsCounted(lang, anonymous, p, i, n);
    }
  }

  /** A child's share of what is found is what lookup by index skips for it. */
  lemma ShareIsSkipped(lang: Language, anonymous: bool, c: NodeRef)
    requires Good(lang, c.tree) && EndIsExtra(c.tree)
    ensures |FoundOne(lang, anonymous, c)| == if Relevant(lang, c, anonymous) then 1 else RelevantCount(c, anonymous)
  {
    if c.tree.Children() != [] {
      var d := c.tree.data;
      FoundCounted(lang, anonymous, d.productionId, 0, c.tree.children, c.at, true, ErrorClass(d.symbol));
      SummarisedCounts(lang, c.tree);
      hide Found, Summarised, ListSig;
    }
  }

  /** The listed nodes lookup does not find: what leaks below the children it looks into. */
  function Missed(lang: Language, production: nat, index: nat, cs: seq<Tree>, pos: Length, first: bool): nat
    decreases cs
  {
    if cs == [] then 0 else
    var n := Items(lang, production, index, cs, pos, first)[0];
    (if Relevant(lang, n, false) || NamedChildCount(cs[0]) == 0 then 0
     else Leaked(lang, cs[0].data.productionId, 0, cs[0].children, n.at, true))
    + Missed(lang, production, NextIndex(index, cs[0]), cs[1..], Add(n.at, cs[0].Size()), false)
  }

  function MissedBelow(lang: Language, anonymous: bool, n: NodeRef): nat {
    if anonymous then 0 else Missed(lang, Production(n.tree), 0, n.tree.Children(), n.at, true)
  }

  lemma {:induction false} MissedLeaks(lang: Language, p: nat, i: nat, cs: seq<Tree>, pos: Length, first: bool)
    requires Readable(lang, cs)
    ensures Missed(lang, p, i, cs, pos, first) <= Leaked(lang, p, i, cs, pos, first)
    decreases |cs|
  {
    if cs != [] {
      var n := Items(lang, p, i, cs, pos, first)[0];
      MissedLeaks(lang, p, NextIndex(i, cs[0]), cs[1..], Add(n.at, cs[0].Size()), false);
      if NamedChildCount(cs[0]) > 0 {
        var d := cs[0].data;
        KidsCounted(lang, d.productionId, 0, cs[0].children, n.at, true, ErrorClass(d.symbol));
        hide Kids, Good, ListSig;
      }
    }
  }

  /** Lookup finds what is listed but for what it misses. */
  lemma {:induction false} FoundIsListed(lang: Language, anonymous: bool, p: nat, i: nat, cs: seq<Tree>, pos: Length, first: bool)
    requires Readable(lang, cs)
    ensures var found := Found(lang, anonymous, p, i, cs, pos, first);
      var listed := Kids(lang, anonymous, p, i, cs, pos, first);
      var missed := if anonymous then 0 else Missed(lang, p, i, cs, pos, first);
      |found| + missed == |listed| && (missed == 0 ==> found == listed)
    decreases cs
  {
    hide Summarised, Relevant, Leaked;
    if cs != [] {
      var n := Items(lang, p, i, cs, pos, first)[0];
      FoundIsListed(lang, anonymous, p, NextIndex(i, cs[0]), cs[1..], Add(n.at, cs[0].Size()), false);
      if !Relevant(lang, n, anonymous) && RelevantCount(n, anonymous) > 0 {
        FoundIsListed(lang, anonymous, cs[0].data.productionId, 0, cs[0].children, n.at, true);
        ShareIsListed(lang, anonymous, n);
      }
    }
  }

  lemma ShareIsListed(lang: Language, anonymous: bool, c: NodeRef)
    requires Good(lang, c.tree) && EndIsExtra(c.tree) && RelevantCount(c, anonymous) > 0
    requires |FoundOf(lang, anonymous, c)| + MissedBelow(lang, anonymous, c) == |ChildrenOf(lang, anonymous, c)|
    requires MissedBelow(lang, anonymous, c) == 0 ==> FoundOf(lang, anonymous, c) == ChildrenOf(lang, anonymous, c)
    ensures var share := Cut(FoundOf(lang, anonymous, c), RelevantCount(c, anonymous));
      var leaked := if anonymous then 0 else Leaked(lang, Production(c.tree), 0, c.tree.Children(), c.at, true);
      && |share| + leaked == |ChildrenOf(lang, anonymous, c)|
      && (leaked == 0 ==> share == ChildrenOf(lang, anonymous, c))
  {
    var d := c.tree.data;
    CountsAreLengths(lang, c);
    FoundCounted(lang, anonymous, d.productionId, 0, c.tree.children, c.at, true, ErrorClass(d.symbol));
    SummarisedCounts(lang, c.tree);
    MissedLeaks(lang, d.productionId, 0, c.tree.children, c.at, true);
    hide Found, Kids, Leaked, Missed, Good, ListSig;
  }

  function At(ns: seq<NodeRef>, i: nat): Option<NodeRef> { if i < |ns| then Some(ns[i]) else None }

  /** A hidden node over a visible anonymous one, which holds a named leaf, and another named leaf; and a root over
      that: two named children are listed, and lookup misses one. */
  lemma MissedChild(lang: Language, leaf: InlineLeaf, at: Length)
    requires leaf.visible && leaf.named
    ensures var anonymous := NewNode(lang, 1, true, false, 0, [Inline(leaf)]);
      var hidden := NewNode(lang, 3, false, false, 0, [anonymous, Inline(leaf)]);
      var root := NodeRef(NewNode(lang, 2, true, true, 0, [hidden]), at, 0);
      Good(lang, root.tree) && |ChildrenOf(lang, false, root)| == 2 && MissedBelow(lang, false, root) == 1
  {
    var anonymous := NewNode(lang, 1, true, false, 0, [Inline(leaf)]);
    var cs := [anonymous, Inline(leaf)];
    var hidden := NewNode(lang, 3, false, false, 0, cs);
    OverOne(lang, 1, true, false, Inline(leaf));
    assert cs == [anonymous] + [Inline(leaf)];
    NamedOf(lang, 0, anonymous, [Inline(leaf)], ErrorClass(3));
    NamedOne(lang, NextIndex(0, anonymous), Inline(leaf), ErrorClass(3));
    NodeOver(lang, 3, false, false, cs);
    OverOne(lang, 2, true, true, hidden);
    hide NewNode, Good, ListSig, Kids, Leaked, Missed;
    KidsOfOne(lang, Inline(leaf), at);
    KidsOfOne(lang, hidden, at);
    KidsOfTwo(lang, anonymous, Inline(leaf), at);
    MissedOfOne(lang, hidden, at);
  }

  /** A visible anonymous node and a named leaf, as siblings. */
  lemma KidsOfTwo(lang: Language, anonymous: Tree, leaf: Tree, pos: Length)
    requires anonymous.Visible() && !anonymous.Named() && NamedChildCount(anonymous) > 0 && Production(anonymous) == 0
    requires leaf.Visible() && leaf.Named() && leaf.Children() == []
    ensures var below := |Kids(lang, false, 0, 0, anonymous.children, pos, true)|;
      && |Kids(lang, false, 0, 0, [anonymous, leaf], pos, true)| == below + 1
      && Leaked(lang, 0, 0, [anonymous, leaf], pos, true) == below
  {
    var i := NextIndex(0, anonymous);
    var after := Add(pos, anonymous.Size());
    assert [anonymous, leaf][1..] == [leaf] && [leaf][1..] == [];
    assert Items(lang, 0, 0, [anonymous, leaf], pos, true)[0] == NodeRef(anonymous, pos, 0);
    assert Items(lang, 0, i, [leaf], after, false)[0].tree == leaf && Items(lang, 0, i, [leaf], after, false)[0].alias == 0;
    assert |Kids(lang, false, 0, i, [leaf], after, false)| == 1;
    assert Leaked(lang, 0, i, [leaf], after, false) == 0;
  }

  lemma MissedOfOne(lang: Language, hidden: Tree, pos: Length)
    requires !hidden.Visible() && NamedChildCount(hidden) > 0 && Production(hidden) == 0
    ensures Missed(lang, 0, 0, [hidden], pos, true) == Leaked(lang, 0, 0, hidden.children, pos, true)
  {
    hide Leaked;
    assert [hidden][1..] == [];
    assert Items(lang, 0, 0, [hidden], pos, true)[0] == NodeRef(hidden, pos, 0);
  }

  /** Lookup by index agrees with the list at every index exactly when it misses nothing; it answers null from the
      first index it misses on. */
  lemma LookupIsListed(lang: Language, anonymous: bool, n: NodeRef)
    requires Good(lang, n.tree) && EndIsExtra(n.tree)
    ensures var found, listed := FoundOf(lang, anonymous, n), ChildrenOf(lang, anonymous, n);
      && |found| + MissedBelow(lang, anonymous, n) == |listed|
      && ((forall i: nat :: At(found, i) == At(listed, i)) <==> MissedBelow(lang, anonymous, n) == 0)
  {
    FoundIsListed(lang, anonymous, Production(n.tree), 0, n.tree.Children(), n.at, true);
    hide Found, Kids, Missed, Good;
    if MissedBelow(lang, anonymous, n) > 0 {
      var i := |FoundOf(lang, anonymous, n)|;
      assert At(FoundOf(lang, anonymous, n), i) != At(ChildrenOf(lang, anonymous, n), i);
    }
  }

  /** child: the node found at an index, or null: the entry of the list, when lookup misses nothing, and null past
      what it finds. */
  method Child(lang: Language, n: NodeRef, index: nat, anonymous: bool) returns (r: Option<NodeRef>)
    requires Good(lang, n.tree) && EndIsExtra(n.tree)
    ensures r == At(FoundOf(lang, anonymous, n), index)
    ensures MissedBelow(lang, anonymous, n) == 0 ==> r == At(ChildrenOf(lang, anonymous, n), index)
    ensures r == None <==> index + MissedBelow(lang, anonymous, n) >= |ChildrenOf(lang, anonymous, n)|
  {
    hide *;
    LookupIsListed(lang, anonymous, n);
    r := FindChild(lang, n, index, anonymous);
    AtNone(FoundOf(lang, anonymous, n), index);
  }

  method FindChild(lang: Language, n: NodeRef, index: nat, anonymous: bool) returns (r: Option<NodeRef>)
    requires Good(lang, n.tree) && EndIsExtra(n.tree)
    ensures r == At(FoundOf(lang, anonymous, n), index)
  {
    hide *;
    var result, childIndex, didDescend := n, index, true;
    while didDescend
      invariant didDescend ==> Good(lang, result.tree) && EndIsExtra(result.tree)
      invariant didDescend ==> At(FoundOf(lang, anonymous, result), childIndex) == At(FoundOf(lang, anonymous, n), index)
      invariant !didDescend ==> At(FoundOf(lang, anonymous, n), index) == None
      decreases result.tree, didDescend
    {
      didDescend := false;
      ghost var start := result;
      ghost var all := Below(lang, result);
      BelowFound(lang, anonymous, result);
      BelowSmaller(lang, result);
      BelowReadable(lang, result);
      FoundEnd(lang, anonymous, all);
      ghost var list := FoundSpread(lang, anonymous, all);
      ghost var before: seq<NodeRef>, k := [], 0;
      var passed := 0;
      var iter := new ChildIterator(lang, result);
      var child := iter.Next();
      while child.Some?
        invariant fresh(iter) && iter.Valid() && 0 <= k <= |all| && result == start && !didDescend
        invariant child.Some? ==> k < |all| && child.value == all[k] && iter.Rest() == all[k + 1..]
        invariant child.None? ==> k == |all|
        invariant list == before + FoundSpread(lang, anonymous, all[k..]) && |before| == passed <= childIndex
        decreases |all| - k
      {
        var c := child.value;
        FoundStep(lang, anonymous, all, k);
        ShareIsSkipped(lang, anonymous, c);
        FoundOneIs(lang, anonymous, c);
        before := before + FoundOne(lang, anonymous, c);
        if Relevant(lang, c, anonymous) {
          if passed == childIndex {
            AtWithin(list, before, FoundSpread(lang, anonymous, all[k + 1..]), [c], passed, childIndex);
            AtFirst(c);
            return Some(c);
          }
          passed := passed + 1;
        } else {
          var grandchildIndex := childIndex - passed;
          var grandchildCount := RelevantCount(c, anonymous);
          if grandchildIndex < grandchildCount {
            AtWithin(list, before, FoundSpread(lang, anonymous, all[k + 1..]), FoundOne(lang, anonymous, c), passed, childIndex);
            AtCut(FoundOf(lang, anonymous, c), grandchildCount, grandchildIndex);
            didDescend, result, childIndex := true, c, grandchildIndex;
            break;
          }
          passed := passed + grandchildCount;
        }
        k := k + 1;
        child := iter.Next();
      }
      if !didDescend {
        AtPast(list, childIndex);
      }
    }
    return None;
  }

  lemma BelowReadable(lang: Language, n: NodeRef)
    requires Good(lang, n.tree) && EndIsExtra(n.tree)
    ensures forall j :: 0 <= j < |Below(lang, n)| ==> Good(lang, Below(lang, n)[j].tree) && EndIsExtra(Below(lang, n)[j].tree)
  {
    BelowSmaller(lang, n);
    hide Below;
  }

  lemma FoundStep(lang: Language, anonymous: bool, all: seq<NodeRef>, k: nat)
    requires k < |all|
    ensures FoundSpread(lang, anonymous, all[k..]) == FoundOne(lang, anonymous, all[k]) + FoundSpread(lang, anonymous, all[k + 1..])
  {
    hide FoundOne;
    assert all[k..][0] == all[k] && all[k..][1..] == all[k + 1..];
  }

  lemma FoundEnd(lang: Language, anonymous: bool, all: seq<NodeRef>)
    ensures FoundSpread(lang, anonymous, all[|all|..]) == []
    ensures all[0..] == all
  {
  }

  lemma FoundOneIs(lang: Language, anonymous: bool, c: NodeRef)
    ensures Relevant(lang, c, anonymous) ==> FoundOne(lang, anonymous, c) == [c]
    ensures !Relevant(lang, c, anonymous) && RelevantCount(c, anonymous) > 0 ==>
              FoundOne(lang, anonymous, c) == Cut(FoundOf(lang, anonymous, c), RelevantCount(c, anonymous))
  {
  }

  lemma AtCut(ns: seq<NodeRef>, k: nat, i: nat)
    requires i < k
    ensures At(Cut(ns, k), i) == At(ns, i)
  {
  }

  lemma AtNone(ns: seq<NodeRef>, i: nat)
    ensures At(ns, i) == None <==> i >= |ns|
  {
  }

  lemma AtWithin(list: seq<NodeRef>, before: seq<NodeRef>, after: seq<NodeRef>, part: seq<NodeRef>, passed: nat, i: nat)
    requires passed <= i && passed + |part| == |before| && before[passed..] == part && i < |before|
    requires list == before + after
    ensures At(list, i) == At(part, i - passed)
  {
    assert part[i - passed] == before[passed..][i - passed];
  }

  lemma AtFirst(c: NodeRef)
    ensures At([c], 0) == Some(c)
  {
  }

  lemma AtPast(list: seq<NodeRef>, i: nat)
    requires |list| <= i
    ensures At(list, i) == None
  {
  }

  // ---------------------------------------------------------------- the cursor

  datatype CursorEntry = CursorEntry(node: NodeRef, childIndex: nat, siblings: seq<NodeRef>)

  /** An entry stands in a list of children. */
  predicate Placed(e: CursorEntry, children: seq<NodeRef>) {
    e.siblings == children && e.childIndex < |children| && e.node == children[e.childIndex]
  }

  /** Every entry stands among the children of the one before. */
  ghost predicate Standing(lang: Language, stack: seq<CursorEntry>)
    decreases |stack|
  {
    |stack| < 2 ||
    (Placed(stack[|stack| - 1], ChildrenOf(lang, true, stack[|stack| - 2].node)) && Standing(lang, stack[..|stack| - 1]))
  }

  /** TreeCursor: a stack of entries, each below the first standing in its parent's list of children. */
  class TreeCursor {
    const lang: Language
    var stack: seq<CursorEntry>

    ghost predicate Valid()
      reads this
    {
      stack != [] && Standing(lang, stack)
    }

    function Node(): NodeRef
      reads this
      requires stack != []
    {
      stack[|stack| - 1].node
    }

    constructor (lang: Language, n: NodeRef)
      ensures Valid() && Node() == n && |stack| == 1 && this.lang == lang
    {
      this.lang, stack := lang, [CursorEntry(n, 0, [])];
    }

    method GotoFirstChild() returns (moved: bool)
      requires Valid()
      modifies this
      ensures Valid() && moved == (ChildrenOf(lang, true, old(Node())) != [])
      ensures !moved ==> stack == old(stack)
      ensures moved ==> stack == old(stack) + [CursorEntry(Node(), 0, ChildrenOf(lang, true, old(Node())))]
    {
      hide ChildrenOf;
      var children := AppendChildren(lang, Node(), [], true);
      assert children == ChildrenOf(lang, true, Node());
      if |children| == 0 { return false; }
      assert (stack + [CursorEntry(children[0], 0, children)])[..|stack|] == stack;
      stack := stack + [CursorEntry(children[0], 0, children)];
      moved := true;
    }

    method GotoNextSibling() returns (moved: bool)
      requires Valid()
      modifies this
      ensures Valid() && moved == (|old(stack)| >= 2 && old(stack[|stack| - 1].childIndex) + 1 < |old(stack[|stack| - 1].siblings)|)
      ensures !moved ==> stack == old(stack)
      ensures moved ==> var top := old(stack[|stack| - 1]);
        stack == old(stack)[..|old(stack)| - 1] + [CursorEntry(Node(), top.childIndex + 1, top.siblings)]
    {
      hide ChildrenOf;
      if |stack| < 2 { return false; }
      var top := stack[|stack| - 1];
      if top.childIndex + 1 >= |top.siblings| { return false; }
      stack := stack[..|stack| - 1] + [CursorEntry(top.siblings[top.childIndex + 1], top.childIndex + 1, top.siblings)];
      assert stack[..|stack| - 1] == old(stack)[..|stack| - 1];
      moved := true;
    }

    method GotoPreviousSibling() returns (moved: bool)
      requires Valid()
      modifies this
      ensures Valid() && moved == (|old(stack)| >= 2 && old(stack[|stack| - 1].childIndex) > 0)
      ensures !moved ==> stack == old(stack)
      ensures moved ==> var top := old(stack[|stack| - 1]);
        stack == old(stack)[..|old(stack)| - 1] + [CursorEntry(Node(), top.childIndex - 1, top.siblings)]
    {
      hide ChildrenOf;
      if |stack| < 2 { return false; }
      var top := stack[|stack| - 1];
      if top.childIndex == 0 { return false; }
      stack := stack[..|stack| - 1] + [CursorEntry(top.siblings[top.childIndex - 1], top.childIndex - 1, top.siblings)];
      assert stack[..|stack| - 1] == old(stack)[..|stack| - 1];
      moved := true;
    }

    method GotoParent() returns (moved: bool)
      requires Valid()
      modifies this
      ensures Valid() && moved == (|old(stack)| >= 2)
      ensures stack == if moved then old(stack)[..|old(stack)| - 1] else old(stack)
    {
      if |stack| < 2 { return false; }
      stack := stack[..|stack| - 1];
      moved := true;
    }
  }

  /** Stepping through siblings visits exactly the node's children, in order, and going up again
      leaves the cursor where it was. */
  method WalkChildren(c: TreeCursor) returns (visited: seq<NodeRef>)
    requires c.Valid()
    modifies c
    ensures c.Valid() && c.stack == old(c.stack) && visited == ChildrenOf(c.lang, true, c.Node())
  {
    hide ChildrenOf;
    visited := [];
    ghost var all := ChildrenOf(c.lang, true, c.Node());
    var base := c.stack;
    var more := c.GotoFirstChild();
    if !more { return; }
    while more
      invariant c.Valid() && |c.stack| == |base| + 1 && c.stack[..|base|] == base
      invariant var top := c.stack[|base|];
        top.siblings == all && visited == all[..if more then top.childIndex else top.childIndex + 1]
      invariant !more ==> c.stack[|base|].childIndex + 1 == |all|
      decreases |all| - c.stack[|base|].childIndex, more
    {
      visited := visited + [c.Node()];
      assert c.stack[|base|].siblings == all;
      more := c.GotoNextSibling();
    }
    var _ := c.GotoParent();
  }

  // ---------------------------------------------------------------- positions

  /** The children a reader is given are the visible nodes directly below, at their places. */
  ghost predicate Shows(v: Visible, n: NodeRef) {
    v.symbol == n.tree.Symbol() && v.alias == n.alias && v.start == n.at && v.size == n.tree.Size()
  }

  ghost predicate ShowsAll(seen: seq<Visible>, kids: seq<NodeRef>) {
    |kids| == |seen| && forall k :: 0 <= k < |kids| ==> Shows(seen[k], kids[k])
  }

  lemma ShowsAppend(a: seq<Visible>, b: seq<Visible>, c: seq<NodeRef>, d: seq<NodeRef>)
    requires ShowsAll(a, c) && ShowsAll(b, d)
    ensures ShowsAll(a + b, c + d)
  {
    hide Shows;
  }

  lemma {:induction false} KidsAreSeen(lang: Language, p: nat, i: nat, cs: seq<Tree>, at: Length, pos: Length, first: bool)
    requires Readable(lang, cs)
    requires pos == if first && cs != [] then Add(at, cs[0].Padding()) else at
    ensures ShowsAll(Seen(lang, p, i, cs, at), Kids(lang, true, p, i, cs, pos, first))
    decreases cs, 1
  {
    hide Good, ShowsAll, SeenChild, One, Stands;
    if cs == [] {
      ShowsNone();
    } else {
      var c := cs[0];
      var n := Items(lang, p, i, cs, pos, first)[0];
      AddAssociative(at, c.Padding(), c.Size());
      assert n == NodeRef(c, Add(at, c.Padding()), AliasHere(lang, p, i, c));
      KidsAreSeen(lang, p, NextIndex(i, c), cs[1..], Add(at, c.Total()), Add(n.at, c.Size()), false);
      OneIsSeen(lang, p, i, c, at, n);
      KidsStep(lang, p, i, cs, pos, first);
      ShowsAppend(SeenChild(lang, p, i, c, at), Seen(lang, p, NextIndex(i, c), cs[1..], Add(at, c.Total())),
                  One(lang, true, n), Kids(lang, true, p, NextIndex(i, c), cs[1..], Add(n.at, c.Size()), false));
    }
  }

  lemma ShowsNone()
    ensures ShowsAll([], [])
  {
  }

  lemma KidsStep(lang: Language, p: nat, i: nat, cs: seq<Tree>, pos: Length, first: bool)
    requires cs != []
    ensures var n := Items(lang, p, i, cs, pos, first)[0];
      Kids(lang, true, p, i, cs, pos, first)
      == One(lang, true, n) + Kids(lang, true, p, NextIndex(i, cs[0]), cs[1..], Add(n.at, cs[0].Size()), false)
  {
    hide Relevant;
    var n := Items(lang, p, i, cs, pos, first)[0];
    if cs[0].Children() != [] { KidsBelow(lang, n); }
  }

  lemma {:induction false} OneIsSeen(lang: Language, p: nat, i: nat, c: Tree, at: Length, n: NodeRef)
    requires Good(lang, c) && EndIsExtra(c) && n == NodeRef(c, Add(at, c.Padding()), AliasHere(lang, p, i, c))
    ensures ShowsAll(SeenChild(lang, p, i, c, at), One(lang, true, n))
    decreases c, 0
  {
    hide Kids, Seen, Summarised, Items;
    assert Stands(lang, p, i, c) <==> Relevant(lang, n, true);
    if !Relevant(lang, n, true) && c.Children() != [] {
      FirstPaddingIs(lang, c);
      KidsAreSeen(lang, c.data.productionId, 0, c.children, at, n.at, true);
      KidsBelow(lang, n);
      CountsAreLengths(lang, n);
    }
    if c.Inline? || c.children == [] { SeenNothing(lang, c, at); }
  }

  lemma SeenNothing(lang: Language, c: Tree, at: Length)
    ensures Seen(lang, Production(c), 0, [], at) == []
    ensures c.Node? ==> Seen(lang, c.data.productionId, 0, [], at) == []
  {
  }

  lemma KidsBelow(lang: Language, n: NodeRef)
    requires n.tree.Children() != []
    ensures ChildrenOf(lang, true, n) == Kids(lang, true, n.tree.data.productionId, 0, n.tree.children, n.at, true)
  {
  }

  lemma FirstPaddingIs(lang: Language, t: Tree)
    requires Good(lang, t) && t.Children() != []
    ensures t.Padding() == t.children[0].Padding()
  {
    hide ItemSig;
    ListSigUnfold(lang, t.data.productionId, 0, t.children, ErrorClass(t.data.symbol));
    hide ListSig;
    PaddingOfItem(lang, t.data.productionId, 0, t.children[0], ErrorClass(t.data.symbol));
  }

  lemma PaddingOfItem(lang: Language, p: nat, i: nat, t: Tree, err: bool)
    ensures ItemSig(lang, p, i, t, err).Sig? && ItemSig(lang, p, i, t, err).padding == t.Padding()
  {
    hide ChildCost;
  }
}
