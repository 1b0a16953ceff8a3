/** What a reader of a tree sees of it: its leaves with their positions, and the tree of its visible
    nodes with hidden ones spliced out. */
module VisibleTrees {
  import opened Lengths
  import opened Trees
  import opened Summaries

  /** The extent of a run of siblings, paddings included. */
  function Totals(cs: seq<Tree>): Length
    decreases |cs|
  {
    if cs == [] then ZERO else Add(cs[0].Total(), Totals(cs[1..]))
  }

  lemma {:induction false} TotalsAppend(a: seq<Tree>, b: seq<Tree>)
    ensures Totals(a + b) == Add(Totals(a), Totals(b))
    decreases |a|
  {
    if a == [] {
      assert a + b == b;
    } else {
      assert (a + b)[0] == a[0] && (a + b)[1..] == a[1..] + b;
      TotalsAppend(a[1..], b);
      AddAssociative(a[0].Total(), Totals(a[1..]), Totals(b));
    }
  }

  lemma {:induction false} SigTotals(lang: Language, production: nat, index: nat, cs: seq<Tree>, err: bool)
    requires cs != []
    ensures var s := ListSig(lang, production, index, cs, err); s.Sig? && Add(s.padding, s.size) == Totals(cs)
    decreases |cs|
  {
    hide ChildCost, ChildVisible, ChildNamed, ChildDescendants;
    if |cs| == 1 {
      assert cs[1..] == [];
    } else {
      SigTotals(lang, production, NextIndex(index, cs[0]), cs[1..], err);
      AddAssociative(cs[0].Padding(), cs[0].Size(), Totals(cs[1..]));
    }
  }

  /** A summarised node spans exactly its children. */
  lemma SummarisedTotal(lang: Language, t: Tree)
    requires Summarised(lang, t) && t.Children() != []
    ensures t.Total() == Totals(t.children)
  {
    hide ListSig;
    SigTotals(lang, t.data.productionId, 0, t.children, ErrorClass(t.data.symbol));
  }

  // ---------------------------------------------------------------- leaves

  /** The leaves of a run of siblings that starts at `at`, each with where its padding starts. */
  function Leaves(cs: seq<Tree>, at: Length): seq<(Tree, Length)>
    decreases cs
  {
    if cs == [] then [] else
    (match cs[0]
     case Inline(_) => [(cs[0], at)]
     case Node(_, ds) => if ds == [] then [(cs[0], at)] else Leaves(ds, at))
    + Leaves(cs[1..], Add(at, cs[0].Total()))
  }

  lemma {:induction false} LeavesAppend(a: seq<Tree>, b: seq<Tree>, at: Length)
    ensures Leaves(a + b, at) == Leaves(a, at) + Leaves(b, Add(at, Totals(a)))
    decreases |a|
  {
    if a == [] {
      assert a + b == b;
      AddZero(at);
    } else {
      assert (a + b)[0] == a[0] && (a + b)[1..] == a[1..] + b;
      LeavesAppend(a[1..], b, Add(at, a[0].Total()));
      AddAssociative(at, a[0].Total(), Totals(a[1..]));
    }
  }

  /** A node with children has the leaves of its children. */
  lemma LeavesOfNode(t: Tree, at: Length)
    requires t.Children() != []
    ensures Leaves([t], at) == Leaves(t.children, at)
  {
    assert [t][1..] == [];
  }

  // ---------------------------------------------------------------- visible nodes

  /** A visible node: its symbol, its alias (zero for none), where it starts, its extent, and the
      visible nodes directly under it. */
  datatype Visible = Visible(symbol: nat, alias: nat, named: bool, start: Length, size: Length, children: seq<Visible>)

  function AliasHere(lang: Language, production: nat, index: nat, child: Tree): nat {
    if Aliased(lang, production, index, child) then AliasOf(lang, production, index) else 0
  }

  predicate Stands(lang: Language, production: nat, index: nat, child: Tree) {
    Aliased(lang, production, index, child) || child.Visible()
  }

  function Production(t: Tree): nat { if t.Children() == [] then 0 else t.data.productionId }

  /** The visible nodes of a run of siblings: a hidden node gives way to those under it. */
  function Seen(lang: Language, production: nat, index: nat, cs: seq<Tree>, at: Length): seq<Visible>
    decreases cs, 1
  {
    if cs == [] then [] else
    SeenChild(lang, production, index, cs[0], at)
    + Seen(lang, production, NextIndex(index, cs[0]), cs[1..], Add(at, cs[0].Total()))
  }

  function SeenChild(lang: Language, production: nat, index: nat, t: Tree, at: Length): seq<Visible>
    decreases t, 0
  {
    var below := match t case Inline(_) => [] case Node(d, cs) => Seen(lang, d.productionId, 0, cs, at);
    if Stands(lang, production, index, t) then
      [Visible(t.Symbol(), AliasHere(lang, production, index, t), t.Named(), Add(at, t.Padding()), t.Size(), below)]
    else below
  }

  lemma {:induction false} SeenAppend(lang: Language, p: nat, a: seq<Tree>, b: seq<Tree>, at: Length)
    requires AliasFree(lang, p)
    ensures Seen(lang, p, 0, a + b, at) == Seen(lang, p, 0, a, at) + Seen(lang, p, 0, b, Add(at, Totals(a)))
    decreases |a|
  {
    hide SeenChild;
    if a == [] {
      assert a + b == b;
      AddZero(at);
    } else {
      assert (a + b)[0] == a[0] && (a + b)[1..] == a[1..] + b;
      var next := Add(at, a[0].Total());
      SeenAppend(lang, p, a[1..], b, next);
      SeenAnywhere(lang, p, NextIndex(0, a[0]), 0, p, a[1..], next);
      SeenAnywhere(lang, p, NextIndex(0, a[0]), 0, p, a[1..] + b, next);
      AddAssociative(at, a[0].Total(), Totals(a[1..]));
    }
  }

  lemma {:induction false} SeenAnywhere(lang: Language, p: nat, i: nat, j: nat, q: nat, cs: seq<Tree>, at: Length)
    requires AliasFree(lang, p) && AliasFree(lang, q)
    ensures Seen(lang, p, i, cs, at) == Seen(lang, q, j, cs, at)
    decreases |cs|
  {
    if cs != [] {
      assert AliasOf(lang, p, i) == 0 && AliasOf(lang, q, j) == 0;
      SeenAnywhere(lang, p, NextIndex(i, cs[0]), NextIndex(j, cs[0]), q, cs[1..], Add(at, cs[0].Total()));
    }
  }
}
