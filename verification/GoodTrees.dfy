/** A tree whose summaries are sums is ready for editing and reuse: it is byte-consistent, and every
    parent's reach covers its children's. */
module GoodTrees {
  import opened Lengths
  import opened Trees
  import opened Summaries
  import opened VisibleTrees
  import EditRuns

  lemma {:induction false} TotalsBytes(cs: seq<Tree>)
    ensures Totals(cs).bytes == Bytes(cs)
    decreases |cs|
  {
    if cs != [] { TotalsBytes(cs[1..]); }
  }

  lemma SigHead(lang: Language, p: nat, i: nat, cs: seq<Tree>, err: bool)
    requires cs != []
    ensures var s := ListSig(lang, p, i, cs, err);
      s.Sig? && s.padding == cs[0].Padding() && s.reach >= cs[0].Total().bytes + cs[0].Lookahead()
  {
    hide ChildCost, ChildVisible, ChildNamed, ChildDescendants;
  }

  lemma SigTail(lang: Language, p: nat, i: nat, cs: seq<Tree>, err: bool)
    requires |cs| > 1
    ensures var s, rest := ListSig(lang, p, i, cs, err), ListSig(lang, p, NextIndex(i, cs[0]), cs[1..], err);
      s.Sig? && rest.Sig? && s.reach >= cs[0].Total().bytes + rest.reach
  {
    hide ChildCost, ChildVisible, ChildNamed, ChildDescendants;
    SigHead(lang, p, NextIndex(i, cs[0]), cs[1..], err);
  }

  lemma {:induction false} GoodIsConsistent(lang: Language, t: Tree)
    requires Good(lang, t)
    ensures Consistent(t)
    decreases t
  {
    if t.Node? {
      hide Summarised, ListSig;
      if t.children != [] {
        SummarisedTotal(lang, t);
        TotalsBytes(t.children);
        GoodPadding(lang, t);
      }
      forall i | 0 <= i < |t.children| ensures Consistent(t.children[i]) {
        GoodIsConsistent(lang, t.children[i]);
      }
    }
  }

  lemma GoodPadding(lang: Language, t: Tree)
    requires Summarised(lang, t) && t.Children() != []
    ensures t.Padding() == t.children[0].Padding()
    ensures var s := ListSig(lang, t.data.productionId, 0, t.children, ErrorClass(t.data.symbol));
      s.Sig? && s.reach == t.Total().bytes + t.Lookahead()
  {
    hide ListSig;
    SigHead(lang, t.data.productionId, 0, t.children, ErrorClass(t.data.symbol));
  }

  lemma {:induction false} GoodIsCovered(lang: Language, t: Tree)
    requires Good(lang, t)
    ensures EditRuns.Covered(t)
    decreases t, 1
  {
    if t.Node? && t.children != [] {
      GoodPadding(lang, t);
      hide ListSig;
      var err := ErrorClass(t.data.symbol);
      GoodAllCovered(lang, t.data.productionId, 0, t.children, err, 0, t.Total().bytes + t.Lookahead());
    }
  }

  lemma {:induction false} GoodAllCovered(lang: Language, p: nat, i: nat, cs: seq<Tree>, err: bool, x: nat, limit: nat)
    requires AllGood(lang, cs)
    requires cs != [] ==> ListSig(lang, p, i, cs, err).Sig? && x + ListSig(lang, p, i, cs, err).reach <= limit
    ensures EditRuns.CoveredAll(cs, x, limit)
    decreases cs, 0
  {
    hide ListSig, Good;
    if cs != [] {
      SigHead(lang, p, i, cs, err);
      GoodIsCovered(lang, cs[0]);
      if |cs| > 1 { SigTail(lang, p, i, cs, err); }
      GoodAllCovered(lang, p, NextIndex(i, cs[0]), cs[1..], err, x + cs[0].Total().bytes, limit);
    }
  }
}
