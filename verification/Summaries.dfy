/** Cached summaries (subtree_core.go:262-405): what re-summarising a node computes, and what the
    numbers mean as a sum over its children. */
module Summaries {
  import opened Lengths
  import opened Trees

  const STATE_NONE := 0xFFFF

  /** What a summary needs of a language: the alias of a child of a production (zero for none),
      and which symbols are named. */
  datatype Language = Language(alias: (nat, nat) -> nat, isNamed: nat -> bool)

  function AliasOf(lang: Language, production: nat, index: nat): nat {
    if production == 0 then 0 else lang.alias(production, index)
  }

  ghost predicate AliasFree(lang: Language, production: nat) {
    forall i :: AliasOf(lang, production, i) == 0
  }

  // ---------------------------------------------------------------- two-arm accessors

  function VisibleChildCount(t: Tree): nat { if t.Children() == [] then 0 else t.data.visibleChildCount }

  function NamedChildCount(t: Tree): nat { if t.Children() == [] then 0 else t.data.namedChildCount }

  function LeafSymbol(t: Tree): nat { if t.Children() == [] then t.Symbol() else t.data.firstLeafSymbol }

  function LeafParseState(t: Tree): nat {
    match t
    case Inline(l) => l.parseState
    case Node(d, cs) => if cs == [] then d.parseState else d.firstLeafParseState
  }

  function RepeatDepth(t: Tree): nat { if t.Inline? then 0 else t.data.repeatDepth }

  predicate FragileLeft(t: Tree) { t.Node? && t.data.fragileLeft }

  predicate FragileRight(t: Tree) { t.Node? && t.data.fragileRight }

  predicate HasExternalTokens(t: Tree) { t.Node? && t.data.hasExternalTokens }

  predicate HasStateChange(t: Tree) { t.Node? && t.data.hasExternalScannerStateChange }

  // ---------------------------------------------------------------- re-summarising

  predicate ErrorClass(symbol: nat) { symbol == SYM_ERROR || symbol == SYM_ERROR_REPEAT }

  function ExtentCost(size: Length): int {
    COST_PER_RECOVERY + COST_PER_SKIPPED_CHAR * size.bytes + COST_PER_SKIPPED_LINE * size.extent.row
  }

  predicate Aliased(lang: Language, production: nat, index: nat, child: Tree) {
    !child.Extra() && child.Symbol() != SYM_END && AliasOf(lang, production, index) != 0
  }

  /** What a child adds to the error cost of a parent; `err` says the parent is an error node. */
  function ChildCost(child: Tree, err: bool): int {
    if child.Symbol() == SYM_ERROR_REPEAT then child.ErrorCost() - ExtentCost(child.Size())
    else child.ErrorCost() + SkippedCost(child, err)
  }

  function SkippedCost(child: Tree, err: bool): int {
    if !err || child.Extra() || (child.IsError() && child.Children() == []) then 0
    else if child.Visible() then COST_PER_SKIPPED_TREE
    else COST_PER_SKIPPED_TREE * VisibleChildCount(child)
  }

  /** The visible and named children a child stands for. */
  function ChildVisible(lang: Language, production: nat, index: nat, child: Tree): nat {
    if Aliased(lang, production, index, child) || child.Visible() then 1 else VisibleChildCount(child)
  }

  function ChildNamed(lang: Language, production: nat, index: nat, child: Tree): nat {
    if Aliased(lang, production, index, child) then (if lang.isNamed(AliasOf(lang, production, index)) then 1 else 0)
    else if child.Visible() then (if child.Named() then 1 else 0)
    else NamedChildCount(child)
  }

  function ChildDescendants(lang: Language, production: nat, index: nat, child: Tree): nat {
    child.VisibleDescendants() + (if Aliased(lang, production, index, child) || child.Visible() then 1 else 0)
  }

  function Larger(a: nat, b: nat): nat { if a < b then b else a }

  /** The node being re-summarised, the next structural index, and the furthest lookahead so far. */
  datatype Acc = Acc(d: NodeData, index: nat, reach: nat)

  function Cleared(d: NodeData): NodeData {
    d.(namedChildCount := 0, visibleChildCount := 0, errorCost := 0, repeatDepth := 0, visibleDescendantCount := 0,
       hasExternalTokens := false, dependsOnColumn := false, hasExternalScannerStateChange := false,
       dynamicPrecedence := 0)
  }

  /** A child's contribution added to the node: its extents, its costs and counts, its flags. */
  function Added(d: NodeData, padding: Length, size: Length, cost: int, precedence: int,
                 below: nat, seen: nat, named: nat, column: bool, stateChange: bool, external: bool,
                 broken: bool): NodeData
  {
    d.(padding := padding, size := size, errorCost := d.errorCost + cost,
       dynamicPrecedence := d.dynamicPrecedence + precedence,
       visibleDescendantCount := d.visibleDescendantCount + below,
       visibleChildCount := d.visibleChildCount + seen, namedChildCount := d.namedChildCount + named,
       dependsOnColumn := column, hasExternalScannerStateChange := stateChange, hasExternalTokens := external,
       fragileLeft := d.fragileLeft || broken, fragileRight := d.fragileRight || broken,
       parseState := if broken then STATE_NONE else d.parseState)
  }

  /** One round of the child loop.  The column test reads the size before the child is added, which
      for the first child is the size the node had before. */
  function Step(lang: Language, a: Acc, child: Tree, first: bool): Acc {
    var d := a.d;
    var padding := if first then child.Padding() else d.padding;
    var size := if first then child.Size() else Add(d.size, child.Total());
    Acc(Added(d, padding, size, ChildCost(child, ErrorClass(d.symbol)), child.DynamicPrecedence(),
              ChildDescendants(lang, d.productionId, a.index, child),
              ChildVisible(lang, d.productionId, a.index, child), ChildNamed(lang, d.productionId, a.index, child),
              d.dependsOnColumn || (d.size.extent.row == 0 && child.DependsOnColumn()),
              d.hasExternalScannerStateChange || HasStateChange(child),
              d.hasExternalTokens || HasExternalTokens(child), child.IsError()),
        if child.Extra() then a.index else a.index + 1,
        Larger(a.reach, padding.bytes + size.bytes + child.Lookahead()))
  }

  function Steps(lang: Language, a: Acc, cs: seq<Tree>, first: bool): Acc
    decreases |cs|
  {
    if cs == [] then a else Steps(lang, Step(lang, a, cs[0], first), cs[1..], false)
  }

  /** The depth of a repetition node: one more than its deeper end. */
  function DepthOf(d: NodeData, cs: seq<Tree>): nat {
    if |cs| < 2 || d.visible || d.named || cs[0].Symbol() != d.symbol then d.repeatDepth
    else (Larger(RepeatDepth(cs[|cs| - 1]), RepeatDepth(cs[0])) + 1) % 0x1_0000
  }

  /** What the loop's end adds: the node's own lookahead, its own extent cost, and what comes from
      its first and last child. */
  function Finished(a: Acc, cs: seq<Tree>): NodeData {
    var look := Minus(a.reach, a.d.size.bytes + a.d.padding.bytes);
    var cost := a.d.errorCost + if ErrorClass(a.d.symbol) then ExtentCost(a.d.size) else 0;
    var d := a.d.(lookaheadBytes := look, errorCost := cost, repeatDepth := DepthOf(a.d, cs));
    if cs == [] then d else EndsSet(d, cs[0], cs[|cs| - 1])
  }

  function EndsSet(d: NodeData, head: Tree, last: Tree): NodeData {
    d.(firstLeafSymbol := LeafSymbol(head), firstLeafParseState := LeafParseState(head),
       fragileLeft := d.fragileLeft || FragileLeft(head), fragileRight := d.fragileRight || FragileRight(last))
  }

  function Summed(lang: Language, d: NodeData, cs: seq<Tree>): NodeData {
    Finished(Steps(lang, Acc(Cleared(d), 0, 0), cs, true), cs)
  }

  function Resum(lang: Language, t: Tree): Tree
    requires t.Node?
  {
    Node(Summed(lang, t.data, t.children), t.children)
  }

  /** subtreeSummarizeChildren on a node's fields and the handles of its children. */
  method SummarizeChildren(lang: Language, self: NodeData, children: seq<Tree>) returns (d: NodeData)
    ensures d == Summed(lang, self, children)
  {
    hide Step, ChildCost, Finished;
    d := self.(namedChildCount := 0, visibleChildCount := 0, errorCost := 0, repeatDepth := 0);
    d := d.(visibleDescendantCount := 0, hasExternalTokens := false, dependsOnColumn := false);
    d := d.(hasExternalScannerStateChange := false, dynamicPrecedence := 0);
    var index, reach: nat, i := 0, 0, 0;
    ghost var whole := Steps(lang, Acc(Cleared(self), 0, 0), children, true);
    while i < |children|
      invariant 0 <= i <= |children|
      invariant whole == Steps(lang, Acc(d, index, reach), children[i..], i == 0)
    {
      assert children[i..][0] == children[i] && children[i..][1..] == children[i + 1..];
      d, index, reach := SummarizeChild(lang, d, index, reach, children[i], i == 0);
      i := i + 1;
    }
    assert children[i..] == [];
    d := SummarizeEnds(d, index, reach, children);
  }

  /** The body of the child loop. */
  method SummarizeChild(lang: Language, self: NodeData, index: nat, reach: nat, child: Tree, first: bool)
    returns (d: NodeData, index': nat, reach': nat)
    ensures Acc(d, index', reach') == Step(lang, Acc(self, index, reach), child, first)
  {
    hide Added, ChildVisible, ChildNamed, ChildDescendants, ChildCost, ErrorClass;
    var column, stateChange, external := self.dependsOnColumn, self.hasExternalScannerStateChange, self.hasExternalTokens;
    index', reach' := index, reach;
    if self.size.extent.row == 0 && child.DependsOnColumn() { column := true; }
    if HasStateChange(child) { stateChange := true; }
    var padding, size := self.padding, self.size;
    if first {
      padding, size := child.Padding(), child.Size();
    } else {
      size := Add(size, child.Total());
    }
    var end := padding.bytes + size.bytes + child.Lookahead();
    if end > reach { reach' := end; }
    var cost := ErrorCostBy(child, ErrorClass(self.symbol));
    var seen, named, below := CountChild(lang, self.productionId, index, child);
    if HasExternalTokens(child) { external := true; }
    if !child.Extra() { index' := index + 1; }
    d := Added(self, padding, size, cost, child.DynamicPrecedence(), below, seen, named, column, stateChange, external,
               child.IsError());
  }

  method ErrorCostBy(child: Tree, err: bool) returns (cost: int)
    ensures cost == ChildCost(child, err)
  {
    var grandchildren := |child.Children()|;
    if child.Symbol() == SYM_ERROR_REPEAT {
      return child.ErrorCost() - ExtentCost(child.Size());
    }
    cost := child.ErrorCost();
    if err && !child.Extra() && !(child.IsError() && grandchildren == 0) {
      if child.Visible() {
        cost := cost + COST_PER_SKIPPED_TREE;
      } else if grandchildren > 0 {
        cost := cost + COST_PER_SKIPPED_TREE * VisibleChildCount(child);
      }
    }
  }

  /** The visible, named and descendant counts a child brings. */
  method CountChild(lang: Language, production: nat, index: nat, child: Tree) returns (seen: nat, named: nat, below: nat)
    ensures seen == ChildVisible(lang, production, index, child)
    ensures named == ChildNamed(lang, production, index, child)
    ensures below == ChildDescendants(lang, production, index, child)
  {
    var alias := AliasOf(lang, production, index);
    seen, named, below := 0, 0, child.VisibleDescendants();
    if !child.Extra() && child.Symbol() != SYM_END && alias != 0 {
      below, seen := below + 1, 1;
      if lang.isNamed(alias) { named := 1; }
    } else if child.Visible() {
      below, seen := below + 1, 1;
      if child.Named() { named := 1; }
    } else if |child.Children()| > 0 {
      seen, named := VisibleChildCount(child), NamedChildCount(child);
    }
  }

  method SummarizeEnds(self: NodeData, index: nat, reach: nat, children: seq<Tree>) returns (d: NodeData)
    ensures d == Finished(Acc(self, index, reach), children)
  {
    hide EndsSet, RepeatDepth;
    var look, cost := Minus(reach, self.size.bytes + self.padding.bytes), self.errorCost;
    if ErrorClass(self.symbol) { cost := cost + ExtentCost(self.size); }
    var depth := self.repeatDepth;
    if |children| > 0 {
      var firstChild, lastChild := children[0], children[|children| - 1];
      if |children| >= 2 && !self.visible && !self.named && firstChild.Symbol() == self.symbol {
        if RepeatDepth(firstChild) > RepeatDepth(lastChild) {
          depth := (RepeatDepth(firstChild) + 1) % 0x1_0000;
        } else {
          depth := (RepeatDepth(lastChild) + 1) % 0x1_0000;
        }
      }
    }
    d := self.(lookaheadBytes := look, errorCost := cost, repeatDepth := depth);
    if |children| > 0 {
      d := EndsSet(d, children[0], children[|children| - 1]);
    }
  }

  // ---------------------------------------------------------------- what a list of siblings adds up to

  /** Everything a parent keeps about a run of siblings, relative to where the run starts. */
  datatype Sig =
    | Nothing
    | Sig(padding: Length, size: Length, reach: nat, cost: int, visible: nat, named: nat, descendants: nat,
          external: bool, stateChange: bool, leafSymbol: nat, leafState: nat)

  function Combine(a: Sig, b: Sig): Sig {
    if a.Nothing? then b else if b.Nothing? then a else
    Sig(a.padding, Add(a.size, Add(b.padding, b.size)),
        Larger(a.reach, a.padding.bytes + a.size.bytes + b.reach),
        a.cost + b.cost, a.visible + b.visible, a.named + b.named, a.descendants + b.descendants,
        a.external || b.external, a.stateChange || b.stateChange, a.leafSymbol, a.leafState)
  }

  lemma CombineAssociative(a: Sig, b: Sig, c: Sig)
    ensures Combine(Combine(a, b), c) == Combine(a, Combine(b, c))
  {
    if a.Sig? && b.Sig? && c.Sig? {
      AddAssociative(a.size, Add(b.padding, b.size), Add(c.padding, c.size));
      AddAssociative(b.padding, b.size, Add(c.padding, c.size));
    }
  }

  function ItemSig(lang: Language, production: nat, index: nat, t: Tree, err: bool): Sig {
    Sig(t.Padding(), t.Size(), t.Total().bytes + t.Lookahead(), ChildCost(t, err),
        ChildVisible(lang, production, index, t), ChildNamed(lang, production, index, t),
        ChildDescendants(lang, production, index, t), HasExternalTokens(t), HasStateChange(t),
        LeafSymbol(t), LeafParseState(t))
  }

  function NextIndex(index: nat, t: Tree): nat { if t.Extra() then index else index + 1 }

  function ListSig(lang: Language, production: nat, index: nat, cs: seq<Tree>, err: bool): Sig
    decreases |cs|
  {
    if cs == [] then Nothing
    else Combine(ItemSig(lang, production, index, cs[0], err),
                 ListSig(lang, production, NextIndex(index, cs[0]), cs[1..], err))
  }

  /** A node whose cached numbers are the sum over its children. */
  predicate Summarised(lang: Language, t: Tree) {
    t.Children() == [] ||
    var d := t.data;
    var s := ListSig(lang, d.productionId, 0, t.children, ErrorClass(d.symbol));
    && s.Sig?
    && d.padding == s.padding && d.size == s.size
    && d.padding.bytes + d.size.bytes + d.lookaheadBytes == s.reach
    && d.errorCost == s.cost + (if ErrorClass(d.symbol) then ExtentCost(d.size) else 0)
    && d.visibleChildCount == s.visible && d.namedChildCount == s.named
    && d.visibleDescendantCount == s.descendants
    && d.hasExternalTokens == s.external && d.hasExternalScannerStateChange == s.stateChange
    && d.firstLeafSymbol == s.leafSymbol && d.firstLeafParseState == s.leafState
  }

  ghost predicate Good(lang: Language, t: Tree)
    decreases t
  {
    match t
    case Inline(_) => true
    case Node(_, cs) => Summarised(lang, t) && forall i :: 0 <= i < |cs| ==> Good(lang, cs[i])
  }

  ghost predicate AllGood(lang: Language, cs: seq<Tree>) {
    forall i :: 0 <= i < |cs| ==> Good(lang, cs[i])
  }

  // ---------------------------------------------------------------- the loop computes the sum

  function AccSig(a: Acc, leafSymbol: nat, leafState: nat): Sig {
    Sig(a.d.padding, a.d.size, a.reach, a.d.errorCost, a.d.visibleChildCount, a.d.namedChildCount,
        a.d.visibleDescendantCount, a.d.hasExternalTokens, a.d.hasExternalScannerStateChange, leafSymbol, leafState)
  }

  lemma StepCombines(lang: Language, a: Acc, child: Tree, x: nat, y: nat)
    ensures AccSig(Step(lang, a, child, false), x, y)
         == Combine(AccSig(a, x, y), ItemSig(lang, a.d.productionId, a.index, child, ErrorClass(a.d.symbol)))
    ensures Step(lang, a, child, false).index == NextIndex(a.index, child)
    ensures Kept(Step(lang, a, child, false).d, a.d)
  {
    hide ChildCost, ChildVisible, ChildNamed, ChildDescendants;
  }

  /** The fields re-summarising never touches. */
  predicate Kept(d: NodeData, e: NodeData) {
    && d.symbol == e.symbol && d.productionId == e.productionId && d.visible == e.visible && d.named == e.named
    && d.extra == e.extra && d.hasChanges == e.hasChanges && d.isMissing == e.isMissing
    && d.isKeyword == e.isKeyword && d.scannerState == e.scannerState && d.lookaheadChar == e.lookaheadChar
  }

  lemma {:induction false} StepsCombine(lang: Language, a: Acc, cs: seq<Tree>, x: nat, y: nat)
    ensures AccSig(Steps(lang, a, cs, false), x, y)
         == Combine(AccSig(a, x, y), ListSig(lang, a.d.productionId, a.index, cs, ErrorClass(a.d.symbol)))
    ensures Kept(Steps(lang, a, cs, false).d, a.d)
    decreases |cs|
  {
    hide Step, ItemSig, AccSig, Combine;
    if cs == [] {
      CombineNothing(AccSig(a, x, y));
    } else {
      var b := Step(lang, a, cs[0], false);
      StepCombines(lang, a, cs[0], x, y);
      StepsCombine(lang, b, cs[1..], x, y);
      CombineAssociative(AccSig(a, x, y), ItemSig(lang, a.d.productionId, a.index, cs[0], ErrorClass(a.d.symbol)),
                         ListSig(lang, b.d.productionId, b.index, cs[1..], ErrorClass(a.d.symbol)));
    }
  }

  lemma CombineNothing(a: Sig)
    ensures Combine(a, Nothing) == a && Combine(Nothing, a) == a
  {
  }

  lemma FirstStep(lang: Language, d: NodeData, child: Tree)
    ensures var b := Step(lang, Acc(Cleared(d), 0, 0), child, true);
      && AccSig(b, LeafSymbol(child), LeafParseState(child))
         == ItemSig(lang, d.productionId, 0, child, ErrorClass(d.symbol))
      && b.index == NextIndex(0, child) && Kept(b.d, d)
  {
    hide ChildCost, ChildVisible, ChildNamed, ChildDescendants;
  }

  lemma {:induction false} ListReaches(lang: Language, production: nat, index: nat, cs: seq<Tree>, err: bool)
    requires cs != []
    ensures var s := ListSig(lang, production, index, cs, err);
      s.Sig? && s.reach >= s.padding.bytes + s.size.bytes
    decreases |cs|
  {
    hide ChildCost, ChildVisible, ChildNamed, ChildDescendants;
    if |cs| > 1 {
      ListReaches(lang, production, NextIndex(index, cs[0]), cs[1..], err);
    }
  }

  /** Re-summarising a node with children makes its numbers the sum over them, and keeps its symbol
      and flags. */
  lemma ResumSummarised(lang: Language, t: Tree)
    requires t.Children() != []
    ensures Summarised(lang, Resum(lang, t)) && Kept(Resum(lang, t).data, t.data)
  {
    hide Step, ItemSig, Combine;
    var d, cs := t.data, t.children;
    var err := ErrorClass(d.symbol);
    var x, y := LeafSymbol(cs[0]), LeafParseState(cs[0]);
    var b := Step(lang, Acc(Cleared(d), 0, 0), cs[0], true);
    FirstStep(lang, d, cs[0]);
    StepsCombine(lang, b, cs[1..], x, y);
    ListReaches(lang, d.productionId, 0, cs, err);
    var a := Steps(lang, Acc(Cleared(d), 0, 0), cs, true);
    assert AccSig(a, x, y) == ListSig(lang, d.productionId, 0, cs, err);
  }

  lemma {:induction false} ListSigAppend(lang: Language, production: nat, a: seq<Tree>, b: seq<Tree>, err: bool)
    requires AliasFree(lang, production)
    ensures ListSig(lang, production, 0, a + b, err)
         == Combine(ListSig(lang, production, 0, a, err), ListSig(lang, production, 0, b, err))
    decreases |a|
  {
    hide ItemSig, Combine;
    if a == [] {
      assert a + b == b;
      CombineNothing(ListSig(lang, production, 0, b, err));
    } else {
      assert (a + b)[0] == a[0] && (a + b)[1..] == a[1..] + b;
      ListSigAppend(lang, production, a[1..], b, err);
      AnyIndex(lang, production, NextIndex(0, a[0]), 0, production, a[1..], err);
      AnyIndex(lang, production, NextIndex(0, a[0]), 0, production, a[1..] + b, err);
      CombineAssociative(ItemSig(lang, production, 0, a[0], err), ListSig(lang, production, 0, a[1..], err),
                         ListSig(lang, production, 0, b, err));
    }
  }

  /** Without aliases it does not matter which production, or from which index, siblings are counted. */
  lemma {:induction false} AnyIndex(lang: Language, p: nat, i: nat, j: nat, q: nat, cs: seq<Tree>, err: bool)
    requires AliasFree(lang, p) && AliasFree(lang, q)
    ensures ListSig(lang, p, i, cs, err) == ListSig(lang, q, j, cs, err)
    decreases |cs|
  {
    hide Combine;
    if cs != [] {
      AnyIndex(lang, p, NextIndex(i, cs[0]), NextIndex(j, cs[0]), q, cs[1..], err);
      AnyIndexItem(lang, p, i, j, q, cs[0], err);
    }
  }

  lemma AnyIndexItem(lang: Language, p: nat, i: nat, j: nat, q: nat, t: Tree, err: bool)
    requires AliasFree(lang, p) && AliasFree(lang, q)
    ensures ItemSig(lang, p, i, t, err) == ItemSig(lang, q, j, t, err)
  {
    hide ChildCost;
    assert AliasOf(lang, p, i) == 0 && AliasOf(lang, q, j) == 0;
  }

  // ---------------------------------------------------------------- new nodes

  /** newNodeSubtree. */
  function NewNode(lang: Language, symbol: nat, visible: bool, named: bool, production: nat, cs: seq<Tree>): Tree {
    var fragile := ErrorClass(symbol);
    var blank := NodeData(ZERO, ZERO, 0, 0, symbol, 0, visible, named, false, fragile, fragile, false, false, false,
                          false, false, false, 0, 0, 0, 0, 0, production, 0, 0, [], 0);
    Resum(lang, Node(blank, cs))
  }

  /** A node built over good children is good. */
  lemma NewNodeGood(lang: Language, symbol: nat, visible: bool, named: bool, production: nat, cs: seq<Tree>)
    requires AllGood(lang, cs)
    ensures Good(lang, NewNode(lang, symbol, visible, named, production, cs))
  {
    hide Summed, Summarised;
    var fragile := ErrorClass(symbol);
    var blank := NodeData(ZERO, ZERO, 0, 0, symbol, 0, visible, named, false, fragile, fragile, false, false, false,
                          false, false, false, 0, 0, 0, 0, 0, production, 0, 0, [], 0);
    if cs != [] {
      ResumSummarised(lang, Node(blank, cs));
    } else {
      LeafSummarised(lang, NewNode(lang, symbol, visible, named, production, cs));
    }
  }

  lemma LeafSummarised(lang: Language, t: Tree)
    requires t.Children() == []
    ensures Summarised(lang, t)
  {
  }
}
