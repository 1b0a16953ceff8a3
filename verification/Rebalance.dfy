/** Rotations on the shared store (subtree_core.go:419-454, parser_loop.go:213-244): compressing one
    repetition spine in place, and the work list that balances a whole finished tree. */
module Rebalance {
  import opened Lengths
  import opened Trees
  import opened Summaries
  import opened Rotation
  import opened Balancing
  import opened SubtreeStore
  import SubtreeEdit

  // ---------------------------------------------------------------- trees that keep clear of cells

  /** The handle denotes t and no cell it reaches is in S. */
  ghost predicate Clear(h: Heap, S: set<Ref>, s: Subtree, t: Tree)
    decreases t
  {
    match t
    case Inline(l) => s == Packed(l)
    case Node(d, cs) =>
      && s.Shared? && s.ref in h && s.ref !in S && h[s.ref].data == d && |h[s.ref].children| == |cs|
      && forall i :: 0 <= i < |cs| ==> Clear(h, S, h[s.ref].children[i], cs[i])
  }

  lemma {:induction false} ClearDenotes(h: Heap, S: set<Ref>, s: Subtree, t: Tree)
    requires Clear(h, S, s, t)
    ensures Denotes(h, s, t)
    decreases t
  {
    if t.Node? {
      forall i | 0 <= i < |t.children| ensures Denotes(h, h[s.ref].children[i], t.children[i]) {
        ClearDenotes(h, S, h[s.ref].children[i], t.children[i]);
      }
    }
  }

  lemma {:induction false} DenotesClear(h: Heap, s: Subtree, t: Tree)
    requires Denotes(h, s, t)
    ensures Clear(h, {}, s, t)
    decreases t
  {
    if t.Node? {
      forall i | 0 <= i < |t.children| ensures Clear(h, {}, h[s.ref].children[i], t.children[i]) {
        DenotesClear(h, h[s.ref].children[i], t.children[i]);
      }
    }
  }

  lemma {:induction false} ClearUnion(h: Heap, S: set<Ref>, R: set<Ref>, s: Subtree, t: Tree)
    requires Clear(h, S, s, t) && Clear(h, R, s, t)
    ensures Clear(h, S + R, s, t)
    decreases t
  {
    if t.Node? {
      forall i | 0 <= i < |t.children| ensures Clear(h, S + R, h[s.ref].children[i], t.children[i]) {
        ClearUnion(h, S, R, h[s.ref].children[i], t.children[i]);
      }
    }
  }

  lemma {:induction false} ClearLess(h: Heap, S: set<Ref>, R: set<Ref>, s: Subtree, t: Tree)
    requires Clear(h, S, s, t) && R <= S
    ensures Clear(h, R, s, t)
    decreases t
  {
    if t.Node? {
      forall i | 0 <= i < |t.children| ensures Clear(h, R, h[s.ref].children[i], t.children[i]) {
        ClearLess(h, S, R, h[s.ref].children[i], t.children[i]);
      }
    }
  }

  ghost predicate SameOutside(h: Heap, h': Heap, S: set<Ref>) {
    && h.Keys == h'.Keys
    && (forall k :: k in h ==> h'[k].refCount == h[k].refCount)
    && (forall k :: k in h && k !in S ==> h'[k] == h[k])
  }

  /** A tree clear of the cells that changed is still denoted. */
  lemma {:induction false} ClearFrame(h: Heap, h': Heap, S: set<Ref>, R: set<Ref>, s: Subtree, t: Tree)
    requires Clear(h, R, s, t) && SameOutside(h, h', S) && S <= R
    ensures Clear(h', R, s, t)
    decreases t
  {
    if t.Node? {
      forall i | 0 <= i < |t.children| ensures Clear(h', R, h'[s.ref].children[i], t.children[i]) {
        ClearFrame(h, h', S, R, h[s.ref].children[i], t.children[i]);
      }
    }
  }

  lemma {:induction false} DenotesUnique(h: Heap, s: Subtree, t: Tree, u: Tree)
    requires Denotes(h, s, t) && Denotes(h, s, u)
    ensures t == u
    decreases t
  {
    if t.Node? {
      forall i | 0 <= i < |t.children| ensures t.children[i] == u.children[i] {
        DenotesUnique(h, h[s.ref].children[i], t.children[i], u.children[i]);
      }
    }
  }

  lemma ChildSmaller(t: Tree, i: nat)
    requires i < |t.Children()|
    ensures NodeCount(t.Children()[i]) < NodeCount(t)
  {
    CountItem(t.children, i);
  }

  lemma {:induction false} CountItem(cs: seq<Tree>, i: nat)
    requires i < |cs|
    ensures NodeCount(cs[i]) <= CountAll(cs)
    decreases |cs|
  {
    if i > 0 { CountItem(cs[1..], i - 1); }
  }

  /** A smaller tree cannot contain the cell of a larger one. */
  lemma {:induction false} ClearBelow(h: Heap, r: Ref, t: Tree, s: Subtree, u: Tree)
    requires Denotes(h, Shared(r), t) && Denotes(h, s, u) && NodeCount(u) < NodeCount(t)
    ensures Clear(h, {r}, s, u)
    decreases u
  {
    if u.Node? {
      if s.ref == r { DenotesUnique(h, s, t, u); }
      forall i | 0 <= i < |u.children| ensures Clear(h, {r}, h[s.ref].children[i], u.children[i]) {
        ChildSmaller(u, i);
        ClearBelow(h, r, t, h[s.ref].children[i], u.children[i]);
      }
    }
  }

  /** Cells of S other than r are only entered from S. */
  ghost predicate Fenced(h: Heap, S: set<Ref>, r: Ref) {
    forall k, i, x :: k in h && 0 <= i < |h[k].children| && x in S && x != r && h[k].children[i] == Shared(x) ==> k in S
  }

  lemma {:induction false} ClearFenced(h: Heap, S: set<Ref>, r: Ref, s: Subtree, t: Tree)
    requires Fenced(h, S, r) && Clear(h, {r}, s, t) && (s.Shared? ==> s.ref !in S)
    ensures Clear(h, S, s, t)
    decreases t
  {
    if t.Node? {
      forall i | 0 <= i < |t.children| ensures Clear(h, S, h[s.ref].children[i], t.children[i]) {
        var x := h[s.ref].children[i];
        assert x.Shared? ==> x == Shared(x.ref);
        ClearFenced(h, S, r, x, t.children[i]);
      }
    }
  }

  // ---------------------------------------------------------------- one rotation

  /** The one slot that holds r. */
  ghost predicate Sole(h: Heap, r: Ref, k: Ref, i: nat) {
    forall p, j :: p in h && 0 <= j < |h[p].children| && h[p].children[j] == Shared(r) ==> p == k && j == i
  }

  lemma SoleSlot(h: Heap, held: multiset<Subtree>, r: Ref, k: Ref, i: nat)
    requires Exact(h, held) && r in h && h[r].refCount <= 1
    requires k in h && i < |h[k].children| && h[k].children[i] == Shared(r)
    ensures Sole(h, r, k, i) && Shared(r) !in held && h[r].refCount == 1
  {
    SlotCounted(h, k, i);
    forall p, j | p in h && 0 <= j < |h[p].children| && h[p].children[j] == Shared(r) ensures p == k && j == i {
      if (p, j) != (k, i) { TwoSlots(h, p, j, k, i); }
    }
  }

  predicate LongAt(h: Heap, r: Ref) { r in h && |h[r].children| >= 2 && h[r].refCount <= 1 }

  /** The conditions under which subtreeCompress goes on. */
  predicate CanRotateAt(h: Heap, r: Ref, sym: nat) {
    && LongAt(h, r) && h[r].children[0].Shared?
    && var c := h[r].children[0].ref;
    && LongAt(h, c) && h[c].data.symbol == sym && h[c].children[0].Shared?
    && var g := h[c].children[0].ref;
    && LongAt(h, g) && h[g].data.symbol == sym
  }

  /** The cell a node's first child slot refers to. */
  function Child0(h: Heap, r: Ref): Ref {
    if r in h && h[r].children != [] && h[r].children[0].Shared? then h[r].children[0].ref else 0
  }

  function SetChild(h: Heap, r: Ref, i: nat, s: Subtree): Heap
    requires r in h && i < |h[r].children|
  {
    h[r := h[r].(children := h[r].children[i := s])]
  }

  /** The three writes of a rotation. */
  function RotateAt(h: Heap, r: Ref, sym: nat): Heap {
    if !CanRotateAt(h, r, sym) then h else
    var c := Child0(h, r);
    var g := Child0(h, c);
    var h1 := SetChild(h, r, 0, Shared(g));
    var n := |h1[g].children| - 1;
    var h2 := SetChild(h1, c, 0, h1[g].children[n]);
    SetChild(h2, g, n, Shared(c))
  }

  /** A rotation whose three cells are distinct and entered only along the spine. */
  ghost predicate Knot(h: Heap, r: Ref, sym: nat) {
    && CanRotateAt(h, r, sym)
    && var c := Child0(h, r);
    && var g := Child0(h, c);
    && r != c && r != g && c != g && Sole(h, c, r, 0) && Sole(h, g, c, 0)
  }

  lemma KnotFacts(h: Heap, held: multiset<Subtree>, r: Ref, sym: nat, t: Tree)
    requires Exact(h, held) && CanRotateAt(h, r, sym) && Denotes(h, Shared(r), t)
    ensures Knot(h, r, sym) && CanRotate(t, sym)
    ensures var c := Child0(h, r); var g := Child0(h, c);
      Denotes(h, Shared(c), t.children[0]) && Denotes(h, Shared(g), t.children[0].children[0])
  {
    var c := Child0(h, r);
    var g := Child0(h, c);
    var tc := t.children[0];
    assert Denotes(h, Shared(c), tc);
    assert Denotes(h, Shared(g), tc.children[0]);
    ChildSmaller(t, 0);
    ChildSmaller(tc, 0);
    if r == c { DenotesUnique(h, Shared(r), t, tc); }
    if r == g { DenotesUnique(h, Shared(r), t, tc.children[0]); }
    if c == g { DenotesUnique(h, Shared(c), tc, tc.children[0]); }
    SoleSlot(h, held, c, r, 0);
    SoleSlot(h, held, g, c, 0);
  }

  lemma RotatedCells(h: Heap, r: Ref, sym: nat)
    requires Knot(h, r, sym)
    ensures var c := Child0(h, r); var g := Child0(h, c); var n := |h[g].children| - 1;
      var h1 := RotateAt(h, r, sym);
      && SameOutside(h, h1, {r, c, g})
      && h1[r] == h[r].(children := h[r].children[0 := Shared(g)])
      && h1[c] == h[c].(children := h[c].children[0 := h[g].children[n]])
      && h1[g] == h[g].(children := h[g].children[n := Shared(c)])
  {
  }

  lemma RotatedSlots(h: Heap, r: Ref, sym: nat)
    requires Knot(h, r, sym)
    ensures var h' := RotateAt(h, r, sym); h'.Keys == h.Keys && Slots(h', h'.Keys) == Slots(h, h.Keys)
  {
    var c := Child0(h, r);
    var g := Child0(h, c);
    var h1 := SetChild(h, r, 0, Shared(g));
    var n := |h1[g].children| - 1;
    var last := h1[g].children[n];
    var h2 := SetChild(h1, c, 0, last);
    var h3 := SetChild(h2, g, n, Shared(c));
    SubtreeEdit.SlotsWrite(h, r, 0, Shared(g));
    SubtreeEdit.SlotsWrite(h1, c, 0, last);
    SubtreeEdit.SlotsWrite(h2, g, n, Shared(c));
    ThreeSwaps(Slots(h, h.Keys), Slots(h1, h1.Keys), Slots(h2, h2.Keys), Slots(h3, h3.Keys), Shared(c), Shared(g), last);
  }

  lemma ThreeSwaps<T>(s0: multiset<T>, s1: multiset<T>, s2: multiset<T>, s3: multiset<T>, c: T, g: T, l: T)
    requires s1 + multiset{c} == s0 + multiset{g}
    requires s2 + multiset{g} == s1 + multiset{l}
    requires s3 + multiset{l} == s2 + multiset{c}
    ensures s3 == s0
  {
    forall x ensures s3[x] == s0[x] {
      assert (s1 + multiset{c})[x] == (s0 + multiset{g})[x];
      assert (s2 + multiset{g})[x] == (s1 + multiset{l})[x];
      assert (s3 + multiset{l})[x] == (s2 + multiset{c})[x];
    }
  }

  lemma RotateExact(h: Heap, held: multiset<Subtree>, r: Ref, sym: nat)
    requires Knot(h, r, sym) && Exact(h, held)
    ensures Exact(RotateAt(h, r, sym), held)
  {
    hide RotateAt;
    RotatedSlots(h, r, sym);
    RotatedCells(h, r, sym);
  }

  lemma KnotFenced(h: Heap, r: Ref, sym: nat)
    requires Knot(h, r, sym)
    ensures var c := Child0(h, r); var g := Child0(h, c); Fenced(h, {r, c, g}, r)
  {
  }

  /** A child slot other than the spine's own is clear of the three cells. */
  lemma SideClear(h: Heap, r: Ref, sym: nat, t: Tree, X: set<Ref>, k: Ref, i: nat, u: Tree)
    requires Knot(h, r, sym) && Denotes(h, Shared(r), t)
    requires var c := Child0(h, r); var g := Child0(h, c);
      k in {r, c, g} && i < |h[k].children| && (i > 0 || k == g)
    requires Clear(h, X, h[k].children[i], u) && NodeCount(u) < NodeCount(t)
    ensures var c := Child0(h, r); var g := Child0(h, c);
      Clear(RotateAt(h, r, sym), X + {r, c, g}, h[k].children[i], u)
  {
    var c := Child0(h, r);
    var g := Child0(h, c);
    var x := h[k].children[i];
    ClearDenotes(h, X, x, u);
    ClearBelow(h, r, t, x, u);
    if u.Node? {
      assert x == Shared(x.ref);
      assert x.ref != c && x.ref != g;
      assert x.ref != r;
    }
    KnotFenced(h, r, sym);
    ClearFenced(h, {r, c, g}, r, x, u);
    ClearUnion(h, X, {r, c, g}, x, u);
    RotatedCells(h, r, sym);
    ClearFrame(h, RotateAt(h, r, sym), {r, c, g}, X + {r, c, g}, x, u);
  }

  /** After the writes the grandchild denotes the raised tree, clear of the node it left. */
  lemma RotateRaises(h: Heap, r: Ref, sym: nat, t: Tree, X: set<Ref>)
    requires Knot(h, r, sym) && CanRotate(t, sym) && Clear(h, X, Shared(r), t)
    ensures var g := Child0(h, Child0(h, r));
      Clear(RotateAt(h, r, sym), X + {r}, Shared(g), Raised(t, sym))
  {
    var c := Child0(h, r);
    var g := Child0(h, c);
    var h1 := RotateAt(h, r, sym);
    var tc := t.children[0];
    var tg := tc.children[0];
    var n := |tg.children| - 1;
    assert Clear(h, X, Shared(c), tc) && Clear(h, X, Shared(g), tg);
    ClearDenotes(h, X, Shared(r), t);
    RotatedCells(h, r, sym);
    ChildSmaller(t, 0);
    ChildSmaller(tc, 0);
    forall i | 0 <= i < |tg.children| ensures Clear(h1, X + {r}, h[g].children[i], tg.children[i]) {
      ChildSmaller(tg, i);
      SideClear(h, r, sym, t, X, g, i, tg.children[i]);
      ClearLess(h1, X + {r, c, g}, X + {r}, h[g].children[i], tg.children[i]);
    }
    forall i | 1 <= i < |tc.children| ensures Clear(h1, X + {r}, h[c].children[i], tc.children[i]) {
      ChildSmaller(tc, i);
      SideClear(h, r, sym, t, X, c, i, tc.children[i]);
      ClearLess(h1, X + {r, c, g}, X + {r}, h[c].children[i], tc.children[i]);
    }
    var low := Node(tc.data, tc.children[0 := tg.children[n]]);
    assert Clear(h1, X + {r}, Shared(c), low);
    assert Raised(t, sym).children == tg.children[n := low];
  }

  /** Everything one rotation gives the next. */
  lemma RotateStep(h: Heap, held: multiset<Subtree>, r: Ref, sym: nat, t: Tree, X: set<Ref>)
    requires Exact(h, held) && CanRotateAt(h, r, sym) && Clear(h, X, Shared(r), t)
    ensures Knot(h, r, sym) && CanRotate(t, sym)
    ensures var c := Child0(h, r); var g := Child0(h, c); var h1 := RotateAt(h, r, sym);
      && Exact(h1, held) && h1.Keys == h.Keys && g in h && c in h && c !in X && r !in X
      && Clear(h1, X + {r}, Shared(g), Raised(t, sym)) && Clear(h1, X, Shared(g), Raised(t, sym))
      && Denotes(h1, Shared(g), Raised(t, sym)) && LongAt(h1, g)
  {
    hide Exact, RotateAt, Raised;
    ClearDenotes(h, X, Shared(r), t);
    KnotFacts(h, held, r, sym, t);
    RotateExact(h, held, r, sym);
    RotateRaises(h, r, sym, t, X);
    RotatedCells(h, r, sym);
    var g := Child0(h, Child0(h, r));
    var h1 := RotateAt(h, r, sym);
    assert Clear(h, X, Shared(Child0(h, r)), t.children[0]);
    ClearLess(h1, X + {r}, X, Shared(g), Raised(t, sym));
    ClearDenotes(h1, X, Shared(g), Raised(t, sym));
  }

  // ---------------------------------------------------------------- re-summarising a cell

  const DUMMY := Inline(InlineLeaf(0, 0, 0, 0, 0, 0, 0, false, false, false, false, false, false))

  /** What re-summarising reads of a child: its fields and how many children it has. */
  function Shell(h: Heap, s: Subtree): Tree {
    match s
    case Packed(l) => Inline(l)
    case Shared(r) => if r in h then Node(h[r].data, seq(|h[r].children|, _ => DUMMY)) else DUMMY
  }

  function Shells(h: Heap, ss: seq<Subtree>): seq<Tree> {
    if ss == [] then [] else [Shell(h, ss[0])] + Shells(h, ss[1..])
  }

  function SumAt(lang: Language, h: Heap, r: Ref): Heap
    requires r in h
  {
    h[r := h[r].(data := Summed(lang, h[r].data, Shells(h, h[r].children)))]
  }

  /** Two trees a parent's summary cannot tell apart. */
  predicate Alike(a: Tree, b: Tree) {
    match a
    case Inline(_) => a == b
    case Node(d, cs) => b.Node? && b.data == d && (cs == [] <==> b.children == [])
  }

  lemma StepAlike(lang: Language, acc: Acc, a: Tree, b: Tree, first: bool)
    requires Alike(a, b)
    ensures Step(lang, acc, a, first) == Step(lang, acc, b, first)
  {
    hide Added;
    assert ChildCost(a, ErrorClass(acc.d.symbol)) == ChildCost(b, ErrorClass(acc.d.symbol));
  }

  lemma {:induction false} StepsAlike(lang: Language, acc: Acc, a: seq<Tree>, b: seq<Tree>, first: bool)
    requires |a| == |b| && forall i :: 0 <= i < |a| ==> Alike(a[i], b[i])
    ensures Steps(lang, acc, a, first) == Steps(lang, acc, b, first)
    decreases |a|
  {
    hide Step, Alike;
    if a != [] {
      StepAlike(lang, acc, a[0], b[0], first);
      StepsAlike(lang, Step(lang, acc, a[0], first), a[1..], b[1..], false);
    }
  }

  lemma SummedAlike(lang: Language, d: NodeData, a: seq<Tree>, b: seq<Tree>)
    requires |a| == |b| && forall i :: 0 <= i < |a| ==> Alike(a[i], b[i])
    ensures Summed(lang, d, a) == Summed(lang, d, b)
  {
    hide Step;
    StepsAlike(lang, Acc(Cleared(d), 0, 0), a, b, true);
    var acc := Steps(lang, Acc(Cleared(d), 0, 0), a, true);
    FinishedAlike(acc, a, b);
  }

  lemma FinishedAlike(acc: Acc, a: seq<Tree>, b: seq<Tree>)
    requires |a| == |b| && forall i :: 0 <= i < |a| ==> Alike(a[i], b[i])
    ensures Finished(acc, a) == Finished(acc, b)
  {
    if a != [] {
      assert Alike(a[0], b[0]) && Alike(a[|a| - 1], b[|a| - 1]);
    }
  }

  lemma {:induction false} ShellsAlike(h: Heap, ss: seq<Subtree>, cs: seq<Tree>)
    requires |ss| == |cs| && forall i :: 0 <= i < |cs| ==> Denotes(h, ss[i], cs[i])
    ensures |Shells(h, ss)| == |cs| && forall i :: 0 <= i < |cs| ==> Alike(Shells(h, ss)[i], cs[i])
    decreases |ss|
  {
    if ss != [] {
      ShellsAlike(h, ss[1..], cs[1..]);
      assert Denotes(h, ss[0], cs[0]);
      assert Alike(Shell(h, ss[0]), cs[0]);
    }
  }

  lemma SumSameNodes(lang: Language, h: Heap, held: multiset<Subtree>, r: Ref)
    requires r in h
    ensures SameOutside(h, SumAt(lang, h, r), {r})
    ensures forall k :: k in h ==> SumAt(lang, h, r)[k].children == h[k].children
    ensures Exact(h, held) ==> Exact(SumAt(lang, h, r), held)
  {
    hide Summed;
    SlotsSame(h, SumAt(lang, h, r), h.Keys);
    assert SumAt(lang, h, r).Keys == h.Keys;
  }

  /** Re-summarising a cell re-summarises the tree it denotes. */
  lemma SumDenotes(lang: Language, h: Heap, r: Ref, t: Tree)
    requires Denotes(h, Shared(r), t)
    ensures Denotes(SumAt(lang, h, r), Shared(r), Resum(lang, t))
  {
    hide Summed;
    var h' := SumAt(lang, h, r);
    ShellsAlike(h, h[r].children, t.children);
    SummedAlike(lang, t.data, Shells(h, h[r].children), t.children);
    SumSameNodes(lang, h, multiset{}, r);
    forall i | 0 <= i < |t.children| ensures Denotes(h', h'[r].children[i], t.children[i]) {
      ChildSmaller(t, i);
      ClearBelow(h, r, t, h[r].children[i], t.children[i]);
      ClearFrame(h, h', {r}, {r}, h[r].children[i], t.children[i]);
      ClearDenotes(h', {r}, h[r].children[i], t.children[i]);
    }
  }

  // ---------------------------------------------------------------- a whole squeeze

  predicate Unwindable(h: Heap, r: Ref) {
    && r in h && h[r].children != [] && h[r].children[0].Shared? && Child0(h, r) in h
    && var g := Child0(h, r);
    && h[g].children != [] && h[g].children[|h[g].children| - 1].Shared?
    && h[g].children[|h[g].children| - 1].ref in h
  }

  /** One round of the second loop: the low node, the raised node, then the node itself. */
  function UnwindAt(lang: Language, h: Heap, r: Ref): Heap {
    if !Unwindable(h, r) then h else
    var child := Child0(h, r);
    var grandchild := h[child].children[|h[child].children| - 1].ref;
    SumAt(lang, SumAt(lang, SumAt(lang, h, grandchild), child), r)
  }

  /** subtreeCompress: at most n rotations down the spine, then the unwinding. */
  function CompressAt(lang: Language, h: Heap, r: Ref, sym: nat, n: nat): Heap
    decreases n
  {
    if n == 0 || !CanRotateAt(h, r, sym) then h
    else UnwindAt(lang, CompressAt(lang, RotateAt(h, r, sym), Child0(h, Child0(h, r)), sym, n - 1), r)
  }

  function Rotations(h: Heap, r: Ref, sym: nat, n: nat): nat
    decreases n
  {
    if n == 0 || !CanRotateAt(h, r, sym) then 0
    else 1 + Rotations(RotateAt(h, r, sym), Child0(h, Child0(h, r)), sym, n - 1)
  }

  /** The cells a squeeze writes. */
  function Touched(h: Heap, r: Ref, sym: nat, n: nat): set<Ref>
    decreases n
  {
    if n == 0 || !CanRotateAt(h, r, sym) then {r}
    else {r, Child0(h, r)} + Touched(RotateAt(h, r, sym), Child0(h, Child0(h, r)), sym, n - 1)
  }

  /** Touched cells other than the first are only entered along the spine. */
  ghost predicate Sealed(h: Heap, S: set<Ref>, r: Ref) {
    forall k, i, x :: k in h && 0 <= i < |h[k].children| && x in S && x != r && h[k].children[i] == Shared(x) ==>
      k in S && i == 0
  }

  ghost predicate OtherChildrenKept(h: Heap, h': Heap, r: Ref) {
    && r in h && r in h' && |h'[r].children| == |h[r].children|
    && forall i :: 1 <= i < |h[r].children| ==> h'[r].children[i] == h[r].children[i]
  }

  lemma {:induction false} TouchedSealed(h: Heap, held: multiset<Subtree>, r: Ref, sym: nat, n: nat, t: Tree)
    requires Exact(h, held) && r in h && Denotes(h, Shared(r), t)
    ensures Touched(h, r, sym, n) <= h.Keys && r in Touched(h, r, sym, n) && Sealed(h, Touched(h, r, sym, n), r)
    decreases n
  {
    hide Exact, Knot, RotateAt, Sealed, Clear, Denotes, Raised;
    if n > 0 && CanRotateAt(h, r, sym) {
      var c := Child0(h, r);
      var g := Child0(h, c);
      var h1 := RotateAt(h, r, sym);
      DenotesClear(h, Shared(r), t);
      RotateStep(h, held, r, sym, t, {});
      TouchedSealed(h1, held, g, sym, n - 1, Raised(t, sym));
      SealedBack(h, r, sym, Touched(h1, g, sym, n - 1));
    } else {
      SealedOne(h, r);
    }
  }

  lemma SealedOne(h: Heap, r: Ref)
    ensures Sealed(h, {r}, r)
  {
  }

  lemma SealedBack(h: Heap, r: Ref, sym: nat, S: set<Ref>)
    requires Knot(h, r, sym) && Child0(h, Child0(h, r)) in S && S <= h.Keys
    requires Sealed(RotateAt(h, r, sym), S, Child0(h, Child0(h, r)))
    ensures Sealed(h, {r, Child0(h, r)} + S, r)
    ensures Child0(h, r) !in S
  {
    var c := Child0(h, r);
    var g := Child0(h, c);
    var h1 := RotateAt(h, r, sym);
    RotatedCells(h, r, sym);
    hide RotateAt;
    var n := |h[g].children| - 1;
    assert h1[g].children[n] == Shared(c) && h1[c].children[0] == h[g].children[n];
    var R := {r, c} + S;
    forall k, i, x | k in h && 0 <= i < |h[k].children| && x in R && x != r && h[k].children[i] == Shared(x)
      ensures k in R && i == 0
    {
      if x in S && x != g && (k, i) != (g, n) && (k, i) != (r, 0) && (k, i) != (c, 0) {
        assert h1[k].children[i] == Shared(x);
      }
    }
  }

  /** What a squeeze does to the store: it denotes the squeezed tree at r, keeps counts exact, and
      leaves every other cell and every other child of r alone. */
  ghost predicate Squeezed(lang: Language, h: Heap, held: multiset<Subtree>, r: Ref, sym: nat, n: nat, t: Tree) {
    var h', k := CompressAt(lang, h, r, sym, n), Rotations(h, r, sym, n);
    && t.Node? && Rotates(t, sym, k) && Denotes(h', Shared(r), Squeeze(lang, t, sym, k)) && Exact(h', held)
    && SameOutside(h, h', Touched(h, r, sym, n)) && OtherChildrenKept(h, h', r)
  }

  /** Cells a tree is clear of are not touched. */
  lemma {:induction false} TouchedWithin(h: Heap, held: multiset<Subtree>, r: Ref, sym: nat, n: nat, t: Tree, X: set<Ref>)
    requires Exact(h, held) && r in h && Clear(h, X, Shared(r), t)
    ensures Touched(h, r, sym, n) !! X
    decreases n
  {
    hide Exact, Knot, RotateAt, Raised;
    assert r !in X;
    if n > 0 && CanRotateAt(h, r, sym) {
      hide Clear;
      RotateStep(h, held, r, sym, t, X);
      var g := Child0(h, Child0(h, r));
      TouchedWithin(RotateAt(h, r, sym), held, g, sym, n - 1, Raised(t, sym), X);
    }
  }

  /** Unwinding one level: the low node is re-summarised, then the raised one, then the node. */
  lemma UnwindDenotes(lang: Language, h: Heap, held: multiset<Subtree>, r: Ref, c: Ref, g: Ref, t: Tree, tg: Tree)
    requires Exact(h, held) && r in h && c in h && g in h && r != g && r != c && g != c
    requires LongAt(h, g) && h[c].refCount <= 1 && h[r].children != []
    requires h[r].children[0] == Shared(g) && h[g].children[|h[g].children| - 1] == Shared(c)
    requires t.Node? && t.children != [] && Long(tg) && tg.children[|tg.children| - 1].Node?
    requires Denotes(h, Shared(g), tg) && Denotes(h, Shared(r), Node(t.data, t.children[0 := tg]))
    ensures var n := |tg.children| - 1;
      var g' := Resum(lang, Node(tg.data, tg.children[n := Resum(lang, tg.children[n])]));
      Denotes(UnwindAt(lang, h, r), Shared(r), Resum(lang, Node(t.data, t.children[0 := g'])))
    ensures Exact(UnwindAt(lang, h, r), held) && SameOutside(h, UnwindAt(lang, h, r), {r, c, g})
    ensures forall k :: k in h ==> UnwindAt(lang, h, r)[k].children == h[k].children
  {
    hide Summed, Exact, UnwindAt, SumAt, Sole;
    UnwindIs(lang, h, r, c, g);
    GivesRef(h, g, tg);
    var n := |tg.children| - 1;
    var low := tg.children[n];
    var h1 := SumAt(lang, h, c);
    SumSameNodes(lang, h, held, c);
    var h2 := SumAt(lang, h1, g);
    SumSameNodes(lang, h1, held, g);
    SoleSlot(h, held, c, g, n);
    SoleSlot(h, held, g, r, 0);
    SumSameNodes(lang, h2, held, r);
    SumDenotes(lang, h, c, low);
    var mid := Node(tg.data, tg.children[n := Resum(lang, low)]);
    SiblingsStay(h, h1, g, c, n, tg, tg.children[n := Resum(lang, low)]);
    SumDenotes(lang, h1, g, mid);
    var up := Resum(lang, mid);
    RootStays(lang, h, h2, r, c, g, t, tg, up);
    SumDenotes(lang, h2, r, Node(t.data, t.children[0 := up]));
  }

  lemma UnwindIs(lang: Language, h: Heap, r: Ref, c: Ref, g: Ref)
    requires r in h && c in h && g in h && h[r].children != [] && h[g].children != []
    requires h[r].children[0] == Shared(g) && h[g].children[|h[g].children| - 1] == Shared(c)
    ensures UnwindAt(lang, h, r) == SumAt(lang, SumAt(lang, SumAt(lang, h, c), g), r)
  {
    hide Summed;
  }

  lemma GivesRef(h: Heap, g: Ref, tg: Tree)
    requires Denotes(h, Shared(g), tg) && Long(tg)
    ensures g in h && |h[g].children| == |tg.children|
    ensures var n := |tg.children| - 1; Denotes(h, h[g].children[n], tg.children[n])
  {
  }

  lemma SoleEntry(h: Heap, c: Ref, g: Ref, n: nat)
    requires Sole(h, c, g, n)
    ensures Fenced(h, {g, c}, g)
  {
  }

  /** The raised node's other children do not reach the low node. */
  lemma SiblingsStay(h: Heap, h1: Heap, g: Ref, c: Ref, n: nat, tg: Tree, cs: seq<Tree>)
    requires Denotes(h, Shared(g), tg) && g != c && n < |tg.children| && Sole(h, c, g, n)
    requires h[g].children[n] == Shared(c) && SameOutside(h, h1, {c}) && h1[g] == h[g]
    requires |cs| == |tg.children| && Denotes(h1, Shared(c), cs[n])
    requires forall i :: 0 <= i < |cs| && i != n ==> cs[i] == tg.children[i]
    ensures Denotes(h1, Shared(g), Node(tg.data, cs))
  {
    SoleEntry(h, c, g, n);
    forall i | 0 <= i < |cs| ensures Denotes(h1, h1[g].children[i], cs[i]) {
      var x := h[g].children[i];
      if i != n {
        ChildSmaller(tg, i);
        ClearBelow(h, g, tg, x, cs[i]);
        if x.Shared? {
          assert x == Shared(x.ref);
          NotItself(h, g, tg, x, cs[i]);
        }
        ClearFenced(h, {g, c}, g, x, cs[i]);
        ClearLess(h, {g, c}, {c}, x, cs[i]);
        ClearFrame(h, h1, {c}, {c}, x, cs[i]);
        ClearDenotes(h1, {c}, x, cs[i]);
      }
    }
  }

  lemma NotItself(h: Heap, r: Ref, t: Tree, s: Subtree, u: Tree)
    requires Denotes(h, Shared(r), t) && Denotes(h, s, u) && NodeCount(u) < NodeCount(t)
    ensures s != Shared(r)
  {
    if s == Shared(r) { DenotesUnique(h, s, t, u); }
  }

  /** The node above keeps its other children while the raised node is rebuilt. */
  lemma RootStays(lang: Language, h: Heap, h2: Heap, r: Ref, c: Ref, g: Ref, t: Tree, tg: Tree, up: Tree)
    requires r in h && g in h && c in h && r != g && r != c && t.Node? && t.children != [] && h[r].children != []
    requires h[r].children[0] == Shared(g) && LongAt(h, g) && h[g].children[|h[g].children| - 1] == Shared(c)
    requires Denotes(h, Shared(r), Node(t.data, t.children[0 := tg])) && Denotes(h2, Shared(g), up)
    requires SameOutside(h, h2, {c, g}) && Sole(h, g, r, 0) && Sole(h, c, g, |h[g].children| - 1)
    ensures Denotes(h2, Shared(r), Node(t.data, t.children[0 := up]))
  {
    var whole := Node(t.data, t.children[0 := tg]);
    assert Fenced(h, {r, c, g}, r);
    forall i | 0 <= i < |t.children| ensures Denotes(h2, h2[r].children[i], t.children[0 := up][i]) {
      var x := h[r].children[i];
      if i > 0 {
        var u := t.children[i];
        ChildSmaller(whole, i);
        ClearBelow(h, r, whole, x, u);
        if x.Shared? {
          assert x == Shared(x.ref);
          NotItself(h, r, whole, x, u);
          assert x.ref != g;
          assert x.ref != c;
        }
        ClearFenced(h, {r, c, g}, r, x, u);
        ClearFrame(h, h2, {c, g}, {r, c, g}, x, u);
        ClearDenotes(h2, {r, c, g}, x, u);
      }
    }
  }

  /** After the rotation below has been squeezed, the node denotes its tree with the squeezed child. */
  lemma AboveSqueezed(h: Heap, r: Ref, sym: nat, t: Tree, h2: Heap, S: set<Ref>, up: Tree)
    requires Knot(h, r, sym) && CanRotate(t, sym) && Denotes(h, Shared(r), t)
    requires S <= h.Keys && r !in S && Child0(h, r) !in S
    requires Sealed(h, {r, Child0(h, r)} + S, r) && Child0(h, Child0(h, r)) in S
    requires SameOutside(RotateAt(h, r, sym), h2, S)
    requires Denotes(h2, Shared(Child0(h, Child0(h, r))), up)
    ensures Denotes(h2, Shared(r), Node(t.data, t.children[0 := up]))
    ensures h2[r].children != [] && h2[r].children[0] == Shared(Child0(h, Child0(h, r)))
    ensures h2[Child0(h, r)] == RotateAt(h, r, sym)[Child0(h, r)]
  {
    var c := Child0(h, r);
    var g := Child0(h, c);
    RotatedCells(h, r, sym);
    hide RotateAt;
    var R := {r, c} + S;
    assert SameOutside(h, h2, R);
    forall i | 0 <= i < |t.children| ensures Denotes(h2, h2[r].children[i], t.children[0 := up][i]) {
      var x := h[r].children[i];
      if i > 0 {
        var u := t.children[i];
        ChildSmaller(t, i);
        ClearBelow(h, r, t, x, u);
        if x.Shared? {
          assert x == Shared(x.ref);
          NotItself(h, r, t, x, u);
        }
        ClearFenced(h, R, r, x, u);
        ClearFrame(h, h2, R, R, x, u);
        ClearDenotes(h2, R, x, u);
      }
    }
  }

  /** Squeezing never leaves the cells below the raised node's own spine. */
  lemma LowerCells(h: Heap, held: multiset<Subtree>, r: Ref, sym: nat, n: nat, t: Tree)
    requires Exact(h, held) && CanRotateAt(h, r, sym) && Denotes(h, Shared(r), t) && n > 0
    ensures Knot(h, r, sym) && CanRotate(t, sym)
    ensures var c := Child0(h, r); var g := Child0(h, c); var h1 := RotateAt(h, r, sym);
      var S := Touched(h1, g, sym, n - 1);
      && Exact(h1, held) && g in h1 && Denotes(h1, Shared(g), Raised(t, sym)) && LongAt(h1, g)
      && S <= h.Keys && g in S && r !in S && c !in S && Sealed(h, {r, c} + S, r)
      && Touched(h, r, sym, n) == {r, c} + S
  {
    hide Exact, Knot, RotateAt, Sealed, Clear, Denotes, Raised;
    var c := Child0(h, r);
    var g := Child0(h, c);
    var h1 := RotateAt(h, r, sym);
    DenotesClear(h, Shared(r), t);
    RotateStep(h, held, r, sym, t, {});
    TouchedSealed(h1, held, g, sym, n - 1, Raised(t, sym));
    assert {} + {r} == {r};
    TouchedWithin(h1, held, g, sym, n - 1, Raised(t, sym), {r});
    SealedBack(h, r, sym, Touched(h1, g, sym, n - 1));
  }

  lemma CompressUnfold(lang: Language, h: Heap, r: Ref, sym: nat, n: nat)
    requires n > 0 && CanRotateAt(h, r, sym)
    ensures var g := Child0(h, Child0(h, r)); var h1 := RotateAt(h, r, sym);
      && CompressAt(lang, h, r, sym, n) == UnwindAt(lang, CompressAt(lang, h1, g, sym, n - 1), r)
      && Rotations(h, r, sym, n) == 1 + Rotations(h1, g, sym, n - 1)
  {
    hide UnwindAt, RotateAt;
  }

  lemma SqueezeUnfold(lang: Language, t: Tree, sym: nat, k: nat)
    requires CanRotate(t, sym) && Rotates(Raised(t, sym), sym, k)
    ensures Rotates(t, sym, k + 1)
    ensures var up := Squeeze(lang, Raised(t, sym), sym, k);
      var m := |up.children| - 1;
      && Long(up) && up.children[m].Node?
      && Squeeze(lang, t, sym, k + 1)
         == Resum(lang, Node(t.data, t.children[0 := Resum(lang, Node(up.data, up.children[m := Resum(lang, up.children[m])]))]))
  {
    hide Summed;
    var up := Squeeze(lang, Raised(t, sym), sym, k);
    var m := |up.children| - 1;
    assert up.children[m] == Raised(t, sym).children[m];
  }

  /** The store after subtreeCompress denotes the squeezed tree. */
  lemma {:induction false} CompressSqueezes(lang: Language, h: Heap, held: multiset<Subtree>, r: Ref, sym: nat, n: nat, t: Tree)
    requires Exact(h, held) && r in h && Denotes(h, Shared(r), t)
    ensures Squeezed(lang, h, held, r, sym, n, t)
    decreases n
  {
    hide *;
    if n == 0 || !CanRotateAt(h, r, sym) {
      CompressNone(lang, h, held, r, sym, n, t);
    } else {
      LowerCells(h, held, r, sym, n, t);
      CompressSqueezes(lang, RotateAt(h, r, sym), held, Child0(h, Child0(h, r)), sym, n - 1, Raised(t, sym));
      CompressStep(lang, h, held, r, sym, n, t);
    }
  }

  lemma CompressNone(lang: Language, h: Heap, held: multiset<Subtree>, r: Ref, sym: nat, n: nat, t: Tree)
    requires Exact(h, held) && r in h && Denotes(h, Shared(r), t) && (n == 0 || !CanRotateAt(h, r, sym))
    ensures Squeezed(lang, h, held, r, sym, n, t)
  {
    hide Summed;
    SqueezeNone(lang, t, sym);
  }

  /** The store between the squeeze below and the unwinding of this level. */
  ghost predicate Between(h: Heap, held: multiset<Subtree>, r: Ref, c: Ref, g: Ref, h2: Heap, R: set<Ref>, t: Tree, up: Tree) {
    && t.Node? && t.children != [] && r in h2 && c in h2 && g in h2 && Exact(h2, held)
    && h2[r].children != [] && h2[r].children[0] == Shared(g)
    && LongAt(h2, g) && h2[g].children[|h2[g].children| - 1] == Shared(c) && h2[c].refCount <= 1
    && Denotes(h2, Shared(g), up) && Denotes(h2, Shared(r), Node(t.data, t.children[0 := up]))
    && SameOutside(h, h2, R) && OtherChildrenKept(h, h2, r) && {r, c, g} <= R
  }

  lemma BetweenHolds(h: Heap, held: multiset<Subtree>, r: Ref, sym: nat, t: Tree, S: set<Ref>, h2: Heap, up: Tree)
    requires Knot(h, r, sym) && CanRotate(t, sym) && Denotes(h, Shared(r), t)
    requires S <= h.Keys && Child0(h, Child0(h, r)) in S && r !in S && Child0(h, r) !in S
    requires Sealed(h, {r, Child0(h, r)} + S, r)
    requires SameOutside(RotateAt(h, r, sym), h2, S) && Denotes(h2, Shared(Child0(h, Child0(h, r))), up)
    requires OtherChildrenKept(RotateAt(h, r, sym), h2, Child0(h, Child0(h, r))) && Exact(h2, held)
    ensures Between(h, held, r, Child0(h, r), Child0(h, Child0(h, r)), h2, {r, Child0(h, r)} + S, t, up)
  {
    hide Exact, Denotes, Sealed;
    var c := Child0(h, r);
    var g := Child0(h, c);
    var h1 := RotateAt(h, r, sym);
    RotatedCells(h, r, sym);
    AboveSqueezed(h, r, sym, t, h2, S, up);
    hide RotateAt, SameOutside, CanRotate;
    KeysSame(h1, h2, S);
    KeysSame(h, h1, {r, c, g});
    DenotesNode(h, r, t);
    OutsideChain(h, h1, h2, h2, {r, c, g}, S, {r, c} + S) by { SameOutsideSelf(h2, {r, c, g}); }
  }

  lemma CompressMid(lang: Language, h: Heap, held: multiset<Subtree>, r: Ref, sym: nat, n: nat, t: Tree)
    requires Exact(h, held) && r in h && Denotes(h, Shared(r), t) && n > 0 && CanRotateAt(h, r, sym)
    requires Knot(h, r, sym) && CanRotate(t, sym)
    requires Squeezed(lang, RotateAt(h, r, sym), held, Child0(h, Child0(h, r)), sym, n - 1, Raised(t, sym))
    ensures var c := Child0(h, r); var g := Child0(h, c); var h1 := RotateAt(h, r, sym);
      var k := Rotations(h1, g, sym, n - 1);
      && Rotates(Raised(t, sym), sym, k)
      && Between(h, held, r, c, g, CompressAt(lang, h1, g, sym, n - 1), Touched(h, r, sym, n), t,
                 Squeeze(lang, Raised(t, sym), sym, k))
  {
    hide *;
    var c := Child0(h, r);
    var g := Child0(h, c);
    var h1 := RotateAt(h, r, sym);
    var S := Touched(h1, g, sym, n - 1);
    var k := Rotations(h1, g, sym, n - 1);
    SqueezedParts(lang, h1, held, g, sym, n - 1, Raised(t, sym));
    LowerCells(h, held, r, sym, n, t);
    BetweenHolds(h, held, r, sym, t, S, CompressAt(lang, h1, g, sym, n - 1), Squeeze(lang, Raised(t, sym), sym, k));
  }

  lemma SqueezedParts(lang: Language, h: Heap, held: multiset<Subtree>, r: Ref, sym: nat, n: nat, t: Tree)
    requires Squeezed(lang, h, held, r, sym, n, t)
    ensures var h', k := CompressAt(lang, h, r, sym, n), Rotations(h, r, sym, n);
      && t.Node? && Rotates(t, sym, k) && Denotes(h', Shared(r), Squeeze(lang, t, sym, k)) && Exact(h', held)
      && SameOutside(h, h', Touched(h, r, sym, n)) && OtherChildrenKept(h, h', r)
  {
  }

  lemma SameOutsideSelf(h: Heap, S: set<Ref>)
    ensures SameOutside(h, h, S)
  {
  }

  lemma CompressStep(lang: Language, h: Heap, held: multiset<Subtree>, r: Ref, sym: nat, n: nat, t: Tree)
    requires Exact(h, held) && r in h && Denotes(h, Shared(r), t) && n > 0 && CanRotateAt(h, r, sym)
    requires Knot(h, r, sym) && CanRotate(t, sym)
    requires Squeezed(lang, RotateAt(h, r, sym), held, Child0(h, Child0(h, r)), sym, n - 1, Raised(t, sym))
    ensures Squeezed(lang, h, held, r, sym, n, t)
  {
    hide RotateAt, Exact, Summed, UnwindAt, Squeeze, CompressAt, Rotations, Touched, Denotes, Rotates, Raised,
      SameOutside, CanRotate;
    var c := Child0(h, r);
    var g := Child0(h, c);
    var h1 := RotateAt(h, r, sym);
    KnotDistinct(h, r, sym);
    CompressMid(lang, h, held, r, sym, n, t);
    var k := Rotations(h1, g, sym, n - 1);
    var h2 := CompressAt(lang, h1, g, sym, n - 1);
    var up := Squeeze(lang, Raised(t, sym), sym, k);
    CompressUnfold(lang, h, r, sym, n);
    SqueezeUnfold(lang, t, sym, k);
    UnwindDenotes(lang, h2, held, r, c, g, t, up);
    var h3 := UnwindAt(lang, h2, r);
    var R := Touched(h, r, sym, n);
    OutsideChain(h, h2, h3, h3, R, {r, c, g}, R) by { SameOutsideSelf(h3, R); }
    assert h3[r].children == h2[r].children;
    KeysSame(h2, h3, {r, c, g});
  }

  lemma DenotesNode(h: Heap, r: Ref, t: Tree)
    requires Denotes(h, Shared(r), t)
    ensures t.Node? && r in h && |h[r].children| == |t.children|
  {
  }

  lemma KnotDistinct(h: Heap, r: Ref, sym: nat)
    requires Knot(h, r, sym)
    ensures var c := Child0(h, r); var g := Child0(h, c);
      r != c && r != g && c != g && h[c].refCount <= 1 && h[g].refCount <= 1
  {
  }

  lemma KeysSame(h: Heap, h': Heap, S: set<Ref>)
    requires SameOutside(h, h', S)
    ensures h'.Keys == h.Keys && forall k :: k in h ==> h'[k].refCount == h[k].refCount
    ensures forall k :: k in h && k !in S ==> h'[k] == h[k]
  {
  }

  lemma OutsideChain(h: Heap, h1: Heap, h2: Heap, h3: Heap, A: set<Ref>, S: set<Ref>, R: set<Ref>)
    requires SameOutside(h, h1, A) && SameOutside(h1, h2, S) && SameOutside(h2, h3, A)
    requires A <= R && S <= R
    ensures SameOutside(h, h3, R)
  {
  }
}
