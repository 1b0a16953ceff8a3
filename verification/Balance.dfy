/** subtreeCompress and balanceSubtree as the program runs them (subtree_core.go:419-454,
    parser_loop.go:213-244): explicit stacks of cells, rotated and re-summarised in place. */
module Balance {
  import opened Lengths
  import opened Trees
  import opened Summaries
  import opened Rotation
  import opened Balancing
  import opened SubtreeStore
  import opened Rebalance

  /** subtreeSummarizeChildren on a cell. */
  method SumNode(f: Forest, lang: Language, r: Ref)
    requires f.Valid() && r in f.heap
    modifies f`heap
    ensures f.Valid() && f.heap == SumAt(lang, old(f.heap), r)
  {
    hide Summed;
    var ss := f.heap[r].children;
    var shells: seq<Tree> := [];
    for i := 0 to |ss|
      invariant shells + Shells(f.heap, ss[i..]) == Shells(f.heap, ss)
      invariant f.heap == old(f.heap)
    {
      assert ss[i..][0] == ss[i] && ss[i..][1..] == ss[i + 1..];
      shells := shells + [Shell(f.heap, ss[i])];
    }
    assert ss[|ss|..] == [] && shells + [] == shells;
    var d := SummarizeChildren(lang, f.heap[r].data, shells);
    f.heap := f.heap[r := f.heap[r].(data := d)];
  }

  /** Unwinding a whole stack of nodes, top first. */
  function Unwound(lang: Language, h: Heap, path: seq<Ref>): Heap
    decreases |path|
  {
    if path == [] then h else Unwound(lang, UnwindAt(lang, h, path[|path| - 1]), path[..|path| - 1])
  }

  function Cells(path: seq<Ref>): set<Ref> { set x | x in path }

  ghost predicate Links(h: Heap, path: seq<Ref>, tree: Ref) {
    forall j :: 0 <= j < |path| ==>
      Unwindable(h, path[j]) && Child0(h, path[j]) == if j + 1 < |path| then path[j + 1] else tree
  }

  /** The nodes rotated so far: each one's first child is the next, down to the current node, whose
      tree is clear of them all. */
  ghost predicate Line(h: Heap, path: seq<Ref>, tree: Ref, t: Tree) {
    Clear(h, Cells(path), Shared(tree), t) && Links(h, path, tree)
  }

  lemma LineStep(h: Heap, held: multiset<Subtree>, path: seq<Ref>, r: Ref, sym: nat, t: Tree)
    requires Line(h, path, r, t) && Exact(h, held) && CanRotateAt(h, r, sym)
    ensures var g := Child0(h, Child0(h, r)); var h1 := RotateAt(h, r, sym);
      && Exact(h1, held) && h1.Keys == h.Keys && g in h1 && CanRotate(t, sym)
      && Denotes(h1, Shared(g), Raised(t, sym)) && Line(h1, path + [r], g, Raised(t, sym))
  {
    hide *;
    var X := Cells(path);
    var g := Child0(h, Child0(h, r));
    var h1 := RotateAt(h, r, sym);
    LineClear(h, path, r, t);
    RotateStep(h, held, r, sym, t, X);
    LineShape(h, path, r, sym, t);
    CellsSnoc(path, r);
    LineOf(h1, path + [r], g, Raised(t, sym));
  }

  lemma CellsSnoc(path: seq<Ref>, r: Ref)
    ensures Cells(path + [r]) == Cells(path) + {r} && Cells([]) == {}
    ensures forall x :: x in path <==> x in Cells(path)
  {
  }

  lemma LineClear(h: Heap, path: seq<Ref>, r: Ref, t: Tree)
    requires Line(h, path, r, t)
    ensures Clear(h, Cells(path), Shared(r), t)
  {
  }

  lemma LineOf(h: Heap, path: seq<Ref>, tree: Ref, t: Tree)
    requires Clear(h, Cells(path), Shared(tree), t) && Links(h, path, tree)
    ensures Line(h, path, tree, t)
  {
  }

  /** A cell above the rotated three still unwinds. */
  lemma LineKept(h: Heap, h1: Heap, x: Ref, r: Ref, c: Ref, g: Ref)
    requires Unwindable(h, x) && SameOutside(h, h1, {r, c, g}) && x !in {r, c, g} && Child0(h, x) !in {c, g}
    requires r in h && g in h && h[r].children != [] && h1[r] == h[r].(children := h[r].children[0 := Shared(g)])
    ensures Unwindable(h1, x) && Child0(h1, x) == Child0(h, x)
  {
    assert h1[x] == h[x];
    if Child0(h, x) != r { assert h1[Child0(h, x)] == h[Child0(h, x)]; }
  }

  lemma LinkAt(h: Heap, path: seq<Ref>, tree: Ref, j: nat)
    requires Links(h, path, tree) && j < |path|
    ensures Unwindable(h, path[j]) && Child0(h, path[j]) == if j + 1 < |path| then path[j + 1] else tree
  {
    hide Unwindable, Child0;
  }

  /** So does the cell rotated at. */
  lemma KnotUnwinds(h: Heap, r: Ref, sym: nat)
    requires Knot(h, r, sym)
    ensures var h1 := RotateAt(h, r, sym); Unwindable(h1, r) && Child0(h1, r) == Child0(h, Child0(h, r))
  {
    RotatedCells(h, r, sym);
    hide RotateAt, Sole;
  }

  lemma LineShape(h: Heap, path: seq<Ref>, r: Ref, sym: nat, t: Tree)
    requires Line(h, path, r, t) && Knot(h, r, sym) && CanRotate(t, sym)
    ensures Links(RotateAt(h, r, sym), path + [r], Child0(h, Child0(h, r)))
  {
    var X := Cells(path);
    GrandchildClear(h, X, r, t, sym);
    RotatedCells(h, r, sym);
    KnotUnwinds(h, r, sym);
    hide RotateAt, Clear, Unwindable, Child0, Sole;
    var c := Child0(h, r);
    var g := Child0(h, c);
    var h1 := RotateAt(h, r, sym);
    var longer := path + [r];
    forall j | 0 <= j < |longer|
      ensures Unwindable(h1, longer[j]) && Child0(h1, longer[j]) == if j + 1 < |longer| then longer[j + 1] else g
    {
      if j < |path| {
        LinkAt(h, path, r, j);
        assert longer[j] == path[j] && path[j] in X;
        assert longer[j + 1] == if j + 1 < |path| then path[j + 1] else r;
        assert j + 1 < |path| ==> path[j + 1] in X;
        LineKept(h, h1, path[j], r, c, g);
      } else {
        assert longer[j] == r;
      }
    }
  }

  lemma GrandchildClear(h: Heap, X: set<Ref>, r: Ref, t: Tree, sym: nat)
    requires Clear(h, X, Shared(r), t) && CanRotateAt(h, r, sym) && CanRotate(t, sym)
    ensures r !in X && Child0(h, r) !in X && Child0(h, Child0(h, r)) !in X
  {
    assert Clear(h, X, h[r].children[0], t.children[0]);
  }

  /** The three writes, in the program's order. */
  method Rotate(f: Forest, tree: Ref, sym: nat) returns (grandchild: Ref)
    requires f.Valid() && CanRotateAt(f.heap, tree, sym)
    modifies f`heap
    ensures f.Valid() && f.heap == RotateAt(old(f.heap), tree, sym)
    ensures grandchild == Child0(old(f.heap), Child0(old(f.heap), tree))
  {
    var child := f.heap[tree].children[0].ref;
    grandchild := f.heap[child].children[0].ref;
    f.heap := SetChild(f.heap, tree, 0, Shared(grandchild));
    var n := |f.heap[grandchild].children| - 1;
    f.heap := SetChild(f.heap, child, 0, f.heap[grandchild].children[n]);
    f.heap := SetChild(f.heap, grandchild, n, Shared(child));
  }

  /** subtreeCompress. */
  method Compress(f: Forest, lang: Language, self: Ref, count: nat, onto: seq<Ref>,
                  ghost held: multiset<Subtree>, ghost t: Tree)
    returns (stack: seq<Ref>)
    requires f.Valid() && Exact(f.heap, held) && self in f.heap && Denotes(f.heap, Shared(self), t)
    modifies f`heap
    ensures f.Valid() && stack == onto
    ensures f.heap == CompressAt(lang, old(f.heap), self, old(f.heap)[self].data.symbol, count)
  {
    hide CompressAt, UnwindAt, RotateAt, Exact, Line, CanRotateAt, Raised;
    var h0, tree := f.heap, self;
    var symbol := f.heap[tree].data.symbol;
    stack := onto;
    ghost var tt, path := t, [];
    DenotesClear(f.heap, Shared(tree), t);
    LineStart(f.heap, tree, t);
    UnwoundNone(lang, CompressAt(lang, h0, self, symbol, count));
    var i := 0;
    while i < count
      invariant 0 <= i <= count && f.Valid() && f.heap.Keys == h0.Keys && tree in f.heap
      invariant stack == onto + path && Exact(f.heap, held) && Line(f.heap, path, tree, tt)
      invariant CompressAt(lang, h0, self, symbol, count)
             == Unwound(lang, CompressAt(lang, f.heap, tree, symbol, count - i), path)
    {
      if !CanRotateAt(f.heap, tree, symbol) { break; }
      LineStep(f.heap, held, path, tree, symbol, tt);
      CompressUnfold(lang, f.heap, tree, symbol, count - i);
      UnwoundSnoc(lang, CompressAt(lang, RotateAt(f.heap, tree, symbol), Child0(f.heap, Child0(f.heap, tree)), symbol,
                                   count - i - 1), path, tree);
      var grandchild := Rotate(f, tree, symbol);
      stack := stack + [tree];
      path, tt := path + [tree], Raised(tt, symbol);
      tree := grandchild;
      i := i + 1;
    }
    CompressStops(lang, f.heap, tree, symbol, count - i);
    LineUnwinds(f.heap, path, tree, tt);
    while |stack| > |onto|
      invariant f.Valid() && stack == onto + path
      invariant forall j :: 0 <= j < |path| ==> Unwindable(f.heap, path[j])
      invariant CompressAt(lang, h0, self, symbol, count) == Unwound(lang, f.heap, path)
    {
      tree := stack[|stack| - 1];
      assert tree == path[|path| - 1];
      stack := stack[..|stack| - 1];
      path := path[..|path| - 1];
      UnwindNode(f, lang, tree, path);
    }
    assert path == [];
  }

  method UnwindNode(f: Forest, lang: Language, tree: Ref, ghost rest: seq<Ref>)
    requires f.Valid() && Unwindable(f.heap, tree) && forall j :: 0 <= j < |rest| ==> Unwindable(f.heap, rest[j])
    modifies f`heap
    ensures f.Valid() && f.heap == UnwindAt(lang, old(f.heap), tree)
    ensures forall j :: 0 <= j < |rest| ==> Unwindable(f.heap, rest[j])
  {
    hide Summed, SumAt;
    var child := f.heap[tree].children[0].ref;
    var grandchild := f.heap[child].children[|f.heap[child].children| - 1].ref;
    SumSameNodes(lang, f.heap, multiset{}, grandchild);
    SumNode(f, lang, grandchild);
    SumSameNodes(lang, f.heap, multiset{}, child);
    SumNode(f, lang, child);
    SumSameNodes(lang, f.heap, multiset{}, tree);
    SumNode(f, lang, tree);
    UnwindableStays(old(f.heap), f.heap, rest);
  }

  lemma UnwindableStays(h: Heap, h': Heap, rest: seq<Ref>)
    requires h'.Keys == h.Keys && forall k :: k in h ==> h'[k].children == h[k].children
    requires forall j :: 0 <= j < |rest| ==> Unwindable(h, rest[j])
    ensures forall j :: 0 <= j < |rest| ==> Unwindable(h', rest[j])
  {
  }

  lemma LineStart(h: Heap, r: Ref, t: Tree)
    requires Clear(h, {}, Shared(r), t)
    ensures Line(h, [], r, t)
  {
    var path: seq<Ref> := [];
    assert Cells(path) == {};
  }

  lemma LineUnwinds(h: Heap, path: seq<Ref>, r: Ref, t: Tree)
    requires Line(h, path, r, t)
    ensures forall j :: 0 <= j < |path| ==> Unwindable(h, path[j])
  {
  }

  lemma UnwoundNone(lang: Language, h: Heap)
    ensures Unwound(lang, h, []) == h
  {
  }

  lemma UnwoundSnoc(lang: Language, h: Heap, path: seq<Ref>, r: Ref)
    ensures Unwound(lang, h, path + [r]) == Unwound(lang, UnwindAt(lang, h, r), path)
  {
    hide UnwindAt;
    assert (path + [r])[..|path|] == path;
  }

  lemma CompressStops(lang: Language, h: Heap, r: Ref, sym: nat, n: nat)
    requires n == 0 || !CanRotateAt(h, r, sym)
    ensures CompressAt(lang, h, r, sym, n) == h
  {
  }

  // ---------------------------------------------------------------- what balancing does to the store

  function CompressRun(lang: Language, h: Heap, r: Ref, sym: nat, i: nat): Heap
    decreases i
  {
    if i == 0 then h else CompressRun(lang, CompressAt(lang, h, r, sym, i), r, sym, i / 2)
  }

  function Imbalance(h: Heap, r: Ref): int {
    if r !in h || h[r].data.repeatDepth == 0 || h[r].children == [] then 0
    else RepeatDepth(Shell(h, h[r].children[0])) - RepeatDepth(Shell(h, h[r].children[|h[r].children| - 1]))
  }

  /** One node balanced: half the imbalance, then half of that, and so on. */
  function BalanceAt(lang: Language, h: Heap, r: Ref): Heap {
    if r in h && Imbalance(h, r) > 0 then CompressRun(lang, h, r, h[r].data.symbol, Imbalance(h, r) / 2) else h
  }

  function Balanced(lang: Language, h: Heap, trace: seq<Ref>): Heap {
    if trace == [] then h else BalanceAt(lang, Balanced(lang, h, trace[..|trace| - 1]), trace[|trace| - 1])
  }

  /** A node the work list takes: it has children and nobody else holds it. */
  predicate Pushable(h: Heap, s: Subtree) {
    s.Shared? && s.ref in h && h[s.ref].children != [] && h[s.ref].refCount == 1
  }

  // ---------------------------------------------------------------- who can reach a waiting node

  ghost predicate HeldBy(h: Heap, V: set<Ref>, x: Ref) {
    exists k, i :: k in V && k in h && 0 <= i < |h[k].children| && h[k].children[i] == Shared(x)
  }

  /** x is held once, by the root handle or by a visited node. */
  ghost predicate Entered(h: Heap, root: Subtree, V: set<Ref>, x: Ref) {
    x in h && h[x].refCount == 1 && (root == Shared(x) || HeldBy(h, V, x))
  }

  lemma EntryOnly(h: Heap, others: multiset<Subtree>, root: Subtree, V: set<Ref>, x: Ref)
    requires Exact(h, others + multiset{root}) && Entered(h, root, V, x)
    ensures forall k, i :: k in h && 0 <= i < |h[k].children| && h[k].children[i] == Shared(x) ==> k in V
    ensures Shared(x) !in others
  {
    var held := others + multiset{root};
    if HeldBy(h, V, x) {
      var k, i :| k in V && k in h && 0 <= i < |h[k].children| && h[k].children[i] == Shared(x);
      SoleSlot(h, held, x, k, i);
    } else {
      NoSlotHolds(h, held, x);
      assert (Slots(h, h.Keys) + held)[Shared(x)] == Slots(h, h.Keys)[Shared(x)] + others[Shared(x)] + 1;
    }
  }

  lemma NoSlotHolds(h: Heap, held: multiset<Subtree>, x: Ref)
    requires Exact(h, held) && x in h && h[x].refCount == 1 && Shared(x) in held
    ensures forall k, i :: k in h && 0 <= i < |h[k].children| ==> h[k].children[i] != Shared(x)
  {
    forall k, i | k in h && 0 <= i < |h[k].children| ensures h[k].children[i] != Shared(x) {
      SlotCounted(h, k, i);
    }
  }

  /** No cell outside X refers into X. */
  ghost predicate NoEntry(h: Heap, X: set<Ref>) {
    forall k, i, x :: k in h && 0 <= i < |h[k].children| && x in X && h[k].children[i] == Shared(x) ==> k in X
  }

  lemma {:induction false} ClearNoEntry(h: Heap, X: set<Ref>, s: Subtree, t: Tree)
    requires NoEntry(h, X) && Denotes(h, s, t) && (s.Shared? ==> s.ref !in X)
    ensures Clear(h, X, s, t)
    decreases t
  {
    if t.Node? {
      forall i | 0 <= i < |t.children| ensures Clear(h, X, h[s.ref].children[i], t.children[i]) {
        var x := h[s.ref].children[i];
        assert x.Shared? ==> x == Shared(x.ref);
        ClearNoEntry(h, X, x, t.children[i]);
      }
    }
  }

  lemma EnteredNoEntry(h: Heap, others: multiset<Subtree>, root: Subtree, V: set<Ref>, X: set<Ref>)
    requires Exact(h, others + multiset{root}) && V <= X
    requires forall x :: x in X ==> Entered(h, root, V, x)
    ensures NoEntry(h, X)
  {
    forall k, i, x | k in h && 0 <= i < |h[k].children| && x in X && h[k].children[i] == Shared(x) ensures k in X {
      EntryOnly(h, others, root, V, x);
    }
  }

  /** A handle outside X whose tree is clear of X, and so of everything a squeeze below X's node r writes. */
  lemma KeptOutside(h: Heap, h': Heap, X: set<Ref>, S: set<Ref>, r: Ref, s: Subtree, t: Tree)
    requires NoEntry(h, X) && Denotes(h, s, t) && (s.Shared? ==> s.ref !in X && s.ref !in S) && r in X
    requires Sealed(h, S, r) && SameOutside(h, h', S)
    ensures Denotes(h', s, t)
  {
    ClearNoEntry(h, X, s, t);
    ClearLess(h, X, {r}, s, t);
    assert Fenced(h, S, r);
    ClearFenced(h, S, r, s, t);
    ClearFrame(h, h', S, S, s, t);
    ClearDenotes(h', S, s, t);
  }

  // ---------------------------------------------------------------- rebuilding the tree above

  ghost predicate Fit(lang: Language, aux: set<nat>, t: Tree) { Good(lang, t) && Plain(lang, aux, t) }

  ghost predicate Replaced(lang: Language, aux: set<nat>, h: Heap, h': Heap, S: set<Ref>, r: Ref, old': Tree, new': Tree) {
    && r in S && Sealed(h, S, r) && SameOutside(h, h', S) && Denotes(h, Shared(r), old') && Denotes(h', Shared(r), new')
    && Same(lang, old', new') && Fit(lang, aux, new')
  }

  /** When one node's tree is replaced by a same one, every tree above it is replaced by a same one. */
  lemma {:induction false} Rebuild(lang: Language, aux: set<nat>, h: Heap, h': Heap, S: set<Ref>, r: Ref, old': Tree,
                                  new': Tree, s: Subtree, t: Tree)
    returns (t': Tree)
    requires Replaced(lang, aux, h, h', S, r, old', new') && Denotes(h, s, t) && Fit(lang, aux, t)
    requires s.Shared? ==> s.ref !in S || s.ref == r
    ensures Denotes(h', s, t') && Same(lang, t, t') && Fit(lang, aux, t')
    decreases t, 1
  {
    hide Same, Good, Plain, Sealed, SameOutside, Summarised;
    match t
    case Inline(_) =>
      t' := t;
      SameSelf(lang, t);
    case Node(d, cs) =>
      if s.ref == r {
        DenotesUnique(h, s, t, old');
        t' := new';
      } else {
        KeysSame(h, h', S);
        FitParts(lang, aux, t);
        forall i | 0 <= i < |cs| ensures var x := h[s.ref].children[i]; x.Shared? ==> x.ref !in S || x.ref == r {
          SealedSlot(h, S, r, s.ref, i);
        }
        var cs' := RebuildAll(lang, aux, h, h', S, r, old', new', h[s.ref].children, cs);
        t' := Node(d, cs');
        SameNode(lang, d, cs, cs');
        FitNode(lang, aux, d, cs, cs');
      }
  }

  lemma SealedSlot(h: Heap, S: set<Ref>, r: Ref, k: Ref, i: nat)
    requires Sealed(h, S, r) && k in h && k !in S && i < |h[k].children|
    ensures var x := h[k].children[i]; x.Shared? ==> x.ref !in S || x.ref == r
  {
    var x := h[k].children[i];
    assert x.Shared? ==> x == Shared(x.ref);
  }

  lemma FitParts(lang: Language, aux: set<nat>, t: Tree)
    requires t.Node? && Fit(lang, aux, t)
    ensures forall i :: 0 <= i < |t.children| ==> Fit(lang, aux, t.children[i])
  {
  }

  lemma FitNode(lang: Language, aux: set<nat>, d: NodeData, cs: seq<Tree>, cs': seq<Tree>)
    requires Fit(lang, aux, Node(d, cs)) && |cs| == |cs'|
    requires Summarised(lang, Node(d, cs)) ==> Summarised(lang, Node(d, cs'))
    requires forall i :: 0 <= i < |cs'| ==> Fit(lang, aux, cs'[i])
    ensures Fit(lang, aux, Node(d, cs'))
  {
    hide Summarised, HiddenNode;
  }

  lemma {:induction false} RebuildAll(lang: Language, aux: set<nat>, h: Heap, h': Heap, S: set<Ref>, r: Ref, old': Tree,
                                     new': Tree, ss: seq<Subtree>, cs: seq<Tree>)
    returns (cs': seq<Tree>)
    requires Replaced(lang, aux, h, h', S, r, old', new') && |ss| == |cs|
    requires forall i :: 0 <= i < |cs| ==> Denotes(h, ss[i], cs[i]) && Fit(lang, aux, cs[i])
    requires forall i :: 0 <= i < |ss| && ss[i].Shared? ==> ss[i].ref !in S || ss[i].ref == r
    ensures AllSame(lang, cs, cs') && |cs'| == |cs|
    ensures forall i :: 0 <= i < |cs| ==> Denotes(h', ss[i], cs'[i]) && Fit(lang, aux, cs'[i])
    decreases cs, 0
  {
    hide Replaced, Denotes, Fit, Same;
    cs' := [];
    if cs != [] {
      var c := Rebuild(lang, aux, h, h', S, r, old', new', ss[0], cs[0]);
      var rest := RebuildAll(lang, aux, h, h', S, r, old', new', ss[1..], cs[1..]);
      cs' := [c] + rest;
    }
  }

  // ---------------------------------------------------------------- the work list

  /** Work in progress: `seen` has been balanced, `stack` waits with its trees `ts`, and the root now
      denotes `now`, which is the same as the tree it denoted at the start. */
  ghost predicate Work(lang: Language, aux: set<nat>, h: Heap, root: Subtree, others: multiset<Subtree>,
                       seen: set<Ref>, stack: seq<Ref>, ts: seq<Tree>, start: Tree, now: Tree) {
    && Exact(h, others + multiset{root}) && Denotes(h, root, now) && Same(lang, start, now) && Fit(lang, aux, now)
    && Marked(h, root, seen, stack)
    && |ts| == |stack|
    && (forall j :: 0 <= j < |ts| ==> Denotes(h, Shared(stack[j]), ts[j]) && Fit(lang, aux, ts[j]))
  }

  /** Every seen and waiting cell is entered once, from the seen ones; and every node the seen ones
      can push is seen or waiting. */
  ghost predicate Marked(h: Heap, root: Subtree, seen: set<Ref>, stack: seq<Ref>) {
    EnteredOnce(h, root, seen, stack) && Closed(h, seen, stack)
  }

  ghost predicate EnteredOnce(h: Heap, root: Subtree, seen: set<Ref>, stack: seq<Ref>) {
    && (forall x :: x in seen ==> Entered(h, root, seen, x))
    && (forall j :: 0 <= j < |stack| ==> Entered(h, root, seen, stack[j]) && stack[j] !in seen
                                         && Pushable(h, Shared(stack[j])))
    && (forall i, j :: 0 <= i < j < |stack| ==> stack[i] != stack[j])
  }

  ghost predicate Closed(h: Heap, seen: set<Ref>, stack: seq<Ref>) {
    forall k, i :: k in seen && k in h && 0 <= i < |h[k].children| && Pushable(h, h[k].children[i]) ==>
      h[k].children[i].ref in seen || h[k].children[i].ref in stack
  }

  lemma SqueezedFit(lang: Language, aux: set<nat>, h: Heap, held: multiset<Subtree>, r: Ref, n: nat, t: Tree)
    requires Exact(h, held) && Denotes(h, Shared(r), t) && Fit(lang, aux, t) && SYM_ERROR !in aux
    requires r in h && h[r].data.symbol in aux
    ensures var sym := h[r].data.symbol;
      var h', S := CompressAt(lang, h, r, sym, n), Touched(h, r, sym, n);
      && t.Node? && Rotates(t, sym, Rotations(h, r, sym, n))
      && Replaced(lang, aux, h, h', S, r, t, Squeeze(lang, t, sym, Rotations(h, r, sym, n)))
      && Exact(h', held) && S <= h.Keys
      && h'[r].data.symbol == sym
  {
    hide Same, Good, Plain, Sealed, SameOutside, Exact, CompressAt, Squeeze, Touched, Rotations, Summed;
    var sym := h[r].data.symbol;
    CompressSqueezes(lang, h, held, r, sym, n, t);
    TouchedSealed(h, held, r, sym, n, t);
    SqueezeSame(lang, aux, t, Rotations(h, r, sym, n));
    SqueezeKeepsFlags(lang, t, sym, Rotations(h, r, sym, n));
  }

  /** Cells entered from the seen ones, other than r, are not written by a squeeze of r. */
  lemma SeenUntouched(lang: Language, h: Heap, others: multiset<Subtree>, root: Subtree, seen: set<Ref>, X: set<Ref>,
                      r: Ref, n: nat, t: Tree)
    requires Exact(h, others + multiset{root}) && Denotes(h, Shared(r), t) && r in h && r !in X && seen <= X
    requires forall x :: x in X ==> Entered(h, root, seen, x)
    ensures Touched(h, r, h[r].data.symbol, n) !! X
  {
    EnteredNoEntry(h, others, root, seen, X);
    ClearNoEntry(h, X, Shared(r), t);
    TouchedWithin(h, others + multiset{root}, r, h[r].data.symbol, n, t, X);
  }

  /** The cells of the waiting nodes but the last. */
  function Earlier(stack: seq<Ref>): set<Ref>
    requires stack != []
  {
    Cells(stack[..|stack| - 1])
  }

  lemma EnteredStays(h: Heap, h': Heap, root: Subtree, seen: set<Ref>, S: set<Ref>, x: Ref)
    requires Entered(h, root, seen, x) && SameOutside(h, h', S) && S !! seen
    ensures Entered(h', root, seen, x)
  {
    if HeldBy(h, seen, x) {
      var k, i :| k in seen && k in h && 0 <= i < |h[k].children| && h[k].children[i] == Shared(x);
      assert h'[k] == h[k];
    }
  }

  lemma MarkedStays(h: Heap, h': Heap, root: Subtree, seen: set<Ref>, stack: seq<Ref>, S: set<Ref>, r: Ref)
    requires Marked(h, root, seen, stack) && stack != [] && r == stack[|stack| - 1]
    requires SameOutside(h, h', S) && Sealed(h, S, r) && S !! seen + Earlier(stack) && r in S
    requires r in h' && h'[r].children != []
    ensures Marked(h', root, seen, stack)
  {
    hide EnteredOnce, Closed, SameOutside, Sealed;
    EnteredOnceStays(h, h', root, seen, stack, S, r);
    ClosedStays(h, h', seen, stack, S, r);
  }

  lemma EnteredOnceStays(h: Heap, h': Heap, root: Subtree, seen: set<Ref>, stack: seq<Ref>, S: set<Ref>, r: Ref)
    requires EnteredOnce(h, root, seen, stack) && stack != [] && r == stack[|stack| - 1]
    requires SameOutside(h, h', S) && S !! seen + Earlier(stack) && r in S
    requires r in h' && h'[r].children != []
    ensures EnteredOnce(h', root, seen, stack)
  {
    KeysSame(h, h', S);
    hide SameOutside, Entered;
    forall x | x in seen ensures Entered(h', root, seen, x) {
      EnteredStays(h, h', root, seen, S, x);
    }
    forall j | 0 <= j < |stack| ensures Entered(h', root, seen, stack[j]) && Pushable(h', Shared(stack[j])) {
      EnteredStays(h, h', root, seen, S, stack[j]);
      if j < |stack| - 1 {
        assert stack[j] == stack[..|stack| - 1][j];
        assert stack[j] in Earlier(stack);
      }
    }
  }

  lemma ClosedStays(h: Heap, h': Heap, seen: set<Ref>, stack: seq<Ref>, S: set<Ref>, r: Ref)
    requires Closed(h, seen, stack) && stack != [] && r == stack[|stack| - 1]
    requires SameOutside(h, h', S) && Sealed(h, S, r) && S !! seen
    ensures Closed(h', seen, stack)
  {
    KeysSame(h, h', S);
    hide SameOutside, Sealed;
    forall k, i | k in seen && k in h' && 0 <= i < |h'[k].children| && Pushable(h', h'[k].children[i])
      ensures h'[k].children[i].ref in seen || h'[k].children[i].ref in stack
    {
      assert h'[k] == h[k];
      SealedSlot(h, S, r, k, i);
      var c := h[k].children[i];
      if c.ref != r { assert Pushable(h, c); }
    }
  }

  /** No handle outside the store holds a cell the squeeze writes, but perhaps r itself. */
  lemma {:induction false} TouchedUnheld(h: Heap, held: multiset<Subtree>, r: Ref, sym: nat, n: nat, t: Tree, x: Ref)
    requires Exact(h, held) && r in h && Denotes(h, Shared(r), t)
    requires x in Touched(h, r, sym, n) && x != r
    ensures Shared(x) !in held
    decreases n
  {
    hide *;
    if n == 0 || !CanRotateAt(h, r, sym) {
      TouchedNone(h, r, sym, n);
    } else {
      var c := Child0(h, r);
      var g := Child0(h, c);
      UnheldPair(h, held, r, sym);
      if x != c && x != g {
        TouchedNext(h, r, sym, n, x);
        DenotesClear(h, Shared(r), t);
        RotateStep(h, held, r, sym, t, {});
        TouchedUnheld(RotateAt(h, r, sym), held, g, sym, n - 1, Raised(t, sym), x);
      }
    }
  }

  lemma TouchedNone(h: Heap, r: Ref, sym: nat, n: nat)
    requires n == 0 || !CanRotateAt(h, r, sym)
    ensures Touched(h, r, sym, n) == {r}
  {
  }

  lemma TouchedNext(h: Heap, r: Ref, sym: nat, n: nat, x: Ref)
    requires n > 0 && CanRotateAt(h, r, sym) && x in Touched(h, r, sym, n) && x != r && x != Child0(h, r)
    ensures x in Touched(RotateAt(h, r, sym), Child0(h, Child0(h, r)), sym, n - 1)
  {
    hide RotateAt;
  }

  lemma UnheldPair(h: Heap, held: multiset<Subtree>, r: Ref, sym: nat)
    requires Exact(h, held) && CanRotateAt(h, r, sym)
    ensures Shared(Child0(h, r)) !in held && Shared(Child0(h, Child0(h, r))) !in held
  {
    SoleSlot(h, held, Child0(h, r), r, 0);
    SoleSlot(h, held, Child0(h, Child0(h, r)), Child0(h, r), 0);
  }

  lemma WorkTop(lang: Language, aux: set<nat>, h: Heap, root: Subtree, others: multiset<Subtree>,
                seen: set<Ref>, stack: seq<Ref>, ts: seq<Tree>, start: Tree, now: Tree)
    requires Work(lang, aux, h, root, others, seen, stack, ts, start, now) && stack != []
    ensures var m := |stack| - 1;
      && Exact(h, others + multiset{root}) && |ts| == |stack|
      && Denotes(h, Shared(stack[m]), ts[m]) && Fit(lang, aux, ts[m]) && stack[m] in h && h[stack[m]].children != []
      && Marked(h, root, seen, stack) && stack[m] !in seen + Earlier(stack)
      && (forall x :: x in seen + Earlier(stack) ==> Entered(h, root, seen, x))
      && (forall x :: x in seen + {stack[m]} ==> Entered(h, root, seen, x))
      && (forall j :: 0 <= j < m ==> stack[j] in Earlier(stack) && stack[j] !in seen + {stack[m]})
  {
    hide Exact, Entered, Same, Denotes, Fit;
    var m := |stack| - 1;
    forall j | 0 <= j < m ensures stack[j] in Earlier(stack) {
      assert stack[j] == stack[..m][j];
    }
    forall x | x in Earlier(stack) ensures exists j :: 0 <= j < m && stack[j] == x {
      var j :| 0 <= j < m && stack[..m][j] == x;
      assert stack[j] == x;
    }
  }

  lemma OthersKept(h: Heap, h': Heap, others: multiset<Subtree>, root: Subtree, seen: set<Ref>, S: set<Ref>, r: Ref)
    requires Exact(h, others + multiset{root}) && Sealed(h, S, r) && SameOutside(h, h', S)
    requires forall x :: x in seen + {r} ==> Entered(h, root, seen, x)
    requires forall x :: x in S && x != r ==> Shared(x) !in others
    ensures KeepsTrees(h, h', others)
  {
    var X := seen + {r};
    EnteredNoEntry(h, others, root, seen, X);
    forall x | x in X ensures Shared(x) !in others {
      EntryOnly(h, others, root, seen, x);
    }
    forall s, t | s in others && Denotes(h, s, t) ensures Denotes(h', s, t) {
      assert s.Shared? ==> s == Shared(s.ref);
      KeptOutside(h, h', X, S, r, s, t);
    }
  }

  lemma WaitingKept(h: Heap, h': Heap, others: multiset<Subtree>, root: Subtree, seen: set<Ref>, S: set<Ref>, r: Ref,
                    u: Ref, t: Tree)
    requires Exact(h, others + multiset{root}) && Sealed(h, S, r) && SameOutside(h, h', S)
    requires forall x :: x in seen + {r} ==> Entered(h, root, seen, x)
    requires u !in seen + {r} && u !in S && Denotes(h, Shared(u), t)
    ensures Denotes(h', Shared(u), t)
  {
    EnteredNoEntry(h, others, root, seen, seen + {r});
    KeptOutside(h, h', seen + {r}, S, r, Shared(u), t);
  }

  lemma ReplacedParts(lang: Language, aux: set<nat>, h: Heap, h': Heap, S: set<Ref>, r: Ref, old': Tree, new': Tree)
    requires Replaced(lang, aux, h, h', S, r, old', new') && r in h && h[r].children != []
    ensures r in S && Sealed(h, S, r) && SameOutside(h, h', S) && Denotes(h', Shared(r), new') && Fit(lang, aux, new')
    ensures h'.Keys == h.Keys && h'[r].children != []
  {
    hide Good, Plain;
  }

  /** Compressing the waiting node on top keeps the whole of the work. */
  lemma CompressKeepsWork(lang: Language, aux: set<nat>, h: Heap, root: Subtree, others: multiset<Subtree>,
                          seen: set<Ref>, stack: seq<Ref>, ts: seq<Tree>, start: Tree, now: Tree, n: nat)
    returns (ts': seq<Tree>, now': Tree)
    requires Work(lang, aux, h, root, others, seen, stack, ts, start, now) && stack != [] && SYM_ERROR !in aux
    requires var r := stack[|stack| - 1]; r in h && h[r].data.symbol in aux
    ensures var r := stack[|stack| - 1]; var h' := CompressAt(lang, h, r, h[r].data.symbol, n);
      && Work(lang, aux, h', root, others, seen, stack, ts', start, now')
      && KeepsTrees(h, h', others) && h'.Keys == h.Keys
      && r in h' && h'[r].data.symbol == h[r].data.symbol
  {
    hide *;
    WorkTop(lang, aux, h, root, others, seen, stack, ts, start, now);
    var m := |stack| - 1;
    var r, t := stack[m], ts[m];
    var sym := h[r].data.symbol;
    var held := others + multiset{root};
    var h', S := CompressAt(lang, h, r, sym, n), Touched(h, r, sym, n);
    SqueezedFit(lang, aux, h, held, r, n, t);
    var t' := Squeeze(lang, t, sym, Rotations(h, r, sym, n));
    ReplacedParts(lang, aux, h, h', S, r, t, t');
    SeenUntouched(lang, h, others, root, seen, seen + Earlier(stack), r, n, t);
    MarkedStays(h, h', root, seen, stack, S, r);
    forall x | x in S && x != r ensures Shared(x) !in others && root != Shared(x) {
      TouchedUnheld(h, held, r, sym, n, t, x);
      assert root in held;
    }
    OthersKept(h, h', others, root, seen, S, r);
    WorkRoot(lang, aux, h, root, others, seen, stack, ts, start, now);
    assert root.Shared? ==> root == Shared(root.ref);
    now' := Rebuild(lang, aux, h, h', S, r, t, t', root, now);
    SameTransitive(lang, start, now, now');
    ts' := ts[m := t'];
    forall j | 0 <= j < |ts'| ensures Denotes(h', Shared(stack[j]), ts'[j]) && Fit(lang, aux, ts'[j]) {
      if j < m {
        WorkWaiting(lang, aux, h, root, others, seen, stack, ts, start, now, j);
        WaitingKept(h, h', others, root, seen, S, r, stack[j], ts[j]);
      }
    }
    WorkOf(lang, aux, h', root, others, seen, stack, ts', start, now');
  }

  lemma WorkRoot(lang: Language, aux: set<nat>, h: Heap, root: Subtree, others: multiset<Subtree>,
                 seen: set<Ref>, stack: seq<Ref>, ts: seq<Tree>, start: Tree, now: Tree)
    requires Work(lang, aux, h, root, others, seen, stack, ts, start, now)
    ensures Denotes(h, root, now) && Fit(lang, aux, now) && Same(lang, start, now) && Exact(h, others + multiset{root})
  {
  }

  lemma WorkWaiting(lang: Language, aux: set<nat>, h: Heap, root: Subtree, others: multiset<Subtree>,
                    seen: set<Ref>, stack: seq<Ref>, ts: seq<Tree>, start: Tree, now: Tree, j: nat)
    requires Work(lang, aux, h, root, others, seen, stack, ts, start, now) && j < |stack|
    ensures |ts| == |stack| && Denotes(h, Shared(stack[j]), ts[j]) && Fit(lang, aux, ts[j])
  {
  }

  lemma WorkOf(lang: Language, aux: set<nat>, h: Heap, root: Subtree, others: multiset<Subtree>,
               seen: set<Ref>, stack: seq<Ref>, ts: seq<Tree>, start: Tree, now: Tree)
    requires Denotes(h, root, now) && Fit(lang, aux, now) && Same(lang, start, now) && Exact(h, others + multiset{root})
    requires Marked(h, root, seen, stack) && |ts| == |stack|
    requires forall j :: 0 <= j < |ts| ==> Denotes(h, Shared(stack[j]), ts[j]) && Fit(lang, aux, ts[j])
    ensures Work(lang, aux, h, root, others, seen, stack, ts, start, now)
  {
  }

  // ---------------------------------------------------------------- balanceSubtree

  /** The imbalance of a node on the work list, worked off by ever smaller compressions. */
  method BalanceNode(f: Forest, lang: Language, tree: Ref, onto: seq<Ref>, ghost aux: set<nat>, ghost root: Subtree,
                     ghost others: multiset<Subtree>, ghost seen: set<Ref>, ghost ts: seq<Tree>, ghost start: Tree,
                     ghost now: Tree)
    returns (stack: seq<Ref>, ghost ts': seq<Tree>, ghost now': Tree)
    requires f.Valid() && onto != [] && tree == onto[|onto| - 1] && SYM_ERROR !in aux
    requires Work(lang, aux, f.heap, root, others, seen, onto, ts, start, now)
    modifies f`heap
    ensures f.Valid() && stack == onto && f.heap == BalanceAt(lang, old(f.heap), tree)
    ensures Work(lang, aux, f.heap, root, others, seen, onto, ts', start, now')
    ensures KeepsTrees(old(f.heap), f.heap, others) && f.heap.Keys == old(f.heap).Keys
  {
    hide *;
    stack, ts', now' := onto, ts, now;
    WorkTop(lang, aux, f.heap, root, others, seen, onto, ts, start, now);
    KeepsTreesSelf(f.heap, others);
    var delta := 0;
    if f.heap[tree].data.repeatDepth > 0 {
      var first := f.heap[tree].children[0];
      var last := f.heap[tree].children[|f.heap[tree].children| - 1];
      delta := RepeatDepth(Shell(f.heap, first)) - RepeatDepth(Shell(f.heap, last));
    }
    ImbalanceIs(f.heap, tree);
    BalanceAtIs(lang, f.heap, tree);
    if delta > 0 {
      RepeatsAreAux(lang, aux, f.heap, tree, ts[|ts| - 1]);
      var n, i := delta, delta / 2;
      var symbol := f.heap[tree].data.symbol;
      CompressRunStops(lang, f.heap, tree, symbol);
      while i > 0
        invariant 0 <= i && f.Valid() && stack == onto && f.heap.Keys == old(f.heap).Keys && tree in f.heap
        invariant f.heap[tree].data.symbol == symbol
        invariant Work(lang, aux, f.heap, root, others, seen, onto, ts', start, now')
        invariant KeepsTrees(old(f.heap), f.heap, others)
        invariant CompressRun(lang, f.heap, tree, symbol, i)
               == CompressRun(lang, old(f.heap), tree, symbol, delta / 2)
        decreases i
      {
        ghost var h := f.heap;
        WorkTop(lang, aux, f.heap, root, others, seen, onto, ts', start, now');
        ghost var t := ts'[|onto| - 1];
        ts', now' := CompressKeepsWork(lang, aux, f.heap, root, others, seen, onto, ts', start, now', i);
        CompressRunStep(lang, f.heap, tree, symbol, i);
        stack := Compress(f, lang, tree, i, stack, others + multiset{root}, t);
        KeepsTreesTransitive(old(f.heap), h, f.heap, others);
        n := n - i;
        i := i / 2;
      }
      CompressRunStops(lang, f.heap, tree, symbol);
    }
  }

  lemma KeepsTreesSelf(h: Heap, others: multiset<Subtree>)
    ensures KeepsTrees(h, h, others)
  {
  }

  lemma ImbalanceIs(h: Heap, r: Ref)
    requires r in h && h[r].children != []
    ensures Imbalance(h, r)
         == if h[r].data.repeatDepth == 0 then 0
            else RepeatDepth(Shell(h, h[r].children[0])) - RepeatDepth(Shell(h, h[r].children[|h[r].children| - 1]))
  {
  }

  lemma BalanceAtIs(lang: Language, h: Heap, r: Ref)
    ensures BalanceAt(lang, h, r)
         == if r in h && Imbalance(h, r) > 0 then CompressRun(lang, h, r, h[r].data.symbol, Imbalance(h, r) / 2) else h
  {
    hide CompressRun, Imbalance;
  }

  lemma CompressRunStep(lang: Language, h: Heap, r: Ref, sym: nat, i: nat)
    requires i > 0
    ensures CompressRun(lang, h, r, sym, i) == CompressRun(lang, CompressAt(lang, h, r, sym, i), r, sym, i / 2)
  {
    hide CompressAt;
  }

  lemma CompressRunStops(lang: Language, h: Heap, r: Ref, sym: nat)
    ensures CompressRun(lang, h, r, sym, 0) == h
  {
  }

  /** A repeat depth is only kept on auxiliary symbols. */
  lemma RepeatsAreAux(lang: Language, aux: set<nat>, h: Heap, r: Ref, t: Tree)
    requires Denotes(h, Shared(r), t) && Fit(lang, aux, t) && r in h && h[r].data.repeatDepth > 0
    ensures h[r].data.symbol in aux
  {
    hide Good, HiddenNode;
  }

  /** The children a node pushes, in order. */
  function Pushed(h: Heap, ss: seq<Subtree>): seq<Ref> {
    if ss == [] then [] else
    var n := |ss| - 1;
    Pushed(h, ss[..n]) + (if Pushable(h, ss[n]) then [ss[n].ref] else [])
  }

  function PushedTrees(h: Heap, ss: seq<Subtree>, cs: seq<Tree>): seq<Tree>
    requires |ss| == |cs|
  {
    if ss == [] then [] else
    var n := |ss| - 1;
    PushedTrees(h, ss[..n], cs[..n]) + (if Pushable(h, ss[n]) then [cs[n]] else [])
  }

  lemma {:induction false} PushedFacts(lang: Language, aux: set<nat>, h: Heap, ss: seq<Subtree>, cs: seq<Tree>)
    requires |ss| == |cs| && forall i :: 0 <= i < |cs| ==> Denotes(h, ss[i], cs[i]) && Fit(lang, aux, cs[i])
    requires forall i, j :: 0 <= i < j < |ss| && Pushable(h, ss[i]) ==> ss[j] != ss[i]
    ensures var xs, ts := Pushed(h, ss), PushedTrees(h, ss, cs);
      && |xs| == |ts|
      && (forall j :: 0 <= j < |xs| ==> Shared(xs[j]) in ss && Pushable(h, Shared(xs[j]))
                                        && Denotes(h, Shared(xs[j]), ts[j]) && Fit(lang, aux, ts[j]))
      && (forall i, j :: 0 <= i < j < |xs| ==> xs[i] != xs[j])
      && (forall i :: 0 <= i < |ss| && Pushable(h, ss[i]) ==> ss[i].ref in xs)
    decreases |ss|
  {
    hide Denotes, Fit;
    if ss != [] {
      var n := |ss| - 1;
      PushedFacts(lang, aux, h, ss[..n], cs[..n]);
      assert ss == ss[..n] + [ss[n]];
      var xs := Pushed(h, ss[..n]);
      if Pushable(h, ss[n]) {
        assert ss[n] == Shared(ss[n].ref);
      }
      forall i | 0 <= i < |ss| && Pushable(h, ss[i]) ensures ss[i].ref in Pushed(h, ss) {
        if i < n { assert ss[..n][i] == ss[i]; }
      }
    }
  }

  lemma SoleChildren(h: Heap, held: multiset<Subtree>, r: Ref)
    requires Exact(h, held) && r in h
    ensures forall i, j :: 0 <= i < j < |h[r].children| && Pushable(h, h[r].children[i]) ==>
              h[r].children[j] != h[r].children[i]
  {
    forall i, j | 0 <= i < j < |h[r].children| && Pushable(h, h[r].children[i])
      ensures h[r].children[j] != h[r].children[i]
    {
      var x := h[r].children[i];
      assert x == Shared(x.ref);
      SoleSlot(h, held, x.ref, r, i);
    }
  }

  /** Popping the balanced node and pushing its children keeps the marks. */
  lemma MarkedMoves(h: Heap, others: multiset<Subtree>, root: Subtree, seen: set<Ref>, stack: seq<Ref>, xs: seq<Ref>)
    requires Exact(h, others + multiset{root}) && Marked(h, root, seen, stack) && stack != []
    requires stack[|stack| - 1] in h
    requires var ss := h[stack[|stack| - 1]].children;
      && (forall j :: 0 <= j < |xs| ==> Shared(xs[j]) in ss && Pushable(h, Shared(xs[j])))
      && (forall i, j :: 0 <= i < j < |xs| ==> xs[i] != xs[j])
      && (forall i :: 0 <= i < |ss| && Pushable(h, ss[i]) ==> ss[i].ref in xs)
    ensures Marked(h, root, seen + {stack[|stack| - 1]}, stack[..|stack| - 1] + xs)
  {
    hide Entered, EnteredOnce, Closed, Exact, Pushable;
    forall j | 0 <= j < |xs|
      ensures Entered(h, root, seen + {stack[|stack| - 1]}, xs[j]) && xs[j] !in seen + {stack[|stack| - 1]}
      ensures xs[j] !in stack
    {
      ChildFresh(h, others, root, seen, stack, xs[j]);
    }
    EnteredOnceMoves(h, root, seen, stack, xs);
    ClosureMoves(h, root, seen, stack, xs);
  }

  lemma EnteredOnceMoves(h: Heap, root: Subtree, seen: set<Ref>, stack: seq<Ref>, xs: seq<Ref>)
    requires EnteredOnce(h, root, seen, stack) && stack != []
    requires forall i, j :: 0 <= i < j < |xs| ==> xs[i] != xs[j]
    requires forall j :: 0 <= j < |xs| ==>
      && Entered(h, root, seen + {stack[|stack| - 1]}, xs[j]) && xs[j] !in seen + {stack[|stack| - 1]}
      && xs[j] !in stack && Pushable(h, Shared(xs[j]))
    ensures EnteredOnce(h, root, seen + {stack[|stack| - 1]}, stack[..|stack| - 1] + xs)
  {
    hide Entered, Pushable;
    var m := |stack| - 1;
    var r := stack[m];
    var seen', stack' := seen + {r}, stack[..m] + xs;
    forall x | x in seen' ensures Entered(h, root, seen', x) {
      EnteredMore(h, root, seen, r, x);
    }
    Distinct(stack, xs);
    forall j | 0 <= j < |stack'|
      ensures Entered(h, root, seen', stack'[j]) && stack'[j] !in seen' && Pushable(h, Shared(stack'[j]))
    {
      if j >= m {
        assert stack'[j] == xs[j - m];
      } else {
        assert stack'[j] == stack[j];
        EnteredMore(h, root, seen, r, stack[j]);
      }
    }
  }

  lemma Distinct(stack: seq<Ref>, xs: seq<Ref>)
    requires stack != [] && (forall i, j :: 0 <= i < j < |stack| ==> stack[i] != stack[j])
    requires forall i, j :: 0 <= i < j < |xs| ==> xs[i] != xs[j]
    requires forall j :: 0 <= j < |xs| ==> xs[j] !in stack
    ensures var s := stack[..|stack| - 1] + xs; forall i, j :: 0 <= i < j < |s| ==> s[i] != s[j]
  {
    var m := |stack| - 1;
    var s := stack[..m] + xs;
    forall i, j | 0 <= i < j < |s| ensures s[i] != s[j] {
      if i < m && j >= m {
        assert s[i] == stack[i] && s[j] == xs[j - m];
      }
    }
  }

  lemma ClosureMoves(h: Heap, root: Subtree, seen: set<Ref>, stack: seq<Ref>, xs: seq<Ref>)
    requires Closed(h, seen, stack) && stack != [] && stack[|stack| - 1] in h
    requires var ss := h[stack[|stack| - 1]].children;
      forall i :: 0 <= i < |ss| && Pushable(h, ss[i]) ==> ss[i].ref in xs
    ensures Closed(h, seen + {stack[|stack| - 1]}, stack[..|stack| - 1] + xs)
  {
    var m := |stack| - 1;
    var r := stack[m];
    var seen', stack' := seen + {r}, stack[..m] + xs;
    assert stack == stack[..m] + [r];
    forall k, i | k in seen' && k in h && 0 <= i < |h[k].children| && Pushable(h, h[k].children[i])
      ensures h[k].children[i].ref in seen' || h[k].children[i].ref in stack'
    {
      var c := h[k].children[i].ref;
      if k == r { assert c in xs; }
    }
  }

  lemma EnteredMore(h: Heap, root: Subtree, seen: set<Ref>, r: Ref, x: Ref)
    requires Entered(h, root, seen, x)
    ensures Entered(h, root, seen + {r}, x)
  {
  }

  /** A child of the waiting node that nobody else holds is neither seen nor waiting yet. */
  lemma ChildFresh(h: Heap, others: multiset<Subtree>, root: Subtree, seen: set<Ref>, stack: seq<Ref>, x: Ref)
    requires Exact(h, others + multiset{root}) && Marked(h, root, seen, stack) && stack != []
    requires var r := stack[|stack| - 1]; r in h && Shared(x) in h[r].children && Pushable(h, Shared(x))
    ensures var r := stack[|stack| - 1];
      Entered(h, root, seen + {r}, x) && x !in seen + {r} && x !in stack
  {
    var r := stack[|stack| - 1];
    var i :| 0 <= i < |h[r].children| && h[r].children[i] == Shared(x);
    assert HeldBy(h, seen + {r}, x);
    if x in seen || x in stack {
      assert Entered(h, root, seen, x);
      EntryOnly(h, others, root, seen, x);
    }
  }

  lemma PopKeepsWork(lang: Language, aux: set<nat>, h: Heap, root: Subtree, others: multiset<Subtree>,
                     seen: set<Ref>, stack: seq<Ref>, ts: seq<Tree>, start: Tree, now: Tree)
    returns (ts': seq<Tree>)
    requires Work(lang, aux, h, root, others, seen, stack, ts, start, now) && stack != []
    ensures var r := stack[|stack| - 1];
      r in h && Work(lang, aux, h, root, others, seen + {r}, stack[..|stack| - 1] + Pushed(h, h[r].children), ts', start, now)
  {
    hide *;
    WorkTop(lang, aux, h, root, others, seen, stack, ts, start, now);
    WorkRoot(lang, aux, h, root, others, seen, stack, ts, start, now);
    var m := |stack| - 1;
    var r, t := stack[m], ts[m];
    TopChildren(lang, aux, h, r, t);
    SoleChildren(h, others + multiset{root}, r);
    PushedFacts(lang, aux, h, h[r].children, t.children);
    MarkedMoves(h, others, root, seen, stack, Pushed(h, h[r].children));
    var xs, us := Pushed(h, h[r].children), PushedTrees(h, h[r].children, t.children);
    ts' := ts[..m] + us;
    var stack' := stack[..m] + xs;
    forall j | 0 <= j < |ts'| ensures Denotes(h, Shared(stack'[j]), ts'[j]) && Fit(lang, aux, ts'[j]) {
      if j < m {
        WorkWaiting(lang, aux, h, root, others, seen, stack, ts, start, now, j);
      } else {
        assert stack'[j] == xs[j - m] && ts'[j] == us[j - m];
      }
    }
    WorkOf(lang, aux, h, root, others, seen + {r}, stack', ts', start, now);
  }

  lemma TopChildren(lang: Language, aux: set<nat>, h: Heap, r: Ref, t: Tree)
    requires Denotes(h, Shared(r), t) && Fit(lang, aux, t)
    ensures t.Node? && r in h && |h[r].children| == |t.children|
    ensures forall i :: 0 <= i < |t.children| ==> Denotes(h, h[r].children[i], t.children[i]) && Fit(lang, aux, t.children[i])
  {
    FitParts(lang, aux, t);
  }

  function RefOf(s: Subtree): Ref { match s case Packed(_) => 0 case Shared(r) => r }

  /** Every child of a visited node that only this tree holds has been visited too. */
  ghost predicate AllVisited(h: Heap, trace: seq<Ref>) {
    forall k, i :: k in trace && k in h && 0 <= i < |h[k].children| && Pushable(h, h[k].children[i]) ==>
      h[k].children[i].ref in trace
  }

  lemma VisitedAll(h: Heap, root: Subtree, trace: seq<Ref>)
    requires Marked(h, root, Cells(trace), [])
    ensures AllVisited(h, trace)
  {
    hide Entered;
    forall k, i | k in trace && k in h && 0 <= i < |h[k].children| && Pushable(h, h[k].children[i])
      ensures h[k].children[i].ref in trace
    {
      assert k in Cells(trace);
    }
  }

  lemma PushableStays(h: Heap, root: Subtree, seen: set<Ref>, stack: seq<Ref>)
    requires Marked(h, root, seen, stack)
    ensures forall j :: 0 <= j < |stack| ==> stack[j] in h && stack[j] !in seen
  {
  }

  lemma WorkMarked(lang: Language, aux: set<nat>, h: Heap, root: Subtree, others: multiset<Subtree>,
                   seen: set<Ref>, stack: seq<Ref>, ts: seq<Tree>, start: Tree, now: Tree)
    requires Work(lang, aux, h, root, others, seen, stack, ts, start, now)
    ensures Marked(h, root, seen, stack)
  {
  }

  lemma StartWork(lang: Language, aux: set<nat>, h: Heap, root: Subtree, others: multiset<Subtree>, t: Tree)
    requires Exact(h, others + multiset{root}) && Denotes(h, root, t) && Fit(lang, aux, t)
    ensures var stack := if Pushable(h, root) then [RefOf(root)] else [];
      Work(lang, aux, h, root, others, {}, stack, if Pushable(h, root) then [t] else [], t, t)
  {
    hide Exact, Good, Plain;
    SameSelf(lang, t);
    assert Pushable(h, root) ==> root == Shared(root.ref);
  }

  lemma BalancedSnoc(lang: Language, h: Heap, trace: seq<Ref>, r: Ref)
    ensures Balanced(lang, h, trace + [r]) == BalanceAt(lang, Balanced(lang, h, trace), r)
    ensures Balanced(lang, h, []) == h
  {
    hide BalanceAt;
    assert (trace + [r])[..|trace|] == trace;
  }

  /** balanceSubtree.  The nodes visited are balanced one after another, each once; in the end every
      node only the tree itself holds has been visited; the tree is the same to every reader, and no
      other handle's tree has changed. */
  method BalanceSubtree(f: Forest, lang: Language, finished: Subtree, ghost aux: set<nat>, ghost others: multiset<Subtree>,
                        ghost t: Tree)
    returns (ghost trace: seq<Ref>, ghost now: Tree)
    requires f.Valid() && Exact(f.heap, others + multiset{finished}) && Denotes(f.heap, finished, t)
    requires Fit(lang, aux, t) && SYM_ERROR !in aux
    modifies f`heap
    ensures f.Valid() && Exact(f.heap, others + multiset{finished})
    ensures Denotes(f.heap, finished, now) && Same(lang, t, now) && Fit(lang, aux, now)
    ensures KeepsTrees(old(f.heap), f.heap, others)
    ensures f.heap == Balanced(lang, old(f.heap), trace) && AllVisited(f.heap, trace)
    ensures Pushable(old(f.heap), finished) ==> RefOf(finished) in trace
    ensures forall i, j :: 0 <= i < j < |trace| ==> trace[i] != trace[j]
  {
    hide *;
    trace, now := [], t;
    var treeStack: seq<Ref> := [];
    ghost var ts: seq<Tree> := if Pushable(f.heap, finished) then [t] else [];
    StartWork(lang, aux, f.heap, finished, others, t);
    if Pushable(f.heap, finished) { treeStack := [RefOf(finished)]; }
    KeepsTreesSelf(f.heap, others);
    BalancedSnoc(lang, f.heap, [], 0);
    CellsSnoc([], 0);
    while |treeStack| > 0
      invariant f.Valid() && f.heap.Keys == old(f.heap).Keys
      invariant Work(lang, aux, f.heap, finished, others, Cells(trace), treeStack, ts, t, now)
      invariant KeepsTrees(old(f.heap), f.heap, others)
      invariant f.heap == Balanced(lang, old(f.heap), trace)
      invariant Pushable(old(f.heap), finished) ==> RefOf(finished) in trace || RefOf(finished) in treeStack
      invariant forall i, j :: 0 <= i < j < |trace| ==> trace[i] != trace[j]
      decreases f.heap.Keys - Cells(trace)
    {
      var tree := treeStack[|treeStack| - 1];
      ghost var h, waiting := f.heap, treeStack;
      WorkMarked(lang, aux, f.heap, finished, others, Cells(trace), treeStack, ts, t, now);
      PushableStays(f.heap, finished, Cells(trace), treeStack);
      treeStack, ts, now := BalanceNode(f, lang, tree, treeStack, aux, finished, others, Cells(trace), ts, t, now);
      KeepsTreesTransitive(old(f.heap), h, f.heap, others);
      BalancedSnoc(lang, old(f.heap), trace, tree);
      ts := PopKeepsWork(lang, aux, f.heap, finished, others, Cells(trace), treeStack, ts, t, now);
      CellsSnoc(trace, tree);
      trace := trace + [tree];
      treeStack := PushUnshared(f.heap, tree, treeStack[..|treeStack| - 1]);
      assert waiting == waiting[..|waiting| - 1] + [tree];
    }
    WorkRoot(lang, aux, f.heap, finished, others, Cells(trace), treeStack, ts, t, now);
    WorkMarked(lang, aux, f.heap, finished, others, Cells(trace), treeStack, ts, t, now);
    VisitedAll(f.heap, finished, trace);
  }

  /** The children of a balanced node that have children of their own and no other holder. */
  method PushUnshared(h: Heap, tree: Ref, onto: seq<Ref>) returns (stack: seq<Ref>)
    requires tree in h
    ensures stack == onto + Pushed(h, h[tree].children)
  {
    stack := onto;
    var ss := h[tree].children;
    for i := 0 to |ss|
      invariant stack == onto + Pushed(h, ss[..i])
    {
      assert ss[..i + 1][..i] == ss[..i] && ss[..i + 1][i] == ss[i];
      if Pushable(h, ss[i]) { stack := stack + [ss[i].ref]; }
    }
    assert ss[..|ss|] == ss;
  }
}
