/** Tree.Edit in place (subtree_edit.go:19-104, tree.go:53-59): a work list of slots still
    to be edited, and copy-on-write for every cell somebody else also holds.

    The edited handle ends up denoting EditSpec.Edit of its tree, every other handle keeps
    the tree it had, and the reference counts are exact again. */
module SubtreeEdit {
  import opened Lengths
  import opened Trees
  import opened EditSpec
  import opened SubtreeStore
  import opened EditBytes

  /** Where a handle is stored: the edited tree's root variable, or a child slot. */
  datatype Slot = Root | Child(parent: Ref, index: nat)

  datatype Entry = Entry(slot: Slot, edit: EditSpan)

  predicate SlotIn(h: Heap, slot: Slot) {
    slot.Child? ==> slot.parent in h && slot.index < |h[slot.parent].children|
  }

  function Content(h: Heap, root: Subtree, slot: Slot): Subtree
    requires SlotIn(h, slot)
  {
    match slot
    case Root => root
    case Child(p, i) => h[p].children[i]
  }

  /** The fields read through a handle, as a tree without its children. */
  function Peek(h: Heap, s: Subtree): Tree
    requires s.Shared? ==> s.ref in h
  {
    match s
    case Packed(l) => Inline(l)
    case Shared(r) => Node(h[r].data, [])
  }

  lemma PeekAgrees(h: Heap, s: Subtree, t: Tree, e: EditSpan)
    requires Denotes(h, s, t)
    ensures s.Shared? ==> s.ref in h
    ensures var k := Peek(h, s);
            && k.Total() == t.Total() && k.Lookahead() == t.Lookahead() && k.DependsOnColumn() == t.DependsOnColumn()
            && Skips(k, e) == Skips(t, e) && Resized(k, e) == Resized(t, e) && ParentOf(k, e) == ParentOf(t, e)
  {
  }

  /** The work pushed for the children of cell r, from index i on. */
  function Entries(r: Ref, i: nat, es: seq<Option<EditSpan>>): seq<Entry>
    decreases |es|
  {
    if es == [] then []
    else (if es[0].Some? then [Entry(Child(r, i), es[0].value)] else []) + Entries(r, i + 1, es[1..])
  }

  lemma {:induction false} NoEntries(r: Ref, i: nat, es: seq<Option<EditSpan>>)
    requires forall k :: 0 <= k < |es| ==> es[k] == None
    ensures Entries(r, i, es) == []
    decreases |es|
  {
    if es != [] {
      NoEntries(r, i + 1, es[1..]);
    }
  }

  function Pending(r: Ref, i: nat, cs: seq<Tree>, first: bool, left: Length, e: EditSpan, p: Parent): seq<Entry> {
    Entries(r, i, ChildEdits(cs, first, left, e, p))
  }

  /** One round of the child loop, child by child. */
  lemma PendingStep(r: Ref, i: nat, cs: seq<Tree>, first: bool, left: Length, e: EditSpan, p: Parent)
    requires cs != []
    ensures var right, start := Add(left, cs[0].Total()), SaturatingSub(e.start, left);
            Pending(r, i, cs, first, left, e, p) ==
            if right.bytes + cs[0].Lookahead() < e.start.bytes then Pending(r, i + 1, cs[1..], false, right, e, p)
            else if StopsAt(cs[0], first, left, e, p) then []
            else if Absorbs(right, e, p) then
              [Entry(Child(r, i), EditSpan(start, SaturatingSub(e.oldEnd, left), SaturatingSub(e.newEnd, left)))]
              + Pending(r, i + 1, cs[1..], false, right, e.(newEnd := e.start), p)
            else
              [Entry(Child(r, i), EditSpan(start, start, start))] + Pending(r, i + 1, cs[1..], false, right, e, p)
  {
    var right := Add(left, cs[0].Total());
    var es := ChildEdits(cs, first, left, e, p);
    if right.bytes + cs[0].Lookahead() >= e.start.bytes && StopsAt(cs[0], first, left, e, p) {
      NoEntries(r, i, es);
    } else if right.bytes + cs[0].Lookahead() >= e.start.bytes && Absorbs(right, e, p) {
      assert es[1..] == ChildEdits(cs[1..], false, right, e.(newEnd := e.start), p);
    } else {
      assert es[1..] == ChildEdits(cs[1..], false, right, e, p);
    }
  }

  /** The child loop (subtree_edit.go:69-101) pushes exactly the edits ChildEdits assigns. */
  method PushChildren(h: Heap, r: Ref, e: EditSpan, parent: Parent, stack: seq<Entry>, ghost cs: seq<Tree>)
    returns (pushed: seq<Entry>)
    requires r in h && |h[r].children| == |cs|
    requires forall i :: 0 <= i < |cs| ==> Denotes(h, h[r].children[i], cs[i])
    ensures pushed == stack + Pending(r, 0, cs, true, ZERO, e, parent)
  {
    hide Pending, StopsAt;
    pushed := stack;
    var cur, right, i := e, ZERO, 0;
    ghost var all := Pending(r, 0, cs, true, ZERO, e, parent);
    assert cs[0..] == cs;
    while i < |h[r].children|
      invariant 0 <= i <= |cs|
      invariant stack + all == pushed + Pending(r, i, cs[i..], i == 0, right, cur, parent)
    {
      var left := right;
      PeekAgrees(h, h[r].children[i], cs[i], e);
      PeekStops(h, h[r].children[i], cs[i], i == 0, left, cur, parent);
      var child := Peek(h, h[r].children[i]);
      right := Add(left, child.Total());
      assert cs[i..][0] == cs[i] && cs[i..][1..] == cs[i + 1..];
      PendingStep(r, i, cs[i..], i == 0, left, cur, parent);
      if right.bytes + child.Lookahead() < cur.start.bytes {
        i := i + 1;
        continue;
      }
      if StopsAt(child, i == 0, left, cur, parent) {
        return;
      }
      var childEdit := EditSpan(SaturatingSub(cur.start, left), SaturatingSub(cur.oldEnd, left), SaturatingSub(cur.newEnd, left));
      if Absorbs(right, cur, parent) {
        cur := cur.(newEnd := cur.start);
      } else {
        childEdit := childEdit.(oldEnd := childEdit.start, newEnd := childEdit.start);
      }
      pushed := pushed + [Entry(Child(r, i), childEdit)];
      i := i + 1;
    }
    assert cs[i..] == [];
    PendingNone(r, i, i == 0, right, cur, parent);
  }

  lemma PendingNone(r: Ref, i: nat, first: bool, left: Length, e: EditSpan, p: Parent)
    ensures Pending(r, i, [], first, left, e, p) == []
  {
  }

  lemma PeekStops(h: Heap, s: Subtree, t: Tree, first: bool, left: Length, e: EditSpan, p: Parent)
    requires Denotes(h, s, t)
    ensures s.Shared? ==> s.ref in h
    ensures StopsAt(Peek(h, s), first, left, e, p) == StopsAt(t, first, left, e, p)
  {
  }

  // ---------------------------------------------------------------- counting handles

  /** Counts that are exact but for one handle: it still sits in its slot, although its
      holder has already given it up for the handle about to be written there. */
  ghost predicate Owed(h: Heap, held: multiset<Subtree>, lent: Subtree) {
    && (forall r :: r in h ==>
          h[r].refCount + (if lent == Shared(r) then 1 else 0) == (Slots(h, h.Keys) + held)[Shared(r)])
    && (forall s :: s in Slots(h, h.Keys) + held ==> s.Packed? || s.ref in h)
  }

  function WriteSlot(h: Heap, slot: Slot, m: Subtree): Heap
    requires SlotIn(h, slot)
  {
    match slot
    case Root => h
    case Child(p, i) => h[p := h[p].(children := h[p].children[i := m])]
  }

  function WriteRoot(root: Subtree, slot: Slot, m: Subtree): Subtree {
    if slot.Root? then m else root
  }

  lemma SlotsWrite(h: Heap, p: Ref, i: nat, m: Subtree)
    requires p in h && i < |h[p].children|
    ensures var h' := WriteSlot(h, Child(p, i), m);
            h'.Keys == h.Keys && Slots(h', h'.Keys) + multiset{h[p].children[i]} == Slots(h, h.Keys) + multiset{m}
  {
    var h', cs := WriteSlot(h, Child(p, i), m), h[p].children;
    assert h'.Keys == h.Keys;
    SlotsPick(h, h.Keys, p);
    SlotsPick(h', h.Keys, p);
    SlotsSame(h, h', h.Keys - {p});
    assert multiset(cs[i := m]) + multiset{cs[i]} == multiset(cs) + multiset{m};
  }

  lemma SwapCounts<T>(a: multiset<T>, a': multiset<T>, b: multiset<T>, gone: T, m: T, x: T)
    requires a' + multiset{gone} == a + multiset{m}
    ensures (a' + b)[x] + (if x == gone then 1 else 0) == (a + (b + multiset{m}))[x]
  {
    assert (a' + multiset{gone})[x] == (a + multiset{m})[x];
  }

  lemma WriteExact(h: Heap, others: multiset<Subtree>, root: Subtree, slot: Slot, m: Subtree)
    requires SlotIn(h, slot)
    requires Owed(h, others + multiset{root} + multiset{m}, Content(h, root, slot))
    ensures Exact(WriteSlot(h, slot, m), others + multiset{WriteRoot(root, slot, m)})
  {
    match slot
    case Root => assert others + multiset{root} + multiset{m} == others + multiset{m} + multiset{root};
    case Child(p, i) => WriteChildExact(h, others + multiset{root}, p, i, m);
  }

  lemma WriteChildExact(h: Heap, held: multiset<Subtree>, p: Ref, i: nat, m: Subtree)
    requires SlotIn(h, Child(p, i)) && Owed(h, held + multiset{m}, h[p].children[i])
    ensures Exact(WriteSlot(h, Child(p, i), m), held)
  {
    var h', gone := WriteSlot(h, Child(p, i), m), h[p].children[i];
    var old', new' := Slots(h, h.Keys), Slots(h', h'.Keys);
    SlotsWrite(h, p, i, m);
    forall r | r in h' ensures h'[r].refCount == (new' + held)[Shared(r)] {
      SwapCounts(old', new', held, gone, m, Shared(r));
    }
    forall x | x in new' + held ensures x.Packed? || x.ref in h' {
      SwapCounts(old', new', held, gone, m, x);
      assert x in old' + (held + multiset{m});
    }
  }

  /** What MakeMut and the resize make of the store and of the handle. */
  function Rewrite(h: Heap, s: Subtree, n: Ref, padding: Length, size: Length): (Heap, Subtree)
    requires s.Shared? ==> s.ref in h && h[s.ref].refCount > 0
  {
    match s
    case Packed(l) =>
      (match Rewritten(Inline(l), padding, size)
       case Inline(l') => (h, Packed(l'))
       case Node(d, _) => (h[n := Cell(1, d, [])], Shared(n)))
    case Shared(r) =>
      var d := h[r].data.(padding := padding, size := size, hasChanges := true);
      if h[r].refCount == 1 then (h[r := h[r].(data := d)], s)
      else (Cloned(h, r, n)[n := Cell(1, d, h[r].children)], Shared(n))
  }

  lemma AddCellSlots(h: Heap, h': Heap, n: Ref)
    requires n !in h && h'.Keys == h.Keys + {n} && forall k :: k in h ==> h'[k].children == h[k].children
    ensures Slots(h', h'.Keys) == Slots(h, h.Keys) + multiset(h'[n].children)
  {
    SlotsPick(h', h'.Keys, n);
    assert h'.Keys - {n} == h.Keys;
    SlotsSame(h, h', h.Keys);
  }

  ghost predicate RewriteFacts(h: Heap, held: multiset<Subtree>, s: Subtree, n: Ref, h': Heap, m: Subtree)
    requires s.Shared? ==> s.ref in h
  {
    && Owed(h', held + multiset{m}, s) && Live(h')
    && h.Keys <= h'.Keys <= h.Keys + {n} && (n in h' ==> m == Shared(n))
    && (m.Shared? ==> m.ref in h' && h'[m.ref].refCount == 1 && (m.ref == n || (m == s && h[m.ref].refCount == 1)))
    && (forall k :: k in h && m != Shared(k) ==> h'[k].data == h[k].data && h'[k].children == h[k].children)
    && (forall k :: k in h && s != Shared(k) && (s.Shared? ==> Shared(k) !in h[s.ref].children) ==>
          h'[k].refCount == h[k].refCount)
  }

  lemma SpillCounts(h: Heap, held: multiset<Subtree>, s: Subtree, n: Ref, d: NodeData)
    requires Exact(h, held) && n !in h && s.Packed?
    ensures Owed(h[n := Cell(1, d, [])], held + multiset{Shared(n)}, s)
  {
    AddCellSlots(h, h[n := Cell(1, d, [])], n);
  }

  lemma SpillOwed(h: Heap, held: multiset<Subtree>, s: Subtree, n: Ref, d: NodeData)
    requires Exact(h, held) && Live(h) && n !in h && s.Packed?
    ensures RewriteFacts(h, held, s, n, h[n := Cell(1, d, [])], Shared(n))
  {
    hide Owed;
    SpillCounts(h, held, s, n, d);
  }

  lemma InPlaceCounts(h: Heap, held: multiset<Subtree>, r: Ref, d: NodeData)
    requires Exact(h, held) && r in h
    ensures Owed(h[r := h[r].(data := d)], held + multiset{Shared(r)}, Shared(r))
  {
    var h' := h[r := h[r].(data := d)];
    assert h'.Keys == h.Keys;
    SlotsSame(h, h', h.Keys);
  }

  lemma InPlaceOwed(h: Heap, held: multiset<Subtree>, r: Ref, n: Ref, d: NodeData)
    requires Exact(h, held) && Live(h) && r in h && h[r].refCount == 1 && n !in h
    ensures RewriteFacts(h, held, Shared(r), n, h[r := h[r].(data := d)], Shared(r))
  {
    hide Owed;
    InPlaceCounts(h, held, r, d);
  }

  lemma ChildrenExist(h: Heap, held: multiset<Subtree>, r: Ref)
    requires Exact(h, held) && r in h
    ensures forall x :: x in multiset(h[r].children) ==> x.Packed? || x.ref in h
  {
    SlotsPick(h, h.Keys, r);
  }

  lemma CopyCounts(h: Heap, held: multiset<Subtree>, r: Ref, n: Ref, d: NodeData)
    requires Exact(h, held) && Live(h) && n !in h && r in h && h[r].refCount > 1
    ensures Owed(Cloned(h, r, n)[n := Cell(1, d, h[r].children)], held + multiset{Shared(n)}, Shared(r))
  {
    var h' := Cloned(h, r, n)[n := Cell(1, d, h[r].children)];
    ChildrenExist(h, held, r);
    AddCellSlots(h, h', n);
    var old', cs, x := Slots(h, h.Keys), multiset(h[r].children), Shared(n);
    assert h'.Keys == h.Keys + {n};
    assert x !in old' + held && x !in cs;
    forall k | k in h'
      ensures h'[k].refCount + (if Shared(r) == Shared(k) then 1 else 0)
           == (Slots(h', h'.Keys) + (held + multiset{x}))[Shared(k)]
    {
      if k != n {
        assert h'[k].refCount == h[k].refCount + cs[Shared(k)] - (if k == r then 1 else 0);
        assert h[k].refCount == old'[Shared(k)] + held[Shared(k)];
      }
    }
    forall y | y in Slots(h', h'.Keys) + (held + multiset{x}) ensures y.Packed? || y.ref in h' {
      assert y in old' + held || y in cs || y == x;
    }
  }

  lemma CopyOwed(h: Heap, held: multiset<Subtree>, r: Ref, n: Ref, d: NodeData)
    requires Exact(h, held) && Live(h) && n !in h && r in h && h[r].refCount > 1
    ensures RewriteFacts(h, held, Shared(r), n, Cloned(h, r, n)[n := Cell(1, d, h[r].children)], Shared(n))
  {
    hide Owed;
    CopyCounts(h, held, r, n, d);
  }

  lemma RewriteOwed(h: Heap, held: multiset<Subtree>, s: Subtree, n: Ref, padding: Length, size: Length)
    requires Exact(h, held) && Live(h) && n !in h
    requires s.Shared? ==> s.ref in h
    ensures var (h', m) := Rewrite(h, s, n, padding, size); RewriteFacts(h, held, s, n, h', m)
  {
    match s
    case Packed(l) =>
      var v := Rewritten(Inline(l), padding, size);
      if v.Node? {
        SpillOwed(h, held, s, n, v.data);
      }
    case Shared(r) =>
      var d := h[r].data.(padding := padding, size := size, hasChanges := true);
      if h[r].refCount == 1 {
        InPlaceOwed(h, held, r, n, d);
      } else {
        CopyOwed(h, held, r, n, d);
      }
  }

  /** A handle counted once sits in one place only. */
  lemma OnlySlot(h: Heap, others: multiset<Subtree>, root: Subtree, slot: Slot, r: Ref, other: Slot)
    requires Exact(h, others + multiset{root}) && SlotIn(h, slot) && SlotIn(h, other)
    requires Content(h, root, slot) == Shared(r) && r in h && h[r].refCount == 1
    ensures Shared(r) !in others
    ensures other != slot ==> Content(h, root, other) != Shared(r)
  {
    var x := Shared(r);
    var all := Slots(h, h.Keys) + (others + multiset{root});
    if slot.Child? {
      SlotCounted(h, slot.parent, slot.index);
    }
    if other != slot && Content(h, root, other) == x {
      if slot.Child? && other.Child? {
        TwoSlots(h, slot.parent, slot.index, other.parent, other.index);
      } else if slot.Root? {
        SlotCounted(h, other.parent, other.index);
      }
    }
  }

  // ---------------------------------------------------------------- the work list's meaning

  /** Cells the edit owns: nothing outside the edited tree names them. */
  ghost predicate Isolated(h: Heap, owned: set<Ref>, others: multiset<Subtree>) {
    && owned <= h.Keys
    && (forall r :: r in owned ==> h[r].refCount == 1)
    && (forall k, i :: k in h && k !in owned && 0 <= i < |h[k].children| ==>
          h[k].children[i].Packed? || h[k].children[i].ref !in owned)
    && (forall x :: x in others ==> x.Packed? || x.ref !in owned)
  }

  /** Once every pending slot holds its target, the handle s in `slot` will denote t. */
  ghost predicate Finishing(h: Heap, slot: Slot, s: Subtree, t: Tree, pend: map<Slot, Tree>)
    decreases t
  {
    if slot in pend then t == pend[slot] else
    match t
    case Inline(l) => s == Packed(l)
    case Node(d, cs) =>
      && s.Shared? && s.ref in h && h[s.ref].data == d && |h[s.ref].children| == |cs|
      && forall i :: 0 <= i < |cs| ==> Finishing(h, Child(s.ref, i), h[s.ref].children[i], cs[i], pend)
  }

  /** A handle below which nothing is pending is finished already. */
  lemma {:induction false} DenotesFinishing(h: Heap, owned: set<Ref>, others: multiset<Subtree>,
                                           slot: Slot, s: Subtree, t: Tree, pend: map<Slot, Tree>)
    requires Denotes(h, s, t) && Isolated(h, owned, others) && (s.Packed? || s.ref !in owned)
    requires slot !in pend && forall x :: x in pend ==> x.Root? || x.parent in owned
    ensures Finishing(h, slot, s, t, pend)
    decreases t
  {
    match t
    case Inline(_) =>
    case Node(_, cs) =>
      forall i | 0 <= i < |cs| ensures Finishing(h, Child(s.ref, i), h[s.ref].children[i], cs[i], pend) {
        DenotesFinishing(h, owned, others, Child(s.ref, i), h[s.ref].children[i], cs[i], pend);
      }
  }

  lemma {:induction false} FinishedDenotes(h: Heap, slot: Slot, s: Subtree, t: Tree)
    requires Finishing(h, slot, s, t, map[])
    ensures Denotes(h, s, t)
    decreases t
  {
    match t
    case Inline(_) =>
    case Node(_, cs) =>
      forall i | 0 <= i < |cs| ensures Denotes(h, h[s.ref].children[i], cs[i]) {
        FinishedDenotes(h, Child(s.ref, i), h[s.ref].children[i], cs[i]);
      }
  }

  /** Everything but the popped slot and the node now written there stays as it was. */
  ghost predicate OnlyChanges(h: Heap, h': Heap, popped: Slot, m: Subtree, made: set<Ref>) {
    && (popped.Child? ==> SlotIn(h', popped) && h'[popped.parent].children[popped.index] == m)
    && (forall k :: k in h && k !in made ==>
          k in h' && h'[k].data == h[k].data && |h'[k].children| == |h[k].children|)
    && (forall k, i :: k in h && k !in made && 0 <= i < |h[k].children| && Child(k, i) != popped ==>
          h'[k].children[i] == h[k].children[i])
    && (forall k, i :: k in h && 0 <= i < |h[k].children| && Child(k, i) != popped ==>
          h[k].children[i].Packed? || h[k].children[i].ref !in made)
  }

  /** Pending targets elsewhere are kept, and the new ones lie below the node just written. */
  predicate PendMoves(pend: map<Slot, Tree>, pend': map<Slot, Tree>, popped: Slot, made: set<Ref>) {
    && popped in pend && popped !in pend'
    && (forall x :: x in pend && x != popped ==> x in pend' && pend'[x] == pend[x])
    && (forall x :: x in pend' && x !in pend ==> x.Child? && x.parent in made)
  }

  lemma {:induction false} FinishingMoves(h: Heap, h': Heap, popped: Slot, m: Subtree, made: set<Ref>,
                                         slot: Slot, s: Subtree, t: Tree, pend: map<Slot, Tree>, pend': map<Slot, Tree>)
    requires Finishing(h, slot, s, t, pend)
    requires OnlyChanges(h, h', popped, m, made) && PendMoves(pend, pend', popped, made)
    requires Finishing(h', popped, m, pend[popped], pend')
    requires slot.Child? ==> slot.parent !in made
    requires slot != popped ==> s.Packed? || s.ref !in made
    ensures Finishing(h', slot, if slot == popped then m else s, t, pend')
    decreases t
  {
    if slot != popped && slot !in pend && t.Node? {
      var h1, h2 := h[s.ref].children, h'[s.ref].children;
      forall i | 0 <= i < |t.children| ensures Finishing(h', Child(s.ref, i), h2[i], t.children[i], pend') {
        FinishingMoves(h, h', popped, m, made, Child(s.ref, i), h1[i], t.children[i], pend, pend');
      }
    }
  }

  /** A stack entry whose slot belongs to the edit, over a tree the edit has not touched. */
  ghost predicate Ready(h: Heap, root: Subtree, owned: set<Ref>, entry: Entry, t: Tree) {
    && SlotIn(h, entry.slot) && (entry.slot.Child? ==> entry.slot.parent in owned)
    && (Content(h, root, entry.slot).Shared? ==> Content(h, root, entry.slot).ref !in owned)
    && Denotes(h, Content(h, root, entry.slot), t)
  }

  ghost predicate Targets(stack: seq<Entry>, trees: seq<Tree>, pend: map<Slot, Tree>) {
    && |trees| == |stack|
    && (forall k :: 0 <= k < |stack| ==>
          stack[k].slot in pend && pend[stack[k].slot] == Edit(trees[k], stack[k].edit))
    && (forall j, k :: 0 <= j < k < |stack| ==> stack[j].slot != stack[k].slot)
    && (forall x :: x in pend ==> exists k :: 0 <= k < |stack| && stack[k].slot == x)
  }

  /** The loop invariant of the edit. */
  ghost predicate Frontier(h: Heap, root: Subtree, others: multiset<Subtree>, stack: seq<Entry>, trees: seq<Tree>,
                           pend: map<Slot, Tree>, owned: set<Ref>, target: Tree) {
    && Exact(h, others + multiset{root}) && Live(h) && Isolated(h, owned, others)
    && |trees| == |stack| && Targets(stack, trees, pend)
    && (forall k :: 0 <= k < |stack| ==> Ready(h, root, owned, stack[k], trees[k]))
    && Finishing(h, Root, root, target, pend)
  }

  lemma TargetsPop(stack: seq<Entry>, trees: seq<Tree>, pend: map<Slot, Tree>)
    requires Targets(stack, trees, pend) && stack != []
    ensures Targets(stack[..|stack| - 1], trees[..|stack| - 1], pend - {stack[|stack| - 1].slot})
    ensures stack[|stack| - 1].slot in pend
    ensures pend[stack[|stack| - 1].slot] == Edit(trees[|stack| - 1], stack[|stack| - 1].edit)
  {
    hide Edit;
    var last := |stack| - 1;
    forall x | x in pend - {stack[last].slot} ensures exists k :: 0 <= k < |stack[..last]| && stack[..last][k].slot == x {
      var k :| 0 <= k < |stack| && stack[k].slot == x;
      assert stack[..last][k].slot == x;
    }
  }

  /** Popping an entry the edit skips: its slot already holds its target. */
  lemma PopSkipped(h: Heap, root: Subtree, others: multiset<Subtree>, stack: seq<Entry>, trees: seq<Tree>,
                   pend: map<Slot, Tree>, owned: set<Ref>, target: Tree)
    requires Frontier(h, root, others, stack, trees, pend, owned, target) && stack != []
    requires Skips(trees[|stack| - 1], stack[|stack| - 1].edit)
    ensures Frontier(h, root, others, stack[..|stack| - 1], trees[..|stack| - 1],
                     pend - {stack[|stack| - 1].slot}, owned, target)
  {
    hide Edit, Exact, Live, Finishing, Denotes;
    var entry, t := stack[|stack| - 1], trees[|stack| - 1];
    var s, pend' := Content(h, root, entry.slot), pend - {entry.slot};
    SkippedEdit(t, entry.edit);
    TargetsPop(stack, trees, pend);
    PendingOwned(h, root, owned, stack, trees, pend);
    DenotesFinishing(h, owned, others, entry.slot, s, t, pend');
    NothingChanges(h, root, entry.slot);
    FinishingMoves(h, h, entry.slot, s, {}, Root, root, target, pend, pend');
  }

  lemma SkippedEdit(t: Tree, e: EditSpan)
    requires Skips(t, e)
    ensures Edit(t, e) == t
  {
  }

  lemma NothingChanges(h: Heap, root: Subtree, slot: Slot)
    requires SlotIn(h, slot)
    ensures OnlyChanges(h, h, slot, Content(h, root, slot), {})
  {
  }

  lemma PendingOwned(h: Heap, root: Subtree, owned: set<Ref>, stack: seq<Entry>, trees: seq<Tree>, pend: map<Slot, Tree>)
    requires Targets(stack, trees, pend)
    requires forall k :: 0 <= k < |stack| ==> Ready(h, root, owned, stack[k], trees[k])
    ensures forall x :: x in pend ==> x.Root? || x.parent in owned
  {
    hide Edit;
  }

  // ---------------------------------------------------------------- what a visit pushes

  /** The indices of the children that receive an edit. */
  function Marked(i: nat, es: seq<Option<EditSpan>>): seq<nat>
    decreases |es|
  {
    if es == [] then [] else (if es[0].Some? then [i] else []) + Marked(i + 1, es[1..])
  }

  predicate EntryFor(r: Ref, i: nat, es: seq<Option<EditSpan>>, j: nat, entry: Entry) {
    i <= j < i + |es| && es[j - i].Some? && entry == Entry(Child(r, j), es[j - i].value)
  }

  lemma {:induction false} MarkedEntries(r: Ref, i: nat, es: seq<Option<EditSpan>>)
    ensures |Entries(r, i, es)| == |Marked(i, es)|
    ensures forall k :: 0 <= k < |Marked(i, es)| ==> EntryFor(r, i, es, Marked(i, es)[k], Entries(r, i, es)[k])
    decreases |es|
  {
    if es != [] {
      MarkedEntries(r, i + 1, es[1..]);
      var head := if es[0].Some? then 1 else 0;
      forall k | 0 <= k < |Marked(i, es)| ensures EntryFor(r, i, es, Marked(i, es)[k], Entries(r, i, es)[k]) {
        if k >= head {
          assert EntryFor(r, i + 1, es[1..], Marked(i + 1, es[1..])[k - head], Entries(r, i + 1, es[1..])[k - head]);
        }
      }
    }
  }

  lemma {:induction false} MarkedIncreasing(i: nat, es: seq<Option<EditSpan>>)
    ensures forall k :: 0 <= k < |Marked(i, es)| ==> i <= Marked(i, es)[k] < i + |es|
    ensures forall j, k :: 0 <= j < k < |Marked(i, es)| ==> Marked(i, es)[j] < Marked(i, es)[k]
    decreases |es|
  {
    if es != [] {
      MarkedIncreasing(i + 1, es[1..]);
    }
  }

  lemma {:induction false} MarkedComplete(i: nat, es: seq<Option<EditSpan>>, j: nat)
    requires j < |es| && es[j].Some?
    ensures i + j in Marked(i, es)
    decreases |es|
  {
    if j > 0 {
      MarkedComplete(i + 1, es[1..], j - 1);
    }
  }

  // ---------------------------------------------------------------- one visit

  function Made(m: Subtree): set<Ref> {
    if m.Shared? then {m.ref} else {}
  }

  /** One visit: from h, the handle s in an owned slot is made exclusive and rewritten
      (h1, using the free reference n), and the result m is stored back (h2). */
  datatype Visit = Visit(h: Heap, root: Subtree, others: multiset<Subtree>, owned: set<Ref>,
                         slot: Slot, s: Subtree, n: Ref, h1: Heap, m: Subtree, h2: Heap)
  {
    ghost predicate Wrote() {
      && Exact(h, others + multiset{root}) && Live(h) && Isolated(h, owned, others) && n !in h
      && SlotIn(h, slot) && Content(h, root, slot) == s && (s.Shared? ==> s.ref in h && s.ref !in owned)
      && (slot.Child? ==> slot.parent in owned)
      && RewriteFacts(h, others + multiset{root}, s, n, h1, m)
      && SlotIn(h1, slot) && h2 == WriteSlot(h1, slot, m)
    }

    ghost function Owned(): set<Ref> { owned + Made(m) }
  }

  lemma AbsentUnnamed(h: Heap, others: multiset<Subtree>, root: Subtree, n: Ref)
    requires Exact(h, others + multiset{root}) && n !in h
    ensures Shared(n) !in others && root != Shared(n)
    ensures forall k, i :: k in h && 0 <= i < |h[k].children| ==> h[k].children[i] != Shared(n)
  {
    assert Shared(n) !in Slots(h, h.Keys) + (others + multiset{root});
    forall k, i | k in h && 0 <= i < |h[k].children| ensures h[k].children[i] != Shared(n) {
      SlotCounted(h, k, i);
    }
  }

  /** The node written is not named from anywhere else. */
  lemma MadeUnnamed(v: Visit)
    requires v.Wrote() && v.m.Shared?
    ensures v.m !in v.others && v.m.ref !in v.owned && (v.slot != Root ==> v.root != v.m)
    ensures forall k, i :: k in v.h && 0 <= i < |v.h[k].children| && Child(k, i) != v.slot ==>
              v.h[k].children[i] != v.m
  {
    hide Owed, Exact;
    if v.m.ref == v.n {
      AbsentUnnamed(v.h, v.others, v.root, v.n);
    } else {
      OnlySlot(v.h, v.others, v.root, v.slot, v.m.ref, Root);
      forall k, i | k in v.h && 0 <= i < |v.h[k].children| && Child(k, i) != v.slot
        ensures v.h[k].children[i] != v.m
      {
        OnlySlot(v.h, v.others, v.root, v.slot, v.m.ref, Child(k, i));
      }
    }
  }

  lemma WroteOnlyChanges(v: Visit)
    requires v.Wrote()
    ensures OnlyChanges(v.h, v.h2, v.slot, v.m, Made(v.m))
  {
    hide Owed, Exact, Isolated, Live;
    if v.m.Shared? {
      MadeUnnamed(v);
    }
  }

  lemma WroteIsolated(v: Visit)
    requires v.Wrote()
    ensures Isolated(v.h2, v.Owned(), v.others)
  {
    hide Owed, Exact, Live;
    WroteOnlyChanges(v);
    WroteSingle(v);
    if v.m.Shared? {
      MadeUnnamed(v);
    }
  }

  lemma WroteExact(v: Visit)
    requires v.Wrote()
    ensures Exact(v.h2, v.others + multiset{WriteRoot(v.root, v.slot, v.m)}) && Live(v.h2)
  {
    hide Owed, Exact, Isolated;
    assert Content(v.h1, v.root, v.slot) == v.s;
    WriteExact(v.h1, v.others, v.root, v.slot, v.m);
  }

  lemma WroteSingle(v: Visit)
    requires v.Wrote()
    ensures forall r :: r in v.Owned() ==> r in v.h2 && v.h2[r].refCount == 1
  {
    hide Owed, Exact;
    forall r | r in v.owned ensures r in v.h2 && v.h2[r].refCount == 1 {
      if v.s.Shared? {
        forall x | x in v.h[v.s.ref].children ensures x != Shared(r) {
          var i :| 0 <= i < |v.h[v.s.ref].children| && v.h[v.s.ref].children[i] == x;
        }
      }
    }
  }

  /** Trees below handles the edit does not own keep their value. */
  lemma WroteKeeps(v: Visit, x: Subtree, t: Tree)
    requires v.Wrote()
    requires Denotes(v.h, x, t) && x != v.m && (x.Packed? || x.ref !in v.owned)
    ensures Denotes(v.h2, x, t)
  {
    hide Owed, Exact, Live, RewriteFacts, Denotes, OnlyChanges;
    WroteOnlyChanges(v);
    UnownedStay(v);
    DenotesOutside(v.h, v.h2, v.Owned(), x, t);
  }

  lemma UnownedStay(v: Visit)
    requires v.Wrote()
    ensures forall k :: k in v.h && k !in v.Owned() ==>
              k in v.h2 && v.h2[k].data == v.h[k].data && v.h2[k].children == v.h[k].children
    ensures forall k, i :: k in v.h && k !in v.Owned() && 0 <= i < |v.h[k].children| ==>
              v.h[k].children[i].Packed? || v.h[k].children[i].ref !in v.Owned()
  {
    hide Owed, Exact, Live;
    WroteOnlyChanges(v);
  }

  lemma WroteContent(v: Visit, other: Slot)
    requires v.Wrote() && other != v.slot && SlotIn(v.h, other) && (other.Child? ==> other.parent in v.owned)
    ensures SlotIn(v.h2, other)
    ensures Content(v.h2, WriteRoot(v.root, v.slot, v.m), other) == Content(v.h, v.root, other)
    ensures Content(v.h, v.root, other) != v.m || v.m.Packed?
  {
    hide Owed, Exact, Isolated, Live, RewriteFacts;
    WroteOnlyChanges(v);
    if v.m.Shared? {
      MadeUnnamed(v);
    }
  }

  /** The entries already on the stack stay ready. */
  lemma WroteKeepsReady(v: Visit, entry: Entry, t: Tree)
    requires v.Wrote() && entry.slot != v.slot && Ready(v.h, v.root, v.owned, entry, t)
    ensures Ready(v.h2, WriteRoot(v.root, v.slot, v.m), v.Owned(), entry, t)
  {
    hide v.Wrote;
    var x := Content(v.h, v.root, entry.slot);
    WroteContent(v, entry.slot);
    if x.Packed? {
      assert Denotes(v.h2, x, t);
    } else {
      WroteKeeps(v, x, t);
    }
  }

  /** The children of a node just made exclusive are ready to be edited. */
  lemma WroteChildReady(v: Visit, i: nat, e: EditSpan, t: Tree)
    requires v.Wrote() && v.s.Shared? && v.m.Shared? && v.m.ref in v.h2
    requires v.h2[v.m.ref].children == v.h[v.s.ref].children && i < |v.h[v.s.ref].children|
    requires Denotes(v.h, v.h[v.s.ref].children[i], t)
    ensures Ready(v.h2, WriteRoot(v.root, v.slot, v.m), v.Owned(), Entry(Child(v.m.ref, i), e), t)
  {
    hide Owed, Exact, Live, RewriteFacts, Denotes;
    var x := v.h[v.s.ref].children[i];
    MadeUnnamed(v);
    assert x != v.m && (x.Packed? || x.ref !in v.owned);
    WroteKeeps(v, x, t);
  }

  // ---------------------------------------------------------------- the frontier after a visit

  function NewTargets(r: Ref, es: seq<Option<EditSpan>>, cs: seq<Tree>): map<Slot, Tree>
    requires |es| == |cs|
  {
    map k: nat | k < |es| && es[k].Some? :: Child(r, k) := Edit(cs[k], es[k].value)
  }

  function NewTrees(es: seq<Option<EditSpan>>, cs: seq<Tree>): seq<Tree>
    requires |es| == |cs|
  {
    if es == [] then [] else (if es[0].Some? then [cs[0]] else []) + NewTrees(es[1..], cs[1..])
  }

  lemma {:induction false} NewTreesMarked(i: nat, es: seq<Option<EditSpan>>, cs: seq<Tree>)
    requires |es| == |cs|
    ensures |NewTrees(es, cs)| == |Marked(i, es)|
    ensures forall k :: 0 <= k < |Marked(i, es)| ==> TreeFor(i, cs, Marked(i, es)[k], NewTrees(es, cs)[k])
    decreases |es|
  {
    if es != [] {
      NewTreesMarked(i + 1, es[1..], cs[1..]);
      var head := if es[0].Some? then 1 else 0;
      forall k | 0 <= k < |Marked(i, es)| ensures TreeFor(i, cs, Marked(i, es)[k], NewTrees(es, cs)[k]) {
        if k >= head {
          assert TreeFor(i + 1, cs[1..], Marked(i + 1, es[1..])[k - head], NewTrees(es[1..], cs[1..])[k - head]);
        }
      }
    }
  }

  predicate TreeFor(i: nat, cs: seq<Tree>, j: nat, t: Tree) {
    i <= j < i + |cs| && t == cs[j - i]
  }

  lemma NewTargetsMatch(r: Ref, es: seq<Option<EditSpan>>, cs: seq<Tree>)
    requires |es| == |cs|
    ensures Targets(Entries(r, 0, es), NewTrees(es, cs), NewTargets(r, es, cs))
  {
    hide Edit;
    MarkedEntries(r, 0, es);
    MarkedIncreasing(0, es);
    NewTreesMarked(0, es, cs);
    var pushed, idx := Entries(r, 0, es), Marked(0, es);
    forall k | 0 <= k < |pushed| ensures pushed[k] == Entry(Child(r, idx[k]), es[idx[k]].value) && es[idx[k]].Some? {
      assert EntryFor(r, 0, es, idx[k], pushed[k]);
    }
    forall k | 0 <= k < |pushed| ensures NewTrees(es, cs)[k] == cs[idx[k]] {
      assert TreeFor(0, cs, idx[k], NewTrees(es, cs)[k]);
    }
    forall x | x in NewTargets(r, es, cs) ensures exists k :: 0 <= k < |pushed| && pushed[k].slot == x {
      MarkedComplete(0, es, x.index);
      var k :| 0 <= k < |idx| && idx[k] == x.index;
      assert pushed[k].slot == x;
    }
  }

  lemma TargetsAppend(a: seq<Entry>, ta: seq<Tree>, pa: map<Slot, Tree>, b: seq<Entry>, tb: seq<Tree>, pb: map<Slot, Tree>)
    requires Targets(a, ta, pa) && Targets(b, tb, pb) && pa.Keys !! pb.Keys
    ensures Targets(a + b, ta + tb, pa + pb)
  {
    hide Edit;
    forall k | 0 <= k < |a + b|
      ensures (a + b)[k].slot in pa + pb && (pa + pb)[(a + b)[k].slot] == Edit((ta + tb)[k], (a + b)[k].edit)
    {
      if k < |a| {
        assert a[k].slot in pa && a[k].slot !in pb;
      } else {
        assert b[k - |a|].slot in pb;
      }
    }
    forall j, k | 0 <= j < k < |a + b| ensures (a + b)[j].slot != (a + b)[k].slot {
      if j < |a| <= k {
        assert a[j].slot in pa && b[k - |a|].slot in pb;
      }
    }
    TargetsCovered(a, ta, pa, b, tb, pb);
  }

  lemma TargetsCovered(a: seq<Entry>, ta: seq<Tree>, pa: map<Slot, Tree>, b: seq<Entry>, tb: seq<Tree>, pb: map<Slot, Tree>)
    requires Targets(a, ta, pa) && Targets(b, tb, pb)
    ensures forall x :: x in pa + pb ==> exists k :: 0 <= k < |a + b| && (a + b)[k].slot == x
  {
    hide Edit;
    forall x | x in pa + pb ensures exists k :: 0 <= k < |a + b| && (a + b)[k].slot == x {
      if x in pb {
        var k :| 0 <= k < |b| && b[k].slot == x;
        assert (a + b)[|a| + k].slot == x;
      } else {
        var k :| 0 <= k < |a| && a[k].slot == x;
        assert (a + b)[k].slot == x;
      }
    }
  }

  /** The node just written, once its marked children are done, is the edited node. */
  lemma VisitedFinishing(v: Visit, d: NodeData, cs: seq<Tree>, es: seq<Option<EditSpan>>, pend: map<Slot, Tree>)
    requires v.Wrote() && v.s.Shared? && v.m.Shared? && v.m.ref in v.h2
    requires |es| == |cs| == |v.h[v.s.ref].children|
    requires v.h2[v.m.ref].data == d && v.h2[v.m.ref].children == v.h[v.s.ref].children
    requires forall i :: 0 <= i < |cs| ==> Denotes(v.h, v.h[v.s.ref].children[i], cs[i])
    requires v.slot !in pend && forall x :: x in pend ==> x.Root? || x.parent in v.Owned()
    requires forall i :: 0 <= i < |cs| ==> (Child(v.m.ref, i) in pend <==> es[i].Some?)
    requires forall i :: 0 <= i < |cs| && es[i].Some? ==> pend[Child(v.m.ref, i)] == Edit(cs[i], es[i].value)
    ensures Finishing(v.h2, v.slot, v.m, Node(d, EditAll(cs, es)), pend)
  {
    WroteIsolated(v);
    var hs := v.h2[v.m.ref].children;
    forall i | 0 <= i < |cs| ensures Finishing(v.h2, Child(v.m.ref, i), hs[i], EditAll(cs, es)[i], pend) {
      EditAllAt(cs, es, i);
      if es[i].None? {
        WroteChildReady(v, i, EditSpan(ZERO, ZERO, ZERO), cs[i]);
        DenotesFinishing(v.h2, v.Owned(), v.others, Child(v.m.ref, i), hs[i], cs[i], pend);
      }
    }
  }

  /** The rest of the stack after a visit, before the children are pushed. */
  lemma RestReady(v: Visit, stack: seq<Entry>, trees: seq<Tree>, pend: map<Slot, Tree>)
    requires v.Wrote() && Targets(stack, trees, pend) && stack != [] && stack[|stack| - 1].slot == v.slot
    requires forall k :: 0 <= k < |stack| ==> Ready(v.h, v.root, v.owned, stack[k], trees[k])
    ensures forall k :: 0 <= k < |stack| - 1 ==> Ready(v.h2, WriteRoot(v.root, v.slot, v.m), v.Owned(), stack[k], trees[k])
    ensures Targets(stack[..|stack| - 1], trees[..|stack| - 1], pend - {v.slot})
    ensures v.slot in pend && forall x :: x in pend ==> x.Root? || x.parent in v.owned
  {
    hide v.Wrote, Edit, Ready;
    TargetsPop(stack, trees, pend);
    PendingOwned(v.h, v.root, v.owned, stack, trees, pend);
    forall k | 0 <= k < |stack| - 1
      ensures Ready(v.h2, WriteRoot(v.root, v.slot, v.m), v.Owned(), stack[k], trees[k])
    {
      WroteKeepsReady(v, stack[k], trees[k]);
    }
  }

  lemma VisitedLeaf(v: Visit, stack: seq<Entry>, trees: seq<Tree>, pend: map<Slot, Tree>, target: Tree)
    requires v.Wrote() && stack != [] && stack[|stack| - 1].slot == v.slot
    requires Frontier(v.h, v.root, v.others, stack, trees, pend, v.owned, target)
    requires Denotes(v.h2, v.m, Edit(trees[|stack| - 1], stack[|stack| - 1].edit))
    requires Edit(trees[|stack| - 1], stack[|stack| - 1].edit).Children() == []
    ensures Frontier(v.h2, WriteRoot(v.root, v.slot, v.m), v.others, stack[..|stack| - 1], trees[..|stack| - 1],
                     pend - {v.slot}, v.Owned(), target)
  {
    hide Exact, Live, Isolated, Targets, Ready, Finishing, OnlyChanges, v.Wrote, Edit, Denotes;
    RestReady(v, stack, trees, pend);
    TargetsPop(stack, trees, pend);
    WroteExact(v);
    WroteIsolated(v);
    WroteOnlyChanges(v);
    LeafFinishing(v.h2, v.slot, v.m, pend[v.slot], pend - {v.slot});
    VisitedMoves(v, target, pend, pend - {v.slot});
  }

  lemma LeafFinishing(h: Heap, slot: Slot, s: Subtree, t: Tree, pend: map<Slot, Tree>)
    requires Denotes(h, s, t) && t.Children() == [] && slot !in pend
    ensures Finishing(h, slot, s, t, pend)
  {
  }

  lemma VisitedMoves(v: Visit, target: Tree, pend: map<Slot, Tree>, pend': map<Slot, Tree>)
    requires v.Wrote() && OnlyChanges(v.h, v.h2, v.slot, v.m, Made(v.m)) && Finishing(v.h, Root, v.root, target, pend)
    requires PendMoves(pend, pend', v.slot, Made(v.m)) && Finishing(v.h2, v.slot, v.m, pend[v.slot], pend')
    ensures Finishing(v.h2, Root, WriteRoot(v.root, v.slot, v.m), target, pend')
  {
    if v.m.Shared? {
      MadeUnnamed(v);
    }
    hide v.Wrote;
    FinishingMoves(v.h, v.h2, v.slot, v.m, Made(v.m), Root, v.root, target, pend, pend');
  }

  lemma VisitedNode(v: Visit, stack: seq<Entry>, trees: seq<Tree>, pend: map<Slot, Tree>, target: Tree,
                    d: NodeData, es: seq<Option<EditSpan>>)
    requires v.Wrote() && stack != [] && stack[|stack| - 1].slot == v.slot && v.s.Shared? && v.m.Shared?
    requires Frontier(v.h, v.root, v.others, stack, trees, pend, v.owned, target)
    requires |es| == |trees[|stack| - 1].Children()|
    requires Edit(trees[|stack| - 1], stack[|stack| - 1].edit) == Node(d, EditAll(trees[|stack| - 1].Children(), es))
    requires v.m.ref in v.h2 && v.h2[v.m.ref].data == d && v.h2[v.m.ref].children == v.h[v.s.ref].children
    ensures |Entries(v.m.ref, 0, es)| == |NewTrees(es, trees[|stack| - 1].Children())|
    ensures Frontier(v.h2, WriteRoot(v.root, v.slot, v.m), v.others,
                     stack[..|stack| - 1] + Entries(v.m.ref, 0, es),
                     trees[..|stack| - 1] + NewTrees(es, trees[|stack| - 1].Children()),
                     (pend - {v.slot}) + NewTargets(v.m.ref, es, trees[|stack| - 1].Children()), v.Owned(), target)
  {
    hide Exact, Live, Isolated, Targets, Ready, Finishing, OnlyChanges, v.Wrote, Edit, EditAll, Denotes, Entries, NewTrees;
    var last, r := |stack| - 1, v.m.ref;
    var cs, pushed := trees[last].Children(), Entries(r, 0, es);
    var news := NewTargets(r, es, cs);
    var pend' := (pend - {v.slot}) + news;
    VisitedNodeChildren(v, stack[last], trees[last], cs);
    RestReady(v, stack, trees, pend);
    TargetsPop(stack, trees, pend);
    MadeUnnamed(v);
    NewTargetsMatch(r, es, cs);
    TargetsAppend(stack[..last], trees[..last], pend - {v.slot}, pushed, NewTrees(es, cs), news);
    PushedReady(v, es, cs);
    WroteExact(v);
    WroteIsolated(v);
    WroteOnlyChanges(v);
    VisitedFinishing(v, d, cs, es, pend');
    VisitedMoves(v, target, pend, pend');
  }

  lemma VisitedNodeChildren(v: Visit, entry: Entry, t: Tree, cs: seq<Tree>)
    requires v.Wrote() && v.s.Shared? && cs == t.Children() && entry.slot == v.slot
    requires Ready(v.h, v.root, v.owned, entry, t)
    ensures v.s.ref in v.h && |v.h[v.s.ref].children| == |cs|
    ensures forall i :: 0 <= i < |cs| ==> Denotes(v.h, v.h[v.s.ref].children[i], cs[i])
  {
  }

  lemma PushedReady(v: Visit, es: seq<Option<EditSpan>>, cs: seq<Tree>)
    requires v.Wrote() && v.s.Shared? && v.m.Shared? && v.m.ref in v.h2 && |es| == |cs| == |v.h[v.s.ref].children|
    requires v.h2[v.m.ref].children == v.h[v.s.ref].children
    requires forall i :: 0 <= i < |cs| ==> Denotes(v.h, v.h[v.s.ref].children[i], cs[i])
    ensures var pushed := Entries(v.m.ref, 0, es);
            |pushed| == |NewTrees(es, cs)| && forall k :: 0 <= k < |pushed| ==>
              Ready(v.h2, WriteRoot(v.root, v.slot, v.m), v.Owned(), pushed[k], NewTrees(es, cs)[k])
  {
    var r, pushed := v.m.ref, Entries(v.m.ref, 0, es);
    MarkedEntries(r, 0, es);
    NewTreesMarked(0, es, cs);
    forall k | 0 <= k < |pushed|
      ensures Ready(v.h2, WriteRoot(v.root, v.slot, v.m), v.Owned(), pushed[k], NewTrees(es, cs)[k])
    {
      var j := Marked(0, es)[k];
      assert EntryFor(r, 0, es, j, pushed[k]) && TreeFor(0, cs, j, NewTrees(es, cs)[k]);
      WroteChildReady(v, j, es[j].value, cs[j]);
    }
  }

  // ---------------------------------------------------------------- the edit

  function Weight(cs: seq<Tree>): nat {
    if cs == [] then 0
    else (match cs[0] case Inline(_) => 1 case Node(_, ds) => 1 + Weight(ds)) + Weight(cs[1..])
  }

  lemma {:induction false} WeightAppend(a: seq<Tree>, b: seq<Tree>)
    ensures Weight(a + b) == Weight(a) + Weight(b)
    decreases |a|
  {
    if a == [] {
      assert a + b == b;
    } else {
      assert (a + b)[1..] == a[1..] + b;
      WeightAppend(a[1..], b);
    }
  }

  lemma {:induction false} WeightNewTrees(es: seq<Option<EditSpan>>, cs: seq<Tree>)
    requires |es| == |cs|
    ensures Weight(NewTrees(es, cs)) <= Weight(cs)
    decreases |es|
  {
    if es != [] {
      var rest := NewTrees(es[1..], cs[1..]);
      WeightNewTrees(es[1..], cs[1..]);
      assert NewTrees(es, cs) == if es[0].Some? then [cs[0]] + rest else rest;
      hide NewTrees;
      WeightAppend([cs[0]], rest);
      WeightAppend([cs[0]], cs[1..]);
      assert cs == [cs[0]] + cs[1..];
    }
  }

  lemma WeightPop(trees: seq<Tree>, pushed: seq<Tree>)
    requires trees != [] && Weight(pushed) <= Weight(trees[|trees| - 1].Children())
    ensures Weight(trees[..|trees| - 1] + pushed) < Weight(trees)
  {
    var last := trees[|trees| - 1];
    assert trees == trees[..|trees| - 1] + [last];
    WeightAppend(trees[..|trees| - 1], [last]);
    WeightAppend(trees[..|trees| - 1], pushed);
  }

  lemma WeightDrop(trees: seq<Tree>)
    requires trees != []
    ensures Weight(trees[..|trees| - 1]) < Weight(trees)
  {
    WeightPop(trees, []);
    assert trees[..|trees| - 1] + [] == trees[..|trees| - 1];
  }

  lemma NextFree(f: Forest)
    requires f.Valid()
    ensures f.next !in f.heap
  {
  }

  lemma PendingBelow(r: Ref, t: Tree, e: EditSpan)
    ensures Pending(r, 0, t.Children(), true, ZERO, e, ParentOf(t, e)) == Entries(r, 0, EditsBelow(t, e))
  {
  }

  lemma WroteKeepsOthers(v: Visit)
    requires v.Wrote()
    ensures KeepsTrees(v.h, v.h2, v.others)
  {
    if v.m.Shared? {
      MadeUnnamed(v);
    }
    forall x, t | x in v.others && Denotes(v.h, x, t) ensures Denotes(v.h2, x, t) {
      if x.Packed? {
        assert Denotes(v.h2, x, t);
      } else {
        WroteKeeps(v, x, t);
      }
    }
  }

  /** subtreeResize and subtreeSetHasChanges on a handle nobody else holds. */
  method Resize(f: Forest, s: Subtree, padding: Length, size: Length) returns (m: Subtree)
    requires f.Valid() && (s.Shared? ==> s.ref in f.heap && f.heap[s.ref].refCount == 1)
    modifies f
    ensures f.Valid() && f.next >= old(f.next)
    ensures (f.heap, m) == Rewrite(old(f.heap), s, old(f.next), padding, size)
  {
    match s {
      case Shared(r) =>
        var d := f.heap[r].data.(padding := padding, size := size);
        f.heap := f.heap[r := f.heap[r].(data := d.(hasChanges := true))];
        m := s;
      case Packed(l) =>
        if CanInline(padding, size, l.lookaheadBytes) {
          var l' := l.(paddingBytes := padding.bytes, paddingRows := padding.extent.row,
                       paddingColumns := padding.extent.column, sizeBytes := size.bytes);
          m := Packed(l'.(hasChanges := true));
        } else {
          var d := Spilled(l, padding, size, l.lookaheadBytes);
          f.heap := f.heap[f.next := Cell(1, d.(hasChanges := true), [])];
          m, f.next := Shared(f.next), f.next + 1;
        }
    }
  }

  /** What a rewrite leaves in the cell it wrote, in terms of the edited tree. */
  lemma RewriteShape(h: Heap, s: Subtree, t: Tree, e: EditSpan, n: Ref)
    requires Denotes(h, s, t) && !Skips(t, e) && n !in h && (s.Shared? ==> h[s.ref].refCount > 0)
    ensures s.Shared? ==> s.ref in h
    ensures s.Shared? == t.Node?
    ensures var (h1, m) := Rewrite(h, s, n, Resized(t, e).0, Resized(t, e).1);
            (match t
             case Inline(_) => Edit(t, e).Children() == [] && (m.Shared? ==> m.ref == n) && Denotes(h1, m, Edit(t, e))
             case Node(_, _) =>
               && m.Shared? && m.ref in h1 && h1[m.ref].children == h[s.ref].children
               && Edit(t, e) == Node(h1[m.ref].data, EditAll(t.Children(), EditsBelow(t, e))))
  {
    hide EditAll, ChildEdits;
  }

  lemma StartFrontier(h: Heap, self: Subtree, e: EditSpan, others: multiset<Subtree>, t: Tree)
    requires Exact(h, others + multiset{self}) && Live(h) && Denotes(h, self, t)
    ensures Frontier(h, self, others, [Entry(Root, e)], [t], map[Root := Edit(t, e)], {}, Edit(t, e))
  {
    hide Edit;
    assert [Entry(Root, e)][0].slot == Root;
  }

  lemma EndFrontier(h: Heap, root: Subtree, others: multiset<Subtree>, trees: seq<Tree>,
                    pend: map<Slot, Tree>, owned: set<Ref>, target: Tree)
    requires Frontier(h, root, others, [], trees, pend, owned, target)
    ensures Exact(h, others + multiset{root}) && Live(h) && Denotes(h, root, target)
  {
    assert pend == map[];
    FinishedDenotes(h, Root, root, target);
  }

  /** The handle made exclusive and given its new padding and size. */
  method RewriteNode(f: Forest, s: Subtree, padding: Length, size: Length, ghost held: multiset<Subtree>)
    returns (m: Subtree)
    requires f.Valid() && Live(f.heap) && Exact(f.heap, held) && (s.Shared? ==> s.ref in f.heap)
    modifies f
    ensures f.Valid()
    ensures (f.heap, m) == Rewrite(old(f.heap), s, old(f.next), padding, size)
  {
    ghost var h, n := f.heap, f.next;
    m := f.MakeMut(s, held);
    ghost var exclusive := f.heap;
    m := Resize(f, m, padding, size);
    if s.Shared? && h[s.ref].refCount > 1 {
      RewriteByParts(h, exclusive, f.heap, s, n, padding, size);
    }
  }

  lemma RewriteByParts(h: Heap, h1: Heap, h2: Heap, s: Subtree, n: Ref, padding: Length, size: Length)
    requires n !in h && s.Shared? && s.ref in h && h[s.ref].refCount > 1
    requires h1 == Cloned(h, s.ref, n)
    requires h2 == Rewrite(h1, Shared(n), n + 1, padding, size).0
    ensures h2 == Rewrite(h, s, n, padding, size).0
  {
  }

  /** A popped entry's node made exclusive, rewritten and stored back. */
  method VisitNode(f: Forest, root: Subtree, slot: Slot, padding: Length, size: Length,
                   ghost others: multiset<Subtree>, ghost owned: set<Ref>)
    returns (root': Subtree, m: Subtree, ghost v: Visit)
    requires f.Valid() && Live(f.heap) && Exact(f.heap, others + multiset{root}) && Isolated(f.heap, owned, others)
    requires SlotIn(f.heap, slot) && (slot.Child? ==> slot.parent in owned)
    requires Content(f.heap, root, slot).Shared? ==>
               Content(f.heap, root, slot).ref in f.heap && Content(f.heap, root, slot).ref !in owned
    modifies f
    ensures f.Valid() && v.Wrote() && root' == WriteRoot(root, slot, m) && f.heap == v.h2
    ensures v.h == old(f.heap) && v.root == root && v.others == others && v.owned == owned
    ensures v.slot == slot && v.s == Content(old(f.heap), root, slot) && v.m == m && v.n == old(f.next)
    ensures (v.h1, m) == Rewrite(v.h, v.s, v.n, padding, size)
  {
    hide Exact, Owed, Live, Isolated, Rewrite;
    ghost var h, n := f.heap, f.next;
    var s := Content(f.heap, root, slot);
    m := RewriteNode(f, s, padding, size, others + multiset{root});
    ghost var h1 := f.heap;
    RewriteOwed(h, others + multiset{root}, s, n, padding, size);
    match slot {
      case Root => root' := m;
      case Child(p, i) =>
        f.heap := f.heap[p := f.heap[p].(children := f.heap[p].children[i := m])];
        root' := root;
    }
    v := Visit(h, root, others, owned, slot, s, n, h1, m, f.heap);
  }

  lemma FrontierTop(h: Heap, root: Subtree, others: multiset<Subtree>, stack: seq<Entry>, trees: seq<Tree>,
                    pend: map<Slot, Tree>, owned: set<Ref>, target: Tree)
    requires Frontier(h, root, others, stack, trees, pend, owned, target) && stack != []
    ensures |trees| == |stack| && Ready(h, root, owned, stack[|stack| - 1], trees[|stack| - 1])
    ensures Exact(h, others + multiset{root}) && Live(h) && Isolated(h, owned, others)
    ensures var slot := stack[|stack| - 1].slot;
            && SlotIn(h, slot) && (slot.Child? ==> slot.parent in owned)
            && (Content(h, root, slot).Shared? ==>
                  && Content(h, root, slot).ref in h && Content(h, root, slot).ref !in owned
                  && h[Content(h, root, slot).ref].refCount > 0)
            && Denotes(h, Content(h, root, slot), trees[|stack| - 1])
  {
  }

  lemma ChildrenAfterVisit(v: Visit, cs: seq<Tree>)
    requires v.Wrote() && v.s.Shared? && v.m.Shared? && v.m.ref in v.h2
    requires v.h2[v.m.ref].children == v.h[v.s.ref].children && |cs| == |v.h[v.s.ref].children|
    requires forall i :: 0 <= i < |cs| ==> Denotes(v.h, v.h[v.s.ref].children[i], cs[i])
    ensures forall i :: 0 <= i < |cs| ==> Denotes(v.h2, v.h2[v.m.ref].children[i], cs[i])
  {
    forall i | 0 <= i < |cs| ensures Denotes(v.h2, v.h2[v.m.ref].children[i], cs[i]) {
      WroteChildReady(v, i, EditSpan(ZERO, ZERO, ZERO), cs[i]);
    }
  }

  /** The cell written survives storing its handle in the slot. */
  lemma WrittenCell(v: Visit)
    requires v.Wrote() && v.m.Shared?
    ensures v.m.ref in v.h1 && v.m.ref in v.h2 && v.h2[v.m.ref] == v.h1[v.m.ref]
  {
    MadeUnnamed(v);
  }

  lemma DenotesPacked(v: Visit, t: Tree)
    requires v.Wrote() && Denotes(v.h1, v.m, t) && t.Children() == []
    ensures Denotes(v.h2, v.m, t)
  {
    if v.m.Shared? {
      WrittenCell(v);
    }
  }

  /** One round of the edit's loop, for an entry the edit reaches. */
  method VisitTop(f: Forest, root: Subtree, stack: seq<Entry>, ghost others: multiset<Subtree>, ghost trees: seq<Tree>,
                  ghost pend: map<Slot, Tree>, ghost owned: set<Ref>, ghost target: Tree)
    returns (root': Subtree, stack': seq<Entry>, ghost trees': seq<Tree>, ghost pend': map<Slot, Tree>, ghost owned': set<Ref>)
    requires f.Valid() && Frontier(f.heap, root, others, stack, trees, pend, owned, target)
    requires stack != [] && |trees| == |stack| && !Skips(trees[|stack| - 1], stack[|stack| - 1].edit)
    modifies f
    ensures f.Valid() && Frontier(f.heap, root', others, stack', trees', pend', owned', target)
    ensures |trees'| == |stack'| && Weight(trees') < Weight(trees)
    ensures KeepsTrees(old(f.heap), f.heap, others)
  {
    hide *;
    var entry := stack[|stack| - 1];
    var e := entry.edit;
    ghost var t, h := trees[|stack| - 1], f.heap;
    FrontierTop(f.heap, root, others, stack, trees, pend, owned, target);
    var s := Content(f.heap, root, entry.slot);
    PeekAgrees(f.heap, s, t, e);
    var peek := Peek(f.heap, s);
    var (padding, size) := Resized(peek, e);
    NextFree(f);
    RewriteShape(h, s, t, e, f.next);
    var m;
    ghost var v;
    root', m, v := VisitNode(f, root, entry.slot, padding, size, others, owned);
    WroteKeepsOthers(v);
    stack' := stack[..|stack| - 1];
    owned' := v.Owned();
    if s.Shared? {
      ghost var es := EditsBelow(t, e);
      VisitedNodeChildren(v, entry, t, t.Children());
      WrittenCell(v);
      ChildrenAfterVisit(v, t.Children());
      VisitedNode(v, stack, trees, pend, target, v.h2[m.ref].data, es);
      stack' := PushChildren(f.heap, m.ref, e, ParentOf(peek, e), stack', t.Children());
      PendingBelow(m.ref, t, e);
      trees' := trees[..|stack| - 1] + NewTrees(es, t.Children());
      pend' := (pend - {entry.slot}) + NewTargets(m.ref, es, t.Children());
      WeightNewTrees(es, t.Children());
      WeightPop(trees, NewTrees(es, t.Children()));
    } else {
      DenotesPacked(v, Edit(t, e));
      VisitedLeaf(v, stack, trees, pend, target);
      trees', pend' := trees[..|stack| - 1], pend - {entry.slot};
      WeightDrop(trees);
    }
  }

  /** subtreeEdit.  The work list is a stack of slots; `trees` and `pend` are the trees found
      there and the trees they must become. */
  method SubtreeEdit(f: Forest, self: Subtree, edit: EditSpan, ghost others: multiset<Subtree>, ghost t: Tree)
    returns (root: Subtree)
    requires f.Valid() && Live(f.heap) && Exact(f.heap, others + multiset{self}) && Denotes(f.heap, self, t)
    modifies f
    ensures f.Valid() && Live(f.heap) && Exact(f.heap, others + multiset{root})
    ensures Denotes(f.heap, root, Edit(t, edit))
    ensures KeepsTrees(old(f.heap), f.heap, others)
  {
    hide *;
    root := self;
    var stack := [Entry(Root, edit)];
    ghost var trees, pend, owned, target := [t], map[Root := Edit(t, edit)], {}, Edit(t, edit);
    StartFrontier(f.heap, self, edit, others, t);
    CountsKeep(f.heap, f.heap, others);
    while stack != []
      invariant f.Valid() && Frontier(f.heap, root, others, stack, trees, pend, owned, target)
      invariant |trees| == |stack| && KeepsTrees(old(f.heap), f.heap, others)
      decreases Weight(trees)
    {
      var entry := stack[|stack| - 1];
      FrontierTop(f.heap, root, others, stack, trees, pend, owned, target);
      var s := Content(f.heap, root, entry.slot);
      PeekAgrees(f.heap, s, trees[|stack| - 1], entry.edit);
      if Skips(Peek(f.heap, s), entry.edit) {
        PopSkipped(f.heap, root, others, stack, trees, pend, owned, target);
        WeightDrop(trees);
        pend, trees, stack := pend - {entry.slot}, trees[..|stack| - 1], stack[..|stack| - 1];
      } else {
        ghost var h := f.heap;
        root, stack, trees, pend, owned := VisitTop(f, root, stack, others, trees, pend, owned, target);
        KeepsTreesTransitive(old(f.heap), h, f.heap, others);
      }
    }
    EndFrontier(f.heap, root, others, trees, pend, owned, target);
  }
}