/** Reference-counted subtrees (subtree_core.go:36-138).

    A handle is an inline leaf or a reference to a cell; cells are shared by every slot and
    root that holds their reference.  The cells live in one mutable store, so sharing and
    in-place update are explicit: two handles are the same node exactly when their
    references are equal.  A cell whose count drops to zero leaves the store. */
module SubtreeStore {
  import opened Lengths
  import opened Trees

  type Ref = nat

  datatype Subtree = Packed(leaf: InlineLeaf) | Shared(ref: Ref)

  datatype Cell = Cell(refCount: nat, data: NodeData, children: seq<Subtree>)

  type Heap = map<Ref, Cell>

  /** The tree a handle stands for. */
  ghost predicate Denotes(h: Heap, s: Subtree, t: Tree)
    decreases t
  {
    match t
    case Inline(l) => s == Packed(l)
    case Node(d, cs) =>
      && s.Shared? && s.ref in h && h[s.ref].data == d && |h[s.ref].children| == |cs|
      && forall i :: 0 <= i < |cs| ==> Denotes(h, h[s.ref].children[i], cs[i])
  }

  /** Every child slot of the cells in dom. */
  ghost function Slots(h: Heap, dom: set<Ref>): multiset<Subtree>
    requires dom <= h.Keys
  {
    if dom == {} then multiset{} else
    var k :| k in dom;
    multiset(h[k].children) + Slots(h, dom - {k})
  }

  lemma SlotsPick(h: Heap, dom: set<Ref>, k: Ref)
    requires dom <= h.Keys && k in dom
    ensures Slots(h, dom) == multiset(h[k].children) + Slots(h, dom - {k})
    decreases dom
  {
    var j :| j in dom && Slots(h, dom) == multiset(h[j].children) + Slots(h, dom - {j});
    if j != k {
      SlotsPick(h, dom - {j}, k);
      SlotsPick(h, dom - {k}, j);
      assert dom - {j} - {k} == dom - {k} - {j};
    }
  }

  lemma {:induction false} SlotsSame(h: Heap, h': Heap, dom: set<Ref>)
    requires dom <= h.Keys && dom <= h'.Keys
    requires forall k :: k in dom ==> h[k].children == h'[k].children
    ensures Slots(h, dom) == Slots(h', dom)
    decreases dom
  {
    if dom != {} {
      var k :| k in dom;
      SlotsPick(h, dom, k);
      SlotsPick(h', dom, k);
      SlotsSame(h, h', dom - {k});
    }
  }

  /** Whoever holds a reference is counted: each cell's count is the number of child slots
      and of outside handles that name it, and nothing names a missing cell. */
  ghost predicate Exact(h: Heap, held: multiset<Subtree>) {
    && (forall r :: r in h ==> h[r].refCount == (Slots(h, h.Keys) + held)[Shared(r)])
    && (forall s :: s in Slots(h, h.Keys) + held ==> s.Packed? || s.ref in h)
  }

  lemma SlotCounted(h: Heap, k: Ref, i: nat)
    requires k in h && i < |h[k].children|
    ensures h[k].children[i] in Slots(h, h.Keys)
  {
    SlotsPick(h, h.Keys, k);
    assert h[k].children[i] in multiset(h[k].children);
  }

  /** Denotation only reads the cells it can reach. */
  lemma {:induction false} DenotesOutside(h: Heap, h': Heap, hidden: set<Ref>, s: Subtree, t: Tree)
    requires Denotes(h, s, t) && (s.Packed? || s.ref !in hidden)
    requires forall k :: k in h && k !in hidden ==>
               k in h' && h'[k].data == h[k].data && h'[k].children == h[k].children
    requires forall k, i :: k in h && k !in hidden && 0 <= i < |h[k].children| ==>
               h[k].children[i].Packed? || h[k].children[i].ref !in hidden
    ensures Denotes(h', s, t)
    decreases t
  {
    match t
    case Inline(_) =>
    case Node(d, cs) =>
      forall i | 0 <= i < |cs| ensures Denotes(h', h'[s.ref].children[i], cs[i]) {
        DenotesOutside(h, h', hidden, h[s.ref].children[i], cs[i]);
      }
  }

  /** Same nodes, whatever their counts. */
  ghost predicate SameNodes(h: Heap, h': Heap) {
    h.Keys == h'.Keys && forall k :: k in h ==> h'[k].data == h[k].data && h'[k].children == h[k].children
  }

  function Bump(h: Heap, cs: seq<Subtree>): Heap {
    map k | k in h :: h[k].(refCount := h[k].refCount + multiset(cs)[Shared(k)])
  }

  /** The store after r's cell has been copied to the fresh reference n: the copy holds
      one more reference to each child, and one reference to r is given up. */
  function Cloned(h: Heap, r: Ref, n: Ref): Heap
    requires r in h && h[r].refCount > 0
  {
    (map k | k in h :: h[k].(refCount :=
        h[k].refCount + multiset(h[r].children)[Shared(k)] - (if k == r then 1 else 0)))
      [n := Cell(1, h[r].data, h[r].children)]
  }

  lemma BumpStep(h: Heap, cs: seq<Subtree>, i: nat)
    requires i < |cs|
    ensures Bump(Bump(h, cs[..i]), [cs[i]]) == Bump(h, cs[..i + 1])
  {
    assert cs[..i + 1] == cs[..i] + [cs[i]];
  }

  lemma BumpNone(h: Heap)
    ensures Bump(h, []) == h
  {
  }

  lemma ClonedByParts(h: Heap, h1: Heap, h2: Heap, r: Ref, n: Ref)
    requires r in h && h[r].refCount > 0 && n !in h
    requires h1 == Bump(h, h[r].children)[n := Cell(1, h[r].data, h[r].children)]
    requires h1[r].refCount > 0 && h2 == h1[r := h1[r].(refCount := h1[r].refCount - 1)]
    ensures h2 == Cloned(h, r, n)
  {
  }

  lemma FreeSlots(h: Heap, r: Ref)
    requires r in h
    ensures (h - {r}).Keys == h.Keys - {r}
    ensures Slots(h, h.Keys) == Slots(h - {r}, (h - {r}).Keys) + multiset(h[r].children)
  {
    SlotsPick(h, h.Keys, r);
    SlotsSame(h, h - {r}, h.Keys - {r});
    assert (h - {r}).Keys == h.Keys - {r};
  }

  lemma Unnamed(h: Heap, held: multiset<Subtree>, r: Ref)
    requires Exact(h, held) && r in h && h[r].refCount == 0
    ensures Shared(r) !in Slots(h, h.Keys) + held
    ensures forall k, i :: k in h && 0 <= i < |h[k].children| ==> h[k].children[i] != Shared(r)
  {
    forall k, i | k in h && 0 <= i < |h[k].children| ensures h[k].children[i] != Shared(r) {
      SlotCounted(h, k, i);
    }
  }

  /** A cell nobody counts can go: its children become outside handles. */
  lemma FreeCell(h: Heap, held: multiset<Subtree>, r: Ref)
    requires Exact(h, held) && r in h && h[r].refCount == 0
    ensures Exact(h - {r}, held + multiset(h[r].children))
    ensures forall k, i :: k in h && 0 <= i < |h[k].children| ==> h[k].children[i] != Shared(r)
  {
    var h', cs := h - {r}, multiset(h[r].children);
    FreeSlots(h, r);
    Unnamed(h, held, r);
    assert Slots(h', h'.Keys) + (held + cs) == Slots(h, h.Keys) + held;
  }

  lemma DropHandle(h: Heap, h': Heap, held: multiset<Subtree>, s: Subtree)
    requires Exact(h, held + multiset{s}) && SameNodes(h, h')
    requires s.Shared? ==> s.ref in h && h[s.ref].refCount > 0
    requires forall k :: k in h ==> h'[k].refCount == h[k].refCount - (if s == Shared(k) then 1 else 0)
    ensures Exact(h', held)
  {
    SlotsSame(h, h', h.Keys);
  }

  ghost predicate KeepsTrees(h: Heap, h': Heap, held: multiset<Subtree>) {
    forall x, t :: x in held && Denotes(h, x, t) ==> Denotes(h', x, t)
  }

  lemma FreedKeeps(h: Heap, held: multiset<Subtree>, r: Ref)
    requires Exact(h, held) && r in h && h[r].refCount == 0
    ensures KeepsTrees(h, h - {r}, held)
  {
    FreeCell(h, held, r);
    forall x, t | x in held && Denotes(h, x, t) ensures Denotes(h - {r}, x, t) {
      DenotesOutside(h, h - {r}, {r}, x, t);
    }
  }

  lemma CountsKeep(h: Heap, h': Heap, held: multiset<Subtree>)
    requires SameNodes(h, h')
    ensures KeepsTrees(h, h', held)
  {
    forall x, t | x in held && Denotes(h, x, t) ensures Denotes(h', x, t) {
      DenotesOutside(h, h', {}, x, t);
    }
  }

  lemma KeepsTreesTransitive(h0: Heap, h1: Heap, h2: Heap, held: multiset<Subtree>)
    requires KeepsTrees(h0, h1, held) && KeepsTrees(h1, h2, held)
    ensures KeepsTrees(h0, h2, held)
  {
  }

  /** Every cell has a holder: nothing is garbage. */
  predicate Live(h: Heap) {
    forall r :: r in h ==> h[r].refCount > 0
  }

  /** References on their way out: still in the store, with no holder left. */
  ghost predicate Dead(h: Heap, stack: seq<Ref>) {
    && (forall i :: 0 <= i < |stack| ==> stack[i] in h && h[stack[i]].refCount == 0)
    && (forall r :: r in h && h[r].refCount == 0 ==> r in stack)
    && (forall i, j :: 0 <= i < j < |stack| ==> stack[i] != stack[j])
  }

  /** A cell that still had a holder is not on the stack, so it may be pushed at zero. */
  lemma DeadAfterDrop(h: Heap, h': Heap, stack: seq<Ref>, r: Ref)
    requires Dead(h, stack) && r in h && h[r].refCount > 0
    requires h' == h[r := h[r].(refCount := h[r].refCount - 1)]
    ensures Dead(h', if h'[r].refCount == 0 then stack + [r] else stack)
  {
    assert r in stack + [r];
    forall k | k in stack ensures k in stack + [r] {
      var i :| 0 <= i < |stack| && stack[i] == k;
      assert (stack + [r])[i] == k;
    }
  }

  lemma DeadSingle(h: Heap, r: Ref)
    requires r in h && forall k :: k in h ==> (h[k].refCount == 0 <==> k == r)
    ensures Dead(h, [r])
  {
  }

  lemma DeadNone(h: Heap)
    requires Dead(h, [])
    ensures Live(h)
  {
  }

  lemma DeadAfterFree(h: Heap, stack: seq<Ref>)
    requires Dead(h, stack) && stack != []
    ensures Dead(h - {stack[|stack| - 1]}, stack[..|stack| - 1])
    ensures stack[|stack| - 1] in h && h[stack[|stack| - 1]].refCount == 0
  {
    assert stack == stack[..|stack| - 1] + [stack[|stack| - 1]];
  }

  ghost predicate Released(h0: Heap, h: Heap, held: multiset<Subtree>, pending: seq<Subtree>) {
    Exact(h, held + multiset(pending)) && KeepsTrees(h0, h, held)
  }

  lemma ReleasedWhole(h0: Heap, h: Heap, held: multiset<Subtree>)
    ensures Released(h0, h, held, []) <==> Exact(h, held) && KeepsTrees(h0, h, held)
  {
    assert held + multiset([]) == held;
  }

  lemma PopDead(h0: Heap, h: Heap, held: multiset<Subtree>, r: Ref)
    requires Released(h0, h, held, []) && r in h && h[r].refCount == 0
    ensures Released(h0, h - {r}, held, h[r].children)
  {
    assert held + multiset([]) == held;
    FreeCell(h, held, r);
    FreedKeeps(h, held, r);
    KeepsTreesTransitive(h0, h, h - {r}, held);
  }

  lemma DropChild(h0: Heap, h: Heap, h': Heap, held: multiset<Subtree>, cs: seq<Subtree>, j: nat)
    requires j < |cs| && Released(h0, h, held, cs[j..]) && SameNodes(h, h')
    requires cs[j].Shared? ==> cs[j].ref in h && h[cs[j].ref].refCount > 0
    requires forall k :: k in h ==> h'[k].refCount == h[k].refCount - (if cs[j] == Shared(k) then 1 else 0)
    ensures Released(h0, h', held, cs[j + 1..])
  {
    assert cs[j..] == [cs[j]] + cs[j + 1..];
    assert held + multiset(cs[j..]) == held + multiset(cs[j + 1..]) + multiset{cs[j]};
    DropHandle(h, h', held + multiset(cs[j + 1..]), cs[j]);
    CountsKeep(h, h', held);
    KeepsTreesTransitive(h0, h, h', held);
  }

  lemma PendingCounted(h0: Heap, h: Heap, held: multiset<Subtree>, cs: seq<Subtree>, j: nat)
    requires j < |cs| && Released(h0, h, held, cs[j..])
    ensures cs[j].Shared? ==> cs[j].ref in h && h[cs[j].ref].refCount > 0
  {
    assert cs[j] == cs[j..][0];
    assert cs[j] in multiset(cs[j..]);
  }

  lemma TwoSlots(h: Heap, p: Ref, i: nat, q: Ref, j: nat)
    requires p in h && i < |h[p].children| && q in h && j < |h[q].children| && (p, i) != (q, j)
    requires h[p].children[i] == h[q].children[j]
    ensures Slots(h, h.Keys)[h[p].children[i]] >= 2
  {
    var x := h[p].children[i];
    SlotsPick(h, h.Keys, p);
    if p != q {
      SlotsPick(h, h.Keys - {p}, q);
      assert x in multiset(h[p].children) && x in multiset(h[q].children);
    } else {
      TwiceIn(h[p].children, if i < j then i else j, if i < j then j else i);
    }
  }

  lemma TwiceIn<T>(cs: seq<T>, a: nat, b: nat)
    requires a < b < |cs| && cs[a] == cs[b]
    ensures multiset(cs)[cs[a]] >= 2
  {
    assert cs == cs[..a] + [cs[a]] + cs[a + 1..b] + [cs[a]] + cs[b + 1..];
  }

  class Forest {
    var heap: Heap
    var next: Ref

    ghost predicate Valid()
      reads this
    {
      forall r :: r in heap ==> r < next
    }

    constructor ()
      ensures Valid() && heap == map[] && Exact(heap, multiset{})
    {
      heap, next := map[], 0;
    }

    method Retain(s: Subtree)
      requires Valid() && (s.Packed? || s.ref in heap)
      modifies this`heap
      ensures Valid() && heap == Bump(old(heap), [s])
    {
      if s.Shared? {
        heap := heap[s.ref := heap[s.ref].(refCount := heap[s.ref].refCount + 1)];
      }
      assert heap == Bump(old(heap), [s]);
    }

    /** One reference given up; `last` tells whether it was the last one. */
    method Drop(r: Ref) returns (last: bool)
      requires Valid() && r in heap && heap[r].refCount > 0
      modifies this`heap
      ensures Valid() && heap == old(heap)[r := old(heap)[r].(refCount := old(heap)[r].refCount - 1)]
      ensures last == (heap[r].refCount == 0)
    {
      heap := heap[r := heap[r].(refCount := heap[r].refCount - 1)];
      last := heap[r].refCount == 0;
    }

    /** Gives up one handle.  Cells whose count drops to zero are freed, and so on down;
        every tree still held outside keeps its value. */
    method Release(s: Subtree, ghost held: multiset<Subtree>)
      requires Valid() && Live(heap) && (s.Packed? || s.ref in heap)
      requires s.Shared? && heap[s.ref].refCount == 1 ==> Exact(heap, held + multiset{s})
      modifies this`heap
      ensures Valid() && Live(heap) && heap.Keys <= old(heap).Keys
      ensures s.Packed? ==> heap == old(heap)
      ensures s.Shared? && old(heap)[s.ref].refCount > 1 ==>
                heap == old(heap)[s.ref := old(heap)[s.ref].(refCount := old(heap)[s.ref].refCount - 1)]
      ensures Exact(old(heap), held + multiset{s}) ==> Exact(heap, held) && KeepsTrees(old(heap), heap, held)
    {
      ghost var exact := Exact(heap, held + multiset{s});
      if s.Packed? {
        if exact {
          DropHandle(heap, heap, held, s);
        }
        return;
      }
      var last := Drop(s.ref);
      if exact {
        DropHandle(old(heap), heap, held, s);
        CountsKeep(old(heap), heap, held);
      }
      if last {
        ReleaseAll(s.ref, held);
      }
    }

    /** The work list of subtreeRelease, started from a cell that just lost its last holder. */
    method ReleaseAll(first: Ref, ghost held: multiset<Subtree>)
      requires Valid() && first in heap && Exact(heap, held)
      requires forall k :: k in heap ==> (heap[k].refCount == 0 <==> k == first)
      modifies this`heap
      ensures Valid() && Live(heap) && heap.Keys <= old(heap).Keys
      ensures Exact(heap, held) && KeepsTrees(old(heap), heap, held)
    {
      hide Released, Exact, KeepsTrees, Dead;
      DeadSingle(heap, first);
      var stack: seq<Ref> := [first];
      CountsKeep(heap, heap, held);
      ReleasedWhole(heap, heap, held);
      while stack != []
        invariant Valid() && heap.Keys <= old(heap).Keys
        invariant Dead(heap, stack) && Released(old(heap), heap, held, [])
        decreases heap.Keys
      {
        var r := stack[|stack| - 1];
        DeadAfterFree(heap, stack);
        stack := stack[..|stack| - 1];
        var cs := heap[r].children;
        PopDead(old(heap), heap, held, r);
        heap := heap - {r};
        ghost var keys := heap.Keys;
        assert cs[0..] == cs;
        for j := 0 to |cs|
          invariant Valid() && heap.Keys == keys
          invariant Dead(heap, stack) && Released(old(heap), heap, held, cs[j..])
        {
          ghost var before := heap;
          PendingCounted(old(heap), heap, held, cs, j);
          if cs[j].Shared? {
            var last := Drop(cs[j].ref);
            DeadAfterDrop(before, heap, stack, cs[j].ref);
            if last {
              stack := stack + [cs[j].ref];
            }
          }
          DropChild(old(heap), before, heap, held, cs, j);
        }
        assert cs[|cs|..] == [];
      }
      ReleasedWhole(old(heap), heap, held);
      DeadNone(heap);
    }

    /** subtreeClone: a copy of the cell, holding each child once more. */
    method Clone(r: Ref) returns (copy: Ref)
      requires Valid() && r in heap && forall s :: s in heap[r].children ==> s.Packed? || s.ref in heap
      modifies this
      ensures Valid() && copy == old(next) && next == old(next) + 1
      ensures heap == Bump(old(heap), old(heap)[r].children)[copy := Cell(1, old(heap)[r].data, old(heap)[r].children)]
    {
      var cs := heap[r].children;
      copy, next := next, next + 1;
      var cell := Cell(1, heap[r].data, cs);
      BumpNone(heap);
      for i := 0 to |cs|
        invariant Valid() && next == old(next) + 1
        invariant heap == Bump(old(heap), cs[..i])
      {
        BumpStep(old(heap), cs, i);
        Retain(cs[i]);
      }
      assert cs[..|cs|] == cs;
      heap := heap[copy := cell];
    }

    /** subtreeMakeMut: the handle itself when nobody else holds it, otherwise a copy. */
    method MakeMut(s: Subtree, ghost held: multiset<Subtree>) returns (m: Subtree)
      requires Valid() && Live(heap) && Exact(heap, held) && (s.Packed? || s.ref in heap)
      modifies this
      ensures Valid() && Live(heap)
      ensures s.Packed? || old(heap)[s.ref].refCount == 1 ==> m == s && heap == old(heap) && next == old(next)
      ensures s.Shared? && old(heap)[s.ref].refCount > 1 ==>
                m == Shared(old(next)) && heap == Cloned(old(heap), s.ref, old(next)) && next == old(next) + 1
    {
      if s.Packed? || heap[s.ref].refCount == 1 {
        return s;
      }
      forall x | x in heap[s.ref].children ensures x.Packed? || x.ref in heap {
        var i :| 0 <= i < |heap[s.ref].children| && heap[s.ref].children[i] == x;
        SlotCounted(heap, s.ref, i);
      }
      var copy := Clone(s.ref);
      ghost var copied := heap;
      Release(s, multiset{});
      ClonedByParts(old(heap), copied, heap, s.ref, copy);
      m := Shared(copy);
    }
  }
}
