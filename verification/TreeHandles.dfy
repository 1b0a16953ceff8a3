/** Trees as a caller holds them (tree.go): copies share nodes, and an edit moves the included ranges
    along with the nodes. */
module TreeHandles {
  import opened Lengths
  import opened Trees
  import opened EditSpec
  import opened SubtreeStore
  import opened SubtreeEdit
  import opened Ranges

  // ---------------------------------------------------------------- included ranges under an edit

  /** An offset at or past the old end, moved; what would pass the largest offset stays there. */
  function Moved(b: nat, p: Point, e: EditSpan): (nat, Point)
    requires b >= e.oldEnd.bytes
  {
    var to := e.newEnd.bytes + (b - e.oldEnd.bytes);
    if to > MAX_BYTE then (MAX_BYTE, Point(MAX_BYTE, MAX_BYTE))
    else (to, PointAdd(e.newEnd.extent, PointSub(p, e.oldEnd.extent)))
  }

  function EditedStart(b: nat, p: Point, e: EditSpan): (nat, Point) {
    if b >= e.oldEnd.bytes then Moved(b, p, e)
    else if b > e.start.bytes then (e.start.bytes, e.start.extent)
    else (b, p)
  }

  /** A range that runs to the largest offset keeps doing so. */
  function EditedEnd(b: nat, p: Point, e: EditSpan): (nat, Point) {
    if b == MAX_BYTE && b >= e.oldEnd.bytes then (b, p) else EditedStart(b, p, e)
  }

  function EditedRange(r: Range, e: EditSpan): Range {
    var (startByte, startPoint) := EditedStart(r.startByte, r.startPoint, e);
    var (endByte, endPoint) := EditedEnd(r.endByte, r.endPoint, e);
    Range(startPoint, endPoint, startByte, endByte)
  }

  function EditedRanges(rs: seq<Range>, e: EditSpan): seq<Range> {
    seq(|rs|, i requires 0 <= i < |rs| => EditedRange(rs[i], e))
  }

  predicate Narrow(r: Range) { r.startByte <= r.endByte <= MAX_BYTE }

  predicate FitsOffsets(e: EditSpan) { e.Ordered() && e.oldEnd.bytes <= MAX_BYTE && e.newEnd.bytes <= MAX_BYTE }

  /** rangeEdit, in 32-bit arithmetic: a sum that wraps below the new end has overflowed. */
  method RangeEdit(r: Range, e: EditSpan) returns (out: Range)
    requires Narrow(r) && FitsOffsets(e)
    ensures out == EditedRange(r, e)
  {
    out := r;
    if out.endByte >= e.oldEnd.bytes {
      if out.endByte != MAX_BYTE {
        var to := (e.newEnd.bytes + (out.endByte - e.oldEnd.bytes)) % WRAP;
        out := out.(endByte := to, endPoint := PointAdd(e.newEnd.extent, PointSub(out.endPoint, e.oldEnd.extent)));
        if out.endByte < e.newEnd.bytes { out := out.(endByte := MAX_BYTE, endPoint := Point(MAX_BYTE, MAX_BYTE)); }
      }
    } else if out.endByte > e.start.bytes {
      out := out.(endByte := e.start.bytes, endPoint := e.start.extent);
    }
    if out.startByte >= e.oldEnd.bytes {
      var to := (e.newEnd.bytes + (out.startByte - e.oldEnd.bytes)) % WRAP;
      out := out.(startByte := to, startPoint := PointAdd(e.newEnd.extent, PointSub(out.startPoint, e.oldEnd.extent)));
      if out.startByte < e.newEnd.bytes { out := out.(startByte := MAX_BYTE, startPoint := Point(MAX_BYTE, MAX_BYTE)); }
    } else if out.startByte > e.start.bytes {
      out := out.(startByte := e.start.bytes, startPoint := e.start.extent);
    }
  }

  lemma EditedCovers(r: Range, e: EditSpan, b: nat)
    requires Narrow(r) && FitsOffsets(e)
    ensures b < e.start.bytes ==> (Covers(EditedRange(r, e), b) <==> Covers(r, b))
    ensures e.newEnd.bytes <= b < MAX_BYTE && b - e.newEnd.bytes + e.oldEnd.bytes < MAX_BYTE ==>
      (Covers(EditedRange(r, e), b) <==> Covers(r, b - e.newEnd.bytes + e.oldEnd.bytes))
    ensures e.start.bytes <= b < e.newEnd.bytes ==>
      (Covers(EditedRange(r, e), b) <==> r.startByte < e.oldEnd.bytes <= r.endByte)
  {
  }

  predicate Spanned(r: Range, e: EditSpan) { r.startByte < e.oldEnd.bytes <= r.endByte }

  /** An edit keeps what is included: a byte that was not replaced is in the ranges exactly when it was,
      and the inserted text is in them exactly when a range started before the old end and reached it. */
  lemma EditedInclusion(rs: seq<Range>, e: EditSpan, b: nat)
    requires FitsOffsets(e) && forall i :: 0 <= i < |rs| ==> Narrow(rs[i])
    ensures b < e.start.bytes ==> (Includes(EditedRanges(rs, e), b) <==> Includes(rs, b))
    ensures e.newEnd.bytes <= b < MAX_BYTE && b - e.newEnd.bytes + e.oldEnd.bytes < MAX_BYTE ==>
      (Includes(EditedRanges(rs, e), b) <==> Includes(rs, b - e.newEnd.bytes + e.oldEnd.bytes))
    ensures e.start.bytes <= b < e.newEnd.bytes ==>
      (Includes(EditedRanges(rs, e), b) <==> exists i :: 0 <= i < |rs| && Spanned(rs[i], e))
  {
    hide EditedRange, Covers;
    var was := b - e.newEnd.bytes + e.oldEnd.bytes;
    forall i | 0 <= i < |rs|
      ensures b < e.start.bytes ==> (Covers(EditedRanges(rs, e)[i], b) <==> Covers(rs[i], b))
      ensures e.newEnd.bytes <= b < MAX_BYTE && was < MAX_BYTE ==> (Covers(EditedRanges(rs, e)[i], b) <==> Covers(rs[i], was))
      ensures e.start.bytes <= b < e.newEnd.bytes ==> (Covers(EditedRanges(rs, e)[i], b) <==> Spanned(rs[i], e))
    {
      EditedCovers(rs[i], e, b);
    }
  }

  // ---------------------------------------------------------------- trees

  lemma RetainExact(h: Heap, held: multiset<Subtree>, s: Subtree)
    requires Exact(h, held) && Live(h) && s in held
    ensures Exact(Bump(h, [s]), held + multiset{s}) && Live(Bump(h, [s])) && SameNodes(h, Bump(h, [s]))
  {
    SlotsSame(h, Bump(h, [s]), h.Keys);
    assert Bump(h, [s]).Keys == h.Keys;
  }

  class TreeHandle {
    var root: Subtree
    var includedRanges: seq<Range>

    constructor (root: Subtree, includedRanges: seq<Range>)
      ensures this.root == root && this.includedRanges == includedRanges
    {
      this.root, this.includedRanges := root, includedRanges;
    }

    /** Copy: one more holder of the same nodes. */
    method Copy(f: Forest, ghost others: multiset<Subtree>) returns (copy: TreeHandle)
      requires f.Valid() && Live(f.heap) && Exact(f.heap, others + multiset{root})
      modifies f
      ensures fresh(copy) && copy.root == root && copy.includedRanges == includedRanges
      ensures f.Valid() && Live(f.heap) && Exact(f.heap, others + multiset{root} + multiset{copy.root})
      ensures KeepsTrees(old(f.heap), f.heap, others + multiset{root})
    {
      RetainExact(f.heap, others + multiset{root}, root);
      f.Retain(root);
      CountsKeep(old(f.heap), f.heap, others + multiset{root});
      copy := new TreeHandle(root, includedRanges);
    }

    /** Edit: the ranges in place, then the nodes. */
    method Edit(f: Forest, edit: EditSpan, ghost others: multiset<Subtree>, ghost t: Tree)
      requires f.Valid() && Live(f.heap) && Exact(f.heap, others + multiset{root}) && Denotes(f.heap, root, t)
      requires FitsOffsets(edit) && forall i :: 0 <= i < |includedRanges| ==> Narrow(includedRanges[i])
      modifies this, f
      ensures f.Valid() && Live(f.heap) && Exact(f.heap, others + multiset{root})
      ensures Denotes(f.heap, root, EditSpec.Edit(t, edit)) && KeepsTrees(old(f.heap), f.heap, others)
      ensures includedRanges == EditedRanges(old(includedRanges), edit)
    {
      hide *;
      EditRanges(edit);
      root := SubtreeEdit.SubtreeEdit(f, root, edit, others, t);
    }

    method EditRanges(edit: EditSpan)
      requires FitsOffsets(edit) && forall i :: 0 <= i < |includedRanges| ==> Narrow(includedRanges[i])
      modifies `includedRanges
      ensures includedRanges == EditedRanges(old(includedRanges), edit)
    {
      hide EditedRange;
      ghost var was := includedRanges;
      for i := 0 to |includedRanges|
        invariant |includedRanges| == |was|
        invariant forall j :: 0 <= j < |was| ==> includedRanges[j] == if j < i then EditedRange(was[j], edit) else was[j]
      {
        var r := RangeEdit(includedRanges[i], edit);
        includedRanges := includedRanges[i := r];
      }
    }
  }

  /** Editing a copy leaves the tree it was taken from as it was, and every count exact. */
  method EditCopy(tree: TreeHandle, f: Forest, edit: EditSpan, ghost others: multiset<Subtree>, ghost t: Tree)
    returns (copy: TreeHandle)
    requires f.Valid() && Live(f.heap) && Exact(f.heap, others + multiset{tree.root}) && Denotes(f.heap, tree.root, t)
    requires FitsOffsets(edit) && forall i :: 0 <= i < |tree.includedRanges| ==> Narrow(tree.includedRanges[i])
    modifies f
    ensures fresh(copy) && f.Valid() && Live(f.heap)
    ensures Exact(f.heap, others + multiset{tree.root} + multiset{copy.root})
    ensures Denotes(f.heap, tree.root, t) && Denotes(f.heap, copy.root, EditSpec.Edit(t, edit))
    ensures KeepsTrees(old(f.heap), f.heap, others)
    ensures tree.root == old(tree.root) && tree.includedRanges == old(tree.includedRanges)
  {
    hide Denotes, Exact, Live, EditSpec.Edit, EditedRanges;
    copy := tree.Copy(f, others);
    copy.Edit(f, edit, others + multiset{tree.root}, t);
  }
}
