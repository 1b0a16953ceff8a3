/** What one edit does to a tree (subtree_edit.go), as a function of the tree's value.
    The work-list loop that performs it in place is in SubtreeEdit.dfy. */
module EditSpec {
  import opened Lengths
  import opened Trees

  datatype EditSpan = EditSpan(start: Length, oldEnd: Length, newEnd: Length)
  {
    predicate IsNoop() { oldEnd.bytes == start.bytes && newEnd.bytes == start.bytes }
    predicate IsPureInsertion() { oldEnd.bytes == start.bytes }
    predicate ShiftsColumn() { newEnd.extent.column != oldEnd.extent.column }
    predicate Ordered() { start.bytes <= oldEnd.bytes && start.bytes <= newEnd.bytes }
  }

  datatype Option<T> = None | Some(value: T)

  /** The edit lies past everything the tree's tokens looked at. */
  predicate Skips(t: Tree, e: EditSpan) {
    var endByte := t.Total().bytes + t.Lookahead();
    e.start.bytes > endByte || (e.IsNoop() && e.start.bytes == endByte)
  }

  /** The padding and size recorded for a tree the edit reaches. */
  function Resized(t: Tree, e: EditSpan): (Length, Length) {
    var padding, size, total := t.Padding(), t.Size(), t.Total();
    if e.oldEnd.bytes <= padding.bytes then
      (Add(e.newEnd, Sub(padding, e.oldEnd)), size)
    else if e.start.bytes < padding.bytes then
      (e.newEnd, SaturatingSub(size, Sub(e.oldEnd, padding)))
    else if e.start.bytes < total.bytes || (e.start.bytes == total.bytes && e.IsPureInsertion()) then
      (padding, Add(Sub(e.newEnd, padding), SaturatingSub(total, e.oldEnd)))
    else
      (padding, size)
  }

  /** Writes a new padding and size into a node and marks it changed; an inline leaf
      that no longer fits its fields becomes a heap leaf. */
  function Rewritten(t: Tree, padding: Length, size: Length): (r: Tree)
    ensures r.Children() == t.Children()
  {
    match t
    case Node(d, cs) => Node(d.(padding := padding, size := size, hasChanges := true), cs)
    case Inline(l) =>
      if CanInline(padding, size, l.lookaheadBytes) then
        Inline(l.(paddingBytes := padding.bytes, paddingRows := padding.extent.row,
                  paddingColumns := padding.extent.column, sizeBytes := size.bytes,
                  hasChanges := true))
      else
        Node(Spilled(l, padding, size, l.lookaheadBytes).(hasChanges := true), [])
  }

  /** What the child loop keeps from the parent: whether it depends on columns, the row
      of its new padding, and two facts about the edit as the parent received it. */
  datatype Parent = Parent(dependsOnColumn: bool, row: nat, columnShifted: bool, pureInsertion: bool)

  function ParentOf(t: Tree, e: EditSpan): Parent {
    Parent(t.DependsOnColumn(), Resized(t, e).0.extent.row, e.ShiftsColumn(), e.IsPureInsertion())
  }

  /** The loop ends at a child that starts past the replaced text, unless columns matter. */
  predicate StopsAt(child: Tree, first: bool, left: Length, e: EditSpan, p: Parent) {
    && (left.bytes > e.oldEnd.bytes
        || (left.bytes == e.oldEnd.bytes && child.Total().bytes > 0 && !first))
    && (!p.dependsOnColumn || left.extent.row > p.row)
    && (!child.DependsOnColumn() || !p.columnShifted || left.extent.row > e.oldEnd.extent.row)
  }

  predicate Absorbs(right: Length, e: EditSpan, p: Parent) {
    right.bytes > e.start.bytes || (right.bytes == e.start.bytes && p.pureInsertion)
  }

  /** The edit handed to each child, if any.  The first child that absorbs the inserted
      text consumes it: later children see an insertion of nothing. */
  function ChildEdits(cs: seq<Tree>, first: bool, left: Length, e: EditSpan, p: Parent): (r: seq<Option<EditSpan>>)
    ensures |r| == |cs|
  {
    if cs == [] then [] else
    var right := Add(left, cs[0].Total());
    if right.bytes + cs[0].Lookahead() < e.start.bytes then
      [None] + ChildEdits(cs[1..], false, right, e, p)
    else if StopsAt(cs[0], first, left, e, p) then
      seq(|cs|, _ => None)
    else
      var start := SaturatingSub(e.start, left);
      if Absorbs(right, e, p) then
        [Some(EditSpan(start, SaturatingSub(e.oldEnd, left), SaturatingSub(e.newEnd, left)))]
        + ChildEdits(cs[1..], false, right, e.(newEnd := e.start), p)
      else
        [Some(EditSpan(start, start, start))] + ChildEdits(cs[1..], false, right, e, p)
  }

  function EditsBelow(t: Tree, e: EditSpan): (r: seq<Option<EditSpan>>)
    ensures |r| == |t.Children()|
  {
    ChildEdits(t.Children(), true, ZERO, e, ParentOf(t, e))
  }

  function Edit(t: Tree, e: EditSpan): Tree
    decreases t, 1
  {
    if Skips(t, e) then t else
    var (padding, size) := Resized(t, e);
    match Rewritten(t, padding, size)
    case Inline(l) => Inline(l)
    case Node(d, _) => 
      match t
      case Inline(_) => Node(d, [])
      case Node(_, cs) => Node(d, EditAll(cs, EditsBelow(t, e)))
  }

  function EditAll(cs: seq<Tree>, es: seq<Option<EditSpan>>): (r: seq<Tree>)
    requires |cs| == |es|
    ensures |r| == |cs|
    decreases cs, 0
  {
    if cs == [] then []
    else [match es[0] case None => cs[0] case Some(e) => Edit(cs[0], e)] + EditAll(cs[1..], es[1..])
  }
}
