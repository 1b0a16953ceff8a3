/** An edit keeps the tree byte-consistent at every level. */
module EditBytes {
  import opened Lengths
  import opened Trees
  import opened EditSpec

  /** The total the program's three size rules agree on: the text before the edit, the
      inserted text, and what the tree had left past the replaced text. */
  function NewTotal(total: nat, e: EditSpan): nat {
    if e.start.bytes < total || (e.start.bytes == total && e.IsPureInsertion()) then
      e.newEnd.bytes + Minus(total, e.oldEnd.bytes)
    else total
  }

  function NewPadding(padding: nat, e: EditSpan): nat {
    if e.oldEnd.bytes <= padding then e.newEnd.bytes + (padding - e.oldEnd.bytes)
    else if e.start.bytes < padding then e.newEnd.bytes
    else padding
  }

  lemma EditRootBytes(t: Tree, e: EditSpan)
    requires e.Ordered()
    ensures Edit(t, e).Total().bytes == NewTotal(t.Total().bytes, e)
    ensures Edit(t, e).Padding().bytes == NewPadding(t.Padding().bytes, e)
    ensures |Edit(t, e).Children()| == |t.Children()|
  {
    var (padding, size) := Resized(t, e);
    if !Skips(t, e) {
      var r := Rewritten(t, padding, size);
      assert Edit(t, e).Total().bytes == padding.bytes + size.bytes;
    }
  }

  /** Where a child boundary ends up: unchanged until the inserted text is absorbed, and
      shifted by the edit afterwards. */
  function Boundary(x: nat, absorbed: bool, s: nat, o: nat, n: nat): nat {
    if absorbed then n + Minus(x, o) else x
  }

  /** Everything the child loop knows about the boundary it stands at. */
  predicate AtBoundary(x: nat, first: bool, absorbed: bool, e: EditSpan, s: nat, o: nat, n: nat) {
    && s <= o && s <= n
    && e.start.bytes == s && e.oldEnd.bytes == o
    && e.newEnd.bytes == (if absorbed then s else n)
    && (if absorbed then x >= s
        else if first then x == 0
        else x < s || (x == s && s != o))
  }

  /** Whether the inserted text has been absorbed once the loop passes a child ending at x. */
  predicate AbsorbedBy(absorbed: bool, x: nat, s: nat, o: nat) {
    absorbed || x > s || (x == s && s == o)
  }

  function EndBoundary(cs: seq<Tree>, x: nat, absorbed: bool, s: nat, o: nat, n: nat): nat {
    var end := x + Bytes(cs);
    Boundary(end, if cs == [] then absorbed else AbsorbedBy(absorbed, end, s, o), s, o, n)
  }

  /** The edited siblings tile the span from where the first now begins to where the last
      now ends. */
  predicate Tiles(cs: seq<Tree>, first: bool, absorbed: bool, left: Length,
                  e: EditSpan, p: Parent, s: nat, o: nat, n: nat)
  {
    Boundary(left.bytes, absorbed, s, o, n) + Bytes(Edited(cs, first, left, e, p))
      == EndBoundary(cs, left.bytes, absorbed, s, o, n)
  }

  /** One child of width w that starts at boundary x and absorbs the edit. */
  lemma AbsorbingChild(x: nat, w: nat, first: bool, absorbed: bool, e: EditSpan, c: EditSpan, s: nat, o: nat, n: nat)
    requires AtBoundary(x, first, absorbed, e, s, o, n)
    requires x + w > s || (x + w == s && s == o)
    requires c.start.bytes == Minus(s, x) && c.oldEnd.bytes == Minus(o, x)
    requires c.newEnd.bytes == Minus(e.newEnd.bytes, x)
    ensures Boundary(x, absorbed, s, o, n) + NewTotal(w, c) == Boundary(x + w, true, s, o, n)
  {
  }

  /** A child before the edit keeps its width. */
  lemma DistantChild(w: nat, c: EditSpan)
    requires c.start.bytes >= w && c.oldEnd.bytes == c.newEnd.bytes == c.start.bytes
    ensures NewTotal(w, c) == w
  {
  }

  function Apply(t: Tree, e: Option<EditSpan>): Tree {
    match e
    case None => t
    case Some(c) => Edit(t, c)
  }

  function Edited(cs: seq<Tree>, first: bool, left: Length, e: EditSpan, p: Parent): seq<Tree> {
    EditAll(cs, ChildEdits(cs, first, left, e, p))
  }

  predicate Reached(cs: seq<Tree>, left: Length, e: EditSpan)
    requires cs != []
  {
    Add(left, cs[0].Total()).bytes + cs[0].Lookahead() >= e.start.bytes
  }

  predicate Passed(cs: seq<Tree>, first: bool, left: Length, e: EditSpan, p: Parent)
    requires cs != []
  {
    Reached(cs, left, e) && !StopsAt(cs[0], first, left, e, p)
  }

  /** The edit of a child that absorbs the inserted text, or follows the one that did. */
  function AbsorbingEdit(left: Length, e: EditSpan): EditSpan {
    EditSpan(SaturatingSub(e.start, left), SaturatingSub(e.oldEnd, left), SaturatingSub(e.newEnd, left))
  }

  /** The edit of a child before the edit that only looked ahead into it. */
  function DistantEdit(left: Length, e: EditSpan): EditSpan {
    var start := SaturatingSub(e.start, left);
    EditSpan(start, start, start)
  }

  lemma EditedNone(first: bool, left: Length, e: EditSpan, p: Parent)
    ensures Edited([], first, left, e, p) == []
  {
  }

  lemma EditedUnreached(cs: seq<Tree>, first: bool, left: Length, e: EditSpan, p: Parent)
    requires cs != [] && !Reached(cs, left, e)
    ensures Edited(cs, first, left, e, p) == [cs[0]] + Edited(cs[1..], false, Add(left, cs[0].Total()), e, p)
  {
    hide Edit;
    assert ChildEdits(cs, first, left, e, p)[1..] == ChildEdits(cs[1..], false, Add(left, cs[0].Total()), e, p);
  }

  lemma EditedStopped(cs: seq<Tree>, first: bool, left: Length, e: EditSpan, p: Parent)
    requires cs != [] && Reached(cs, left, e) && StopsAt(cs[0], first, left, e, p)
    ensures Edited(cs, first, left, e, p) == cs
  {
    Unedited(cs, ChildEdits(cs, first, left, e, p));
  }

  lemma EditedAbsorbing(cs: seq<Tree>, first: bool, left: Length, e: EditSpan, p: Parent)
    requires cs != [] && Passed(cs, first, left, e, p) && Absorbs(Add(left, cs[0].Total()), e, p)
    ensures Edited(cs, first, left, e, p)
         == [Edit(cs[0], AbsorbingEdit(left, e))]
            + Edited(cs[1..], false, Add(left, cs[0].Total()), e.(newEnd := e.start), p)
  {
    hide Edit;
    assert ChildEdits(cs, first, left, e, p)[1..]
        == ChildEdits(cs[1..], false, Add(left, cs[0].Total()), e.(newEnd := e.start), p);
  }

  lemma EditedDistant(cs: seq<Tree>, first: bool, left: Length, e: EditSpan, p: Parent)
    requires cs != [] && Passed(cs, first, left, e, p) && !Absorbs(Add(left, cs[0].Total()), e, p)
    ensures Edited(cs, first, left, e, p)
         == [Edit(cs[0], DistantEdit(left, e))] + Edited(cs[1..], false, Add(left, cs[0].Total()), e, p)
  {
    hide Edit;
    assert ChildEdits(cs, first, left, e, p)[1..] == ChildEdits(cs[1..], false, Add(left, cs[0].Total()), e, p);
  }

  lemma BytesCons(t: Tree, cs: seq<Tree>)
    ensures Bytes([t] + cs) == t.Total().bytes + Bytes(cs)
  {
    assert ([t] + cs)[1..] == cs;
  }

  lemma EndBoundaryStep(cs: seq<Tree>, x: nat, absorbed: bool, s: nat, o: nat, n: nat)
    requires cs != [] && s <= o && (absorbed ==> x >= s)
    ensures EndBoundary(cs, x, absorbed, s, o, n)
         == EndBoundary(cs[1..], x + cs[0].Total().bytes, AbsorbedBy(absorbed, x + cs[0].Total().bytes, s, o), s, o, n)
  {
  }

  lemma TilesCons(cs: seq<Tree>, first: bool, absorbed: bool, left: Length,
                  e: EditSpan, p: Parent, s: nat, o: nat, n: nat, head: Tree, next: EditSpan)
    requires cs != [] && s <= o && (absorbed ==> left.bytes >= s)
    requires Edited(cs, first, left, e, p) == [head] + Edited(cs[1..], false, Add(left, cs[0].Total()), next, p)
    requires Tiles(cs[1..], false, AbsorbedBy(absorbed, left.bytes + cs[0].Total().bytes, s, o),
                   Add(left, cs[0].Total()), next, p, s, o, n)
    requires Boundary(left.bytes, absorbed, s, o, n) + head.Total().bytes
          == Boundary(left.bytes + cs[0].Total().bytes,
                      AbsorbedBy(absorbed, left.bytes + cs[0].Total().bytes, s, o), s, o, n)
    ensures Tiles(cs, first, absorbed, left, e, p, s, o, n)
  {
    hide Edited, Boundary, EndBoundary;
    BytesCons(head, Edited(cs[1..], false, Add(left, cs[0].Total()), next, p));
    EndBoundaryStep(cs, left.bytes, absorbed, s, o, n);
  }

  lemma {:induction false} ChildrenTile(cs: seq<Tree>, first: bool, absorbed: bool, left: Length,
                                       e: EditSpan, p: Parent, s: nat, o: nat, n: nat)
    requires AtBoundary(left.bytes, first, absorbed, e, s, o, n)
    requires p.pureInsertion == (s == o)
    requires first ==> cs != []
    ensures Tiles(cs, first, absorbed, left, e, p, s, o, n)
    decreases cs
  {
    hide Edit, EditAll, ChildEdits, Edited;
    if cs == [] {
      EditedNone(first, left, e, p);
    } else {
      var w, right := cs[0].Total().bytes, Add(left, cs[0].Total());
      if !Reached(cs, left, e) {
        EditedUnreached(cs, first, left, e, p);
        ChildrenTile(cs[1..], false, absorbed, right, e, p, s, o, n);
        TilesCons(cs, first, absorbed, left, e, p, s, o, n, cs[0], e);
      } else if StopsAt(cs[0], first, left, e, p) {
        EditedStopped(cs, first, left, e, p);
      } else if Absorbs(right, e, p) {
        var c, next := AbsorbingEdit(left, e), e.(newEnd := e.start);
        EditedAbsorbing(cs, first, left, e, p);
        EditRootBytes(cs[0], c);
        AbsorbingChild(left.bytes, w, first, absorbed, e, c, s, o, n);
        ChildrenTile(cs[1..], false, true, right, next, p, s, o, n);
        TilesCons(cs, first, absorbed, left, e, p, s, o, n, Edit(cs[0], c), next);
      } else {
        var c := DistantEdit(left, e);
        EditedDistant(cs, first, left, e, p);
        EditRootBytes(cs[0], c);
        DistantChild(w, c);
        ChildrenTile(cs[1..], false, absorbed, right, e, p, s, o, n);
        TilesCons(cs, first, absorbed, left, e, p, s, o, n, Edit(cs[0], c), e);
      }
    }
  }

  lemma {:induction false} Unedited(cs: seq<Tree>, es: seq<Option<EditSpan>>)
    requires |es| == |cs|
    requires forall i :: 0 <= i < |es| ==> es[i] == None
    ensures EditAll(cs, es) == cs
    decreases cs
  {
    if cs != [] {
      Unedited(cs[1..], es[1..]);
    }
  }

  lemma EditAllAt(cs: seq<Tree>, es: seq<Option<EditSpan>>, i: nat)
    requires |es| == |cs| && i < |cs|
    ensures EditAll(cs, es)[i] == Apply(cs[i], es[i])
    decreases cs
  {
    if i > 0 {
      EditAllAt(cs[1..], es[1..], i - 1);
    }
  }

  /** Child edits stay ordered, so the argument repeats one level down. */
  lemma {:induction false} ChildEditsOrdered(cs: seq<Tree>, first: bool, left: Length, e: EditSpan, p: Parent)
    requires e.Ordered()
    ensures forall i :: 0 <= i < |cs| ==>
              var c := ChildEdits(cs, first, left, e, p)[i];
              c.Some? ==> c.value.Ordered()
    decreases cs
  {
    if cs != [] {
      var right := Add(left, cs[0].Total());
      ChildEditsOrdered(cs[1..], false, right, e, p);
      ChildEditsOrdered(cs[1..], false, right, e.(newEnd := e.start), p);
    }
  }

  /** The first child receives the parent's own edit or an empty one past its padding, so
      their paddings move together. */
  lemma FirstPadding(t: Tree, e: EditSpan)
    requires e.Ordered() && !Skips(t, e)
    requires t.Children() != [] && Spans(t)
    ensures Edit(t, e).Children()[0].Padding().bytes == NewPadding(t.Padding().bytes, e)
  {
    var cs := t.Children();
    var es := EditsBelow(t, e);
    EditAllAt(cs, es, 0);
    if es[0].Some? {
      EditRootBytes(cs[0], es[0].value);
    }
  }

  /** Main result: byte-consistency survives any ordered edit, at every level. */
  lemma {:induction false} EditKeepsConsistent(t: Tree, e: EditSpan)
    requires Consistent(t)
    requires e.Ordered()
    ensures Consistent(Edit(t, e))
    ensures Edit(t, e).Total().bytes == NewTotal(t.Total().bytes, e)
    ensures Edit(t, e).Padding().bytes == NewPadding(t.Padding().bytes, e)
    decreases t
  {
    EditRootBytes(t, e);
    if !Skips(t, e) && t.Children() != [] {
      var cs, es := t.Children(), EditsBelow(t, e);
      var s, o, n := e.start.bytes, e.oldEnd.bytes, e.newEnd.bytes;
      ChildrenTile(cs, true, false, ZERO, e, ParentOf(t, e), s, o, n);
      FirstPadding(t, e);
      ChildEditsOrdered(cs, true, ZERO, e, ParentOf(t, e));
      forall i | 0 <= i < |cs| ensures Consistent(EditAll(cs, es)[i]) {
        EditAllAt(cs, es, i);
        if es[i].Some? {
          EditKeepsConsistent(cs[i], es[i].value);
        }
      }
    }
  }
}
