/** Edit marking is sound: over any run of edits, a node left unmarked still stands over
    the very text it was built from, lookahead included. */
module EditReuse {
  import opened Lengths
  import opened Trees
  import opened Texts
  import opened EditSpec
  import opened EditBytes

  /** t, at position p of document d, descends from t0, at position p0 of document d0.
      An unmarked node is its original, it sees the text its original saw, and no ancestor's
      reach (its end plus lookahead; `limit` is the least of them) falls short of its own. */
  ghost predicate Sound(t0: Tree, p0: nat, d0: Text, t: Tree, p: nat, d: Text, limit: int)
    decreases t, 1
  {
    && (!t.HasChanges() ==>
          && t == t0
          && SameText(d0, p0, d, p, t.Total().bytes + t.Lookahead())
          && p + t.Total().bytes + t.Lookahead() <= limit)
    && match t
       case Inline(_) => t0.Children() == []
       case Node(_, cs) =>
         SoundAll(t0.Children(), p0, d0, cs, p, d, Min(limit, p + t.Total().bytes + t.Lookahead()))
  }

  ghost predicate SoundAll(cs0: seq<Tree>, p0: nat, d0: Text, cs: seq<Tree>, p: nat, d: Text, limit: int)
    decreases cs, 0
  {
    && |cs0| == |cs|
    && (cs != [] ==>
          && Sound(cs0[0], p0, d0, cs[0], p, d, limit)
          && SoundAll(cs0[1..], p0 + cs0[0].Total().bytes, d0, cs[1..], p + cs[0].Total().bytes, d, limit))
  }

  /** A node the edit does not reach, moved from p to p' with the text around it. */
  lemma {:induction false} UntouchedSound(t0: Tree, p0: nat, d0: Text, t: Tree, p: nat, d: Text, limit: int,
                                         p': nat, d': Text, limit': int, reach: int)
    requires Sound(t0, p0, d0, t, p, d, limit)
    requires Carries(d, p, d', p', reach) && limit <= p + reach && limit - p + p' <= limit'
    ensures Sound(t0, p0, d0, t, p', d', limit')
    decreases t, 1
  {
    if !t.HasChanges() {
      assert SameText(d, p, d', p', t.Total().bytes + t.Lookahead());
    }
    match t
    case Inline(_) =>
    case Node(_, cs) =>
      var w := p + t.Total().bytes + t.Lookahead();
      UntouchedAllSound(t0.Children(), p0, d0, cs, p, d, Min(limit, w), p', d', Min(limit', w - p + p'), p, p', reach);
  }

  lemma {:induction false} UntouchedAllSound(cs0: seq<Tree>, q0: nat, d0: Text, cs: seq<Tree>, q: nat, d: Text, limit: int,
                                            q': nat, d': Text, limit': int, p: nat, p': nat, reach: int)
    requires SoundAll(cs0, q0, d0, cs, q, d, limit)
    requires p <= q && q' - q == p' - p
    requires Carries(d, p, d', p', reach) && limit <= p + reach && limit - p + p' <= limit'
    ensures SoundAll(cs0, q0, d0, cs, q', d', limit')
    decreases cs, 0
  {
    if cs != [] {
      var w := cs[0].Total().bytes;
      CarriesFrom(d, p, d', p', reach, q - p);
      UntouchedSound(cs0[0], q0, d0, cs[0], q, d, limit, q', d', limit', reach - (q - p));
      UntouchedAllSound(cs0[1..], q0 + cs0[0].Total().bytes, d0, cs[1..], q + w, d, limit,
                        q' + w, d', limit', p, p', reach);
    }
  }

  /** Where a node stands when the edit [s, o) -> n reaches it, and the edit it receives.
      Facing: at or before the edit, which it may absorb.  Shifted: past the absorbed text.
      Ahead: wholly before the edit.  Collapsed: empty, strictly inside the replaced text. */
  datatype Place = Facing | Shifted | Ahead | Collapsed

  function AbsorbingPlace(m: Place, absorbed: bool): Place {
    if m.Facing? && !absorbed then Facing else Shifted
  }

  function DistantPlace(m: Place): Place {
    if m.Facing? then Ahead else Collapsed
  }

  predicate Placed(m: Place, width: nat, p: nat, p': nat, e: EditSpan, s: nat, o: nat, n: nat) {
    var (es, eo, en) := (e.start.bytes, e.oldEnd.bytes, e.newEnd.bytes);
    s <= o && s <= n &&
    match m
    case Facing => p <= s && p' == p && es == s - p && eo == o - p && en == n - p
    case Shifted => (p > s || (p == s == o)) && p' == n + Minus(p, o) && es == 0 && eo == Minus(o, p) && en == 0
    case Ahead => p + width <= s && !(p + width == s == o) && p' == p && es == eo == en == s - p
    case Collapsed => s < p < o && width == 0 && p' == n && es == eo == en == 0
  }

  /** How far an ancestor's reach must move for the nodes below, which end by `end`. */
  predicate ReachMoves(end: nat, limit: int, limit': int, s: nat, o: nat, n: nat) {
    && Min(limit, s) <= limit'
    && (end >= o ==> limit - o + n <= limit')
    && (end > s || (end == s == o) ==> n <= limit')
  }

  lemma OwnReachMoves(m: Place, width: nat, look: nat, p: nat, p': nat, e: EditSpan, s: nat, o: nat, n: nat)
    requires Placed(m, width, p, p', e, s, o, n)
    ensures ReachMoves(p + width, p + width + look, p' + NewTotal(width, e) + look, s, o, n)
  {
  }

  /** A child that absorbs the edit, or comes after the one that did. */
  lemma AbsorbingPlaced(m: Place, width: nat, p: nat, p': nat, e: EditSpan, x: nat, w: nat, first: bool, absorbed: bool,
                        cur: EditSpan, c: EditSpan, s: nat, o: nat, n: nat)
    requires m.Facing? || m.Shifted?
    requires Placed(m, width, p, p', e, s, o, n)
    requires AtBoundary(x, first, absorbed, cur, e.start.bytes, e.oldEnd.bytes, e.newEnd.bytes)
    requires absorbed ==> x > e.start.bytes || (x == e.start.bytes == e.oldEnd.bytes)
    requires x + w > e.start.bytes || (x + w == e.start.bytes == e.oldEnd.bytes)
    requires c.start.bytes == Minus(cur.start.bytes, x) && c.oldEnd.bytes == Minus(cur.oldEnd.bytes, x)
    requires c.newEnd.bytes == Minus(cur.newEnd.bytes, x)
    ensures Placed(AbsorbingPlace(m, absorbed), w, p + x,
                   p' + Boundary(x, absorbed, e.start.bytes, e.oldEnd.bytes, e.newEnd.bytes), c, s, o, n)
  {
  }

  /** A child the edit reaches through its lookahead only. */
  lemma DistantPlaced(m: Place, width: nat, p: nat, p': nat, e: EditSpan, x: nat, w: nat, first: bool, absorbed: bool,
                      cur: EditSpan, c: EditSpan, s: nat, o: nat, n: nat)
    requires m.Facing? || m.Shifted?
    requires Placed(m, width, p, p', e, s, o, n)
    requires AtBoundary(x, first, absorbed, cur, e.start.bytes, e.oldEnd.bytes, e.newEnd.bytes)
    requires absorbed ==> x > e.start.bytes || (x == e.start.bytes == e.oldEnd.bytes)
    requires x + w <= e.start.bytes && !(x + w == e.start.bytes == e.oldEnd.bytes)
    requires c.start.bytes == c.oldEnd.bytes == c.newEnd.bytes == Minus(cur.start.bytes, x)
    ensures !absorbed
    ensures Placed(DistantPlace(m), w, p + x,
                   p' + Boundary(x, absorbed, e.start.bytes, e.oldEnd.bytes, e.newEnd.bytes), c, s, o, n)
  {
  }

  /** The edit skips the node: the text it stands over, to the end of its reach, moves with it. */
  lemma SkippedSound(t0: Tree, p0: nat, d0: Text, t: Tree, p: nat, d: Text, limit: int,
                     m: Place, p': nat, e: EditSpan, s: nat, o: nat, inserted: Text, limit': int)
    requires Sound(t0, p0, d0, t, p, d, limit)
    requires s <= o <= |d|
    requires Placed(m, t.Total().bytes, p, p', e, s, o, s + |inserted|)
    requires ReachMoves(p + t.Total().bytes, limit, limit', s, o, s + |inserted|)
    requires Skips(t, e)
    ensures Sound(t0, p0, d0, t, p', Splice(d, s, o, inserted), limit')
  {
    var d' := Splice(d, s, o, inserted);
    var w := p + t.Total().bytes + t.Lookahead();
    assert Sound(t0, p0, d0, t, p, d, Min(limit, w));
    match m
    case Facing =>
      CarriesBefore(d, s, o, inserted, p);
      UntouchedSound(t0, p0, d0, t, p, d, Min(limit, w), p', d', limit', s - p);
    case Ahead =>
      CarriesBefore(d, s, o, inserted, p);
      UntouchedSound(t0, p0, d0, t, p, d, Min(limit, w), p', d', limit', s - p);
    case Shifted =>
      CarriesAfter(d, s, o, inserted, p, 0);
      UntouchedSound(t0, p0, d0, t, p, d, Min(limit, w), p', d', limit', 0);
    case Collapsed =>
      CarriesNothing(d, p, d', p');
      UntouchedSound(t0, p0, d0, t, p, d, Min(limit, w), p', d', limit', 0);
  }

  /** The first child keeps its tree (the edit ends before it is reached). */
  lemma UnreachedSound(t0: Tree, p0: nat, d0: Text, t: Tree, p: nat, d: Text, limit: int,
                       s: nat, o: nat, inserted: Text, limit': int)
    requires Sound(t0, p0, d0, t, p, d, limit)
    requires s <= o <= |d| && p + t.Total().bytes + t.Lookahead() <= s && Min(limit, s) <= limit'
    ensures Sound(t0, p0, d0, t, p, Splice(d, s, o, inserted), limit')
  {
    var w := p + t.Total().bytes + t.Lookahead();
    CarriesBefore(d, s, o, inserted, p);
    UntouchedSound(t0, p0, d0, t, p, d, Min(limit, w), p, Splice(d, s, o, inserted), limit', s - p);
  }

  lemma RestSound(cs0: seq<Tree>, q0: nat, d0: Text, cs: seq<Tree>, q: nat, d: Text, limit: int,
                  s: nat, o: nat, inserted: Text, limit': int)
    requires SoundAll(cs0, q0, d0, cs, q, d, limit)
    requires s <= o <= |d| && o <= q && limit - o + s + |inserted| <= limit'
    ensures SoundAll(cs0, q0, d0, cs, s + |inserted| + (q - o), Splice(d, s, o, inserted), limit')
  {
    var q' := s + |inserted| + (q - o);
    CarriesAfter(d, s, o, inserted, q, limit - q);
    UntouchedAllSound(cs0, q0, d0, cs, q, d, limit, q', Splice(d, s, o, inserted), limit', q, q', limit - q);
  }

  lemma VisitedSound(t0: Tree, p0: nat, d0: Text, t: Tree, e: EditSpan, p': nat, d': Text, limit': int)
    requires !Skips(t, e) && |t0.Children()| == |t.Children()| && e.Ordered()
    requires SoundAll(t0.Children(), p0, d0, Edited(t.Children(), true, ZERO, e, ParentOf(t, e)), p', d',
                      Min(limit', p' + NewTotal(t.Total().bytes, e) + t.Lookahead()))
    ensures Sound(t0, p0, d0, Edit(t, e), p', d', limit')
  {
    EditRootBytes(t, e);
  }

  lemma EditSkipped(t: Tree, e: EditSpan)
    requires Skips(t, e)
    ensures Edit(t, e) == t
  {
  }

  lemma VisitedLeafSound(t0: Tree, p0: nat, d0: Text, t: Tree, e: EditSpan, p': nat, d': Text, limit': int)
    requires !Skips(t, e) && t.Inline? && |t0.Children()| == |t.Children()|
    ensures Sound(t0, p0, d0, Edit(t, e), p', d', limit')
  {
  }

  /** The child loop of a node: its place, its width, the edit it received, what it keeps
      from the parent, and the edit [s, o) -> inserted of the document. */
  datatype Loop = Loop(m: Place, width: nat, p: nat, p': nat, e: EditSpan, parent: Parent,
                       s: nat, o: nat, inserted: Text)
  {
    function N(): nat { s + |inserted| }

    function Shifted(x: nat, absorbed: bool): nat {
      p' + Boundary(x, absorbed, e.start.bytes, e.oldEnd.bytes, e.newEnd.bytes)
    }

    predicate Live(cs: seq<Tree>, first: bool, absorbed: bool, left: Length, cur: EditSpan) {
      && (m.Facing? || m.Shifted?)
      && Placed(m, width, p, p', e, s, o, N())
      && parent.pureInsertion == (e.start.bytes == e.oldEnd.bytes)
      && AtBoundary(left.bytes, first, absorbed, cur, e.start.bytes, e.oldEnd.bytes, e.newEnd.bytes)
      && (absorbed ==> left.bytes > e.start.bytes || (left.bytes == e.start.bytes == e.oldEnd.bytes))
      && (cs == [] || left.bytes + Bytes(cs) == width)
    }

    predicate Inert(cs: seq<Tree>, left: Length, cur: EditSpan) {
      && (m.Ahead? || m.Collapsed?)
      && Placed(m, width, p, p', e, s, o, N())
      && cur.start.bytes == cur.oldEnd.bytes == cur.newEnd.bytes == e.start.bytes
      && (cs == [] || left.bytes + Bytes(cs) == width)
    }
  }

  lemma SoundCons(cs0: seq<Tree>, q0: nat, d0: Text, head: Tree, tail: seq<Tree>, q: nat, d: Text, limit: int)
    requires |cs0| == |tail| + 1
    requires Sound(cs0[0], q0, d0, head, q, d, limit)
    requires SoundAll(cs0[1..], q0 + cs0[0].Total().bytes, d0, tail, q + head.Total().bytes, d, limit)
    ensures SoundAll(cs0, q0, d0, [head] + tail, q, d, limit)
  {
    assert ([head] + tail)[1..] == tail;
  }

  lemma SoundSplit(cs0: seq<Tree>, q0: nat, d0: Text, cs: seq<Tree>, q: nat, d: Text, limit: int)
    requires cs != [] && SoundAll(cs0, q0, d0, cs, q, d, limit) && AllConsistent(cs)
    ensures Consistent(cs[0]) && AllConsistent(cs[1..])
    ensures |cs0| == |cs| && Sound(cs0[0], q0, d0, cs[0], q, d, limit)
    ensures SoundAll(cs0[1..], q0 + cs0[0].Total().bytes, d0, cs[1..], q + cs[0].Total().bytes, d, limit)
  {
  }

  lemma ReachMovesWithin(end: nat, end': nat, limit: int, limit': int, s: nat, o: nat, n: nat)
    requires ReachMoves(end, limit, limit', s, o, n) && end' <= end && s <= o
    ensures ReachMoves(end', limit, limit', s, o, n)
  {
  }

  lemma LiveStepAbsorbing(l: Loop, cs: seq<Tree>, first: bool, absorbed: bool, left: Length, cur: EditSpan)
    requires cs != [] && l.Live(cs, first, absorbed, left, cur)
    requires Absorbs(Add(left, cs[0].Total()), cur, l.parent)
    ensures var c, right := AbsorbingEdit(left, cur), Add(left, cs[0].Total());
            && Placed(AbsorbingPlace(l.m, absorbed), cs[0].Total().bytes, l.p + left.bytes,
                      l.Shifted(left.bytes, absorbed), c, l.s, l.o, l.N())
            && l.Live(cs[1..], false, true, right, cur.(newEnd := cur.start))
            && l.Shifted(right.bytes, true) == l.Shifted(left.bytes, absorbed) + NewTotal(cs[0].Total().bytes, c)
            && right.bytes == left.bytes + cs[0].Total().bytes <= l.width
            && c.Ordered() && l.N() == l.s + |l.inserted|
  {
    var c, w := AbsorbingEdit(left, cur), cs[0].Total().bytes;
    AbsorbingPlaced(l.m, l.width, l.p, l.p', l.e, left.bytes, w, first, absorbed, cur, c, l.s, l.o, l.N());
    AbsorbingChild(left.bytes, w, first, absorbed, cur, c, l.e.start.bytes, l.e.oldEnd.bytes, l.e.newEnd.bytes);
  }

  lemma LiveStepDistant(l: Loop, cs: seq<Tree>, first: bool, absorbed: bool, left: Length, cur: EditSpan)
    requires cs != [] && l.Live(cs, first, absorbed, left, cur)
    requires !Absorbs(Add(left, cs[0].Total()), cur, l.parent)
    ensures var c, right := DistantEdit(left, cur), Add(left, cs[0].Total());
            && Placed(DistantPlace(l.m), cs[0].Total().bytes, l.p + left.bytes,
                      l.Shifted(left.bytes, absorbed), c, l.s, l.o, l.N())
            && l.Live(cs[1..], false, absorbed, right, cur)
            && l.Shifted(right.bytes, absorbed) == l.Shifted(left.bytes, absorbed) + NewTotal(cs[0].Total().bytes, c)
            && right.bytes == left.bytes + cs[0].Total().bytes <= l.width
            && c.Ordered() && l.N() == l.s + |l.inserted|
  {
    var c, w := DistantEdit(left, cur), cs[0].Total().bytes;
    DistantPlaced(l.m, l.width, l.p, l.p', l.e, left.bytes, w, first, absorbed, cur, c, l.s, l.o, l.N());
    DistantChild(w, c);
  }

  /** A visited node starts its child loop at its own padding, within its own reach. */
  lemma EnterLoop(t: Tree, p: nat, m: Place, p': nat, e: EditSpan, s: nat, o: nat, inserted: Text, limit: int, limit': int)
    requires t.Node? && Consistent(t)
    requires Placed(m, t.Total().bytes, p, p', e, s, o, s + |inserted|)
    requires ReachMoves(p + t.Total().bytes, limit, limit', s, o, s + |inserted|)
    ensures var width, look := t.Total().bytes, t.Lookahead();
            var l := Loop(m, width, p, p', e, ParentOf(t, e), s, o, inserted);
            && e.Ordered() && AllConsistent(t.children) && l.N() == s + |inserted| && s <= o
            && (if m.Facing? || m.Shifted? then l.Live(t.children, true, false, ZERO, e)
                else l.Inert(t.children, ZERO, e))
            && p + ZERO.bytes == p && p' + ZERO.bytes == p' && l.Shifted(ZERO.bytes, false) == p'
            && ReachMoves(p + width, Min(limit, p + width + look), Min(limit', p' + NewTotal(width, e) + look),
                          s, o, s + |inserted|)
  {
    OwnReachMoves(m, t.Total().bytes, t.Lookahead(), p, p', e, s, o, s + |inserted|);
  }

  lemma SoundChildren(t0: Tree, p0: nat, d0: Text, t: Tree, p: nat, d: Text, limit: int)
    requires Sound(t0, p0, d0, t, p, d, limit)
    ensures |t0.Children()| == |t.Children()|
    ensures t.Node? ==> t.Children() == t.children && SoundAll(t0.Children(), p0, d0, t.children, p, d,
                                 Min(limit, p + t.Total().bytes + t.Lookahead()))
  {
  }

  /** One edit keeps the whole tree sound, whatever place it holds. */
  lemma {:induction false} EditSound(t0: Tree, p0: nat, d0: Text, t: Tree, p: nat, d: Text, limit: int,
                                    m: Place, p': nat, e: EditSpan, s: nat, o: nat, inserted: Text, limit': int)
    requires Sound(t0, p0, d0, t, p, d, limit) && Consistent(t)
    requires s <= o <= |d|
    requires Placed(m, t.Total().bytes, p, p', e, s, o, s + |inserted|)
    requires ReachMoves(p + t.Total().bytes, limit, limit', s, o, s + |inserted|)
    ensures Sound(t0, p0, d0, Edit(t, e), p', Splice(d, s, o, inserted), limit')
    decreases t, 3
  {
    hide *;
    if Skips(t, e) {
      SkippedSound(t0, p0, d0, t, p, d, limit, m, p', e, s, o, inserted, limit');
      EditSkipped(t, e);
    } else {
      SoundChildren(t0, p0, d0, t, p, d, limit);
      if t.Node? {
        var width, look := t.Total().bytes, t.Lookahead();
        var l := Loop(m, width, p, p', e, ParentOf(t, e), s, o, inserted);
        var below, below' := Min(limit, p + width + look), Min(limit', p' + NewTotal(width, e) + look);
        EnterLoop(t, p, m, p', e, s, o, inserted, limit, limit');
        if m.Facing? || m.Shifted? {
          LiveSound(t0.Children(), p0, d0, t.children, d, below, l, true, false, ZERO, e, below');
        } else {
          InertSound(t0.Children(), p0, d0, t.children, d, below, l, true, ZERO, e, below');
        }
        VisitedSound(t0, p0, d0, t, e, p', Splice(d, s, o, inserted), limit');
      } else {
        VisitedLeafSound(t0, p0, d0, t, e, p', Splice(d, s, o, inserted), limit');
      }
    }
  }

  lemma {:induction false} LiveSound(cs0: seq<Tree>, q0: nat, d0: Text, cs: seq<Tree>, d: Text, limit: int, l: Loop,
                                    first: bool, absorbed: bool, left: Length, cur: EditSpan, limit': int)
    requires l.Live(cs, first, absorbed, left, cur) && l.s <= l.o <= |d|
    requires SoundAll(cs0, q0, d0, cs, l.p + left.bytes, d, limit) && AllConsistent(cs)
    requires ReachMoves(l.p + l.width, limit, limit', l.s, l.o, l.N())
    ensures SoundAll(cs0, q0, d0, Edited(cs, first, left, cur, l.parent), l.Shifted(left.bytes, absorbed),
                     Splice(d, l.s, l.o, l.inserted), limit')
    decreases cs, 2
  {
    if cs != [] {
      if !Reached(cs, left, cur) {
        LiveUnreached(cs0, q0, d0, cs, d, limit, l, first, absorbed, left, cur, limit');
      } else if StopsAt(cs[0], first, left, cur, l.parent) {
        EditedStopped(cs, first, left, cur, l.parent);
        RestSound(cs0, q0, d0, cs, l.p + left.bytes, d, limit, l.s, l.o, l.inserted, limit');
      } else if Absorbs(Add(left, cs[0].Total()), cur, l.parent) {
        LiveAbsorbing(cs0, q0, d0, cs, d, limit, l, first, absorbed, left, cur, limit');
      } else {
        LiveDistant(cs0, q0, d0, cs, d, limit, l, first, absorbed, left, cur, limit');
      }
    }
  }

  lemma {:induction false} LiveUnreached(cs0: seq<Tree>, q0: nat, d0: Text, cs: seq<Tree>, d: Text, limit: int, l: Loop,
                                        first: bool, absorbed: bool, left: Length, cur: EditSpan, limit': int)
    requires cs != [] && l.Live(cs, first, absorbed, left, cur) && l.s <= l.o <= |d|
    requires SoundAll(cs0, q0, d0, cs, l.p + left.bytes, d, limit) && AllConsistent(cs)
    requires ReachMoves(l.p + l.width, limit, limit', l.s, l.o, l.N())
    requires !Reached(cs, left, cur)
    ensures SoundAll(cs0, q0, d0, Edited(cs, first, left, cur, l.parent), l.Shifted(left.bytes, absorbed),
                     Splice(d, l.s, l.o, l.inserted), limit')
    decreases cs, 1
  {
    var right := Add(left, cs[0].Total());
    hide Edit, EditAll, ChildEdits, Edited, Sound;
    EditedUnreached(cs, first, left, cur, l.parent);
    UnreachedSound(cs0[0], q0, d0, cs[0], l.p + left.bytes, d, limit, l.s, l.o, l.inserted, limit');
    LiveSound(cs0[1..], q0 + cs0[0].Total().bytes, d0, cs[1..], d, limit, l, false, absorbed, right, cur, limit');
    SoundCons(cs0, q0, d0, cs[0], Edited(cs[1..], false, right, cur, l.parent), l.Shifted(left.bytes, absorbed),
              Splice(d, l.s, l.o, l.inserted), limit');
  }

  lemma {:induction false} LiveAbsorbing(cs0: seq<Tree>, q0: nat, d0: Text, cs: seq<Tree>, d: Text, limit: int, l: Loop,
                                        first: bool, absorbed: bool, left: Length, cur: EditSpan, limit': int)
    requires cs != [] && l.Live(cs, first, absorbed, left, cur) && l.s <= l.o <= |d|
    requires SoundAll(cs0, q0, d0, cs, l.p + left.bytes, d, limit) && AllConsistent(cs)
    requires ReachMoves(l.p + l.width, limit, limit', l.s, l.o, l.N())
    requires Passed(cs, first, left, cur, l.parent) && Absorbs(Add(left, cs[0].Total()), cur, l.parent)
    ensures SoundAll(cs0, q0, d0, Edited(cs, first, left, cur, l.parent), l.Shifted(left.bytes, absorbed),
                     Splice(d, l.s, l.o, l.inserted), limit')
    decreases cs, 1
  {
    hide *;
    var right, next, c := Add(left, cs[0].Total()), cur.(newEnd := cur.start), AbsorbingEdit(left, cur);
    var w, q' := cs[0].Total().bytes, l.Shifted(left.bytes, absorbed);
    LiveStepAbsorbing(l, cs, first, absorbed, left, cur);
    SoundSplit(cs0, q0, d0, cs, l.p + left.bytes, d, limit);
    EditedAbsorbing(cs, first, left, cur, l.parent);
    EditRootBytes(cs[0], c);
    ReachMovesWithin(l.p + l.width, l.p + right.bytes, limit, limit', l.s, l.o, l.N());
    EditSound(cs0[0], q0, d0, cs[0], l.p + left.bytes, d, limit, AbsorbingPlace(l.m, absorbed), q', c,
              l.s, l.o, l.inserted, limit');
    LiveSound(cs0[1..], q0 + cs0[0].Total().bytes, d0, cs[1..], d, limit, l, false, true, right, next, limit');
    SoundCons(cs0, q0, d0, Edit(cs[0], c), Edited(cs[1..], false, right, next, l.parent), q',
              Splice(d, l.s, l.o, l.inserted), limit');
  }

  lemma {:induction false} LiveDistant(cs0: seq<Tree>, q0: nat, d0: Text, cs: seq<Tree>, d: Text, limit: int, l: Loop,
                                      first: bool, absorbed: bool, left: Length, cur: EditSpan, limit': int)
    requires cs != [] && l.Live(cs, first, absorbed, left, cur) && l.s <= l.o <= |d|
    requires SoundAll(cs0, q0, d0, cs, l.p + left.bytes, d, limit) && AllConsistent(cs)
    requires ReachMoves(l.p + l.width, limit, limit', l.s, l.o, l.N())
    requires Passed(cs, first, left, cur, l.parent) && !Absorbs(Add(left, cs[0].Total()), cur, l.parent)
    ensures SoundAll(cs0, q0, d0, Edited(cs, first, left, cur, l.parent), l.Shifted(left.bytes, absorbed),
                     Splice(d, l.s, l.o, l.inserted), limit')
    decreases cs, 1
  {
    hide *;
    var right, c := Add(left, cs[0].Total()), DistantEdit(left, cur);
    var w, q' := cs[0].Total().bytes, l.Shifted(left.bytes, absorbed);
    LiveStepDistant(l, cs, first, absorbed, left, cur);
    SoundSplit(cs0, q0, d0, cs, l.p + left.bytes, d, limit);
    EditedDistant(cs, first, left, cur, l.parent);
    EditRootBytes(cs[0], c);
    ReachMovesWithin(l.p + l.width, l.p + right.bytes, limit, limit', l.s, l.o, l.N());
    EditSound(cs0[0], q0, d0, cs[0], l.p + left.bytes, d, limit, DistantPlace(l.m), q', c,
              l.s, l.o, l.inserted, limit');
    LiveSound(cs0[1..], q0 + cs0[0].Total().bytes, d0, cs[1..], d, limit, l, false, absorbed, right, cur, limit');
    SoundCons(cs0, q0, d0, Edit(cs[0], c), Edited(cs[1..], false, right, cur, l.parent), q',
              Splice(d, l.s, l.o, l.inserted), limit');
  }

  lemma {:induction false} InertSound(cs0: seq<Tree>, q0: nat, d0: Text, cs: seq<Tree>, d: Text, limit: int, l: Loop,
                                     first: bool, left: Length, cur: EditSpan, limit': int)
    requires l.Inert(cs, left, cur) && l.s <= l.o <= |d|
    requires SoundAll(cs0, q0, d0, cs, l.p + left.bytes, d, limit) && AllConsistent(cs)
    requires ReachMoves(l.p + l.width, limit, limit', l.s, l.o, l.N())
    ensures SoundAll(cs0, q0, d0, Edited(cs, first, left, cur, l.parent), l.p' + left.bytes,
                     Splice(d, l.s, l.o, l.inserted), limit')
    decreases cs, 1
  {
    hide Edit, EditAll, ChildEdits, Edited, Sound;
    if cs == [] {
      EditedNone(first, left, cur, l.parent);
    } else if Reached(cs, left, cur) {
      InertReached(cs0, q0, d0, cs, d, limit, l, first, left, cur, limit');
    } else {
      var right := Add(left, cs[0].Total());
      EditedUnreached(cs, first, left, cur, l.parent);
      UnreachedSound(cs0[0], q0, d0, cs[0], l.p + left.bytes, d, limit, l.s, l.o, l.inserted, limit');
      InertSound(cs0[1..], q0 + cs0[0].Total().bytes, d0, cs[1..], d, limit, l, false, right, cur, limit');
      SoundCons(cs0, q0, d0, cs[0], Edited(cs[1..], false, right, cur, l.parent), l.p' + left.bytes,
                Splice(d, l.s, l.o, l.inserted), limit');
    }
  }

  lemma {:induction false} InertReached(cs0: seq<Tree>, q0: nat, d0: Text, cs: seq<Tree>, d: Text, limit: int, l: Loop,
                                       first: bool, left: Length, cur: EditSpan, limit': int)
    requires cs != [] && l.Inert(cs, left, cur) && l.s <= l.o <= |d|
    requires SoundAll(cs0, q0, d0, cs, l.p + left.bytes, d, limit) && AllConsistent(cs)
    requires ReachMoves(l.p + l.width, limit, limit', l.s, l.o, l.N())
    requires Reached(cs, left, cur)
    ensures SoundAll(cs0, q0, d0, Edited(cs, first, left, cur, l.parent), l.p' + left.bytes,
                     Splice(d, l.s, l.o, l.inserted), limit')
    decreases cs, 0
  {
    hide Edit, EditAll, ChildEdits, Edited, Sound, Splice, Consistent;
    var right := Add(left, cs[0].Total());
    var absorbs := Absorbs(right, cur, l.parent);
    var c := if absorbs then AbsorbingEdit(left, cur) else DistantEdit(left, cur);
    var next := if absorbs then cur.(newEnd := cur.start) else cur;
    if absorbs {
      EditedAbsorbing(cs, first, left, cur, l.parent);
    } else {
      EditedDistant(cs, first, left, cur, l.parent);
    }
    EditRootBytes(cs[0], c);
    DistantChild(cs[0].Total().bytes, c);
    EditSound(cs0[0], q0, d0, cs[0], l.p + left.bytes, d, limit, l.m, l.p' + left.bytes, c, l.s, l.o, l.inserted, limit');
    InertSound(cs0[1..], q0 + cs0[0].Total().bytes, d0, cs[1..], d, limit, l, false, right, next, limit');
    SoundCons(cs0, q0, d0, Edit(cs[0], c), Edited(cs[1..], false, right, next, l.parent), l.p' + left.bytes,
              Splice(d, l.s, l.o, l.inserted), limit');
  }
}
