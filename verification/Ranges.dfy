/** Included ranges (ranges.go, parser_loop.go:315-322): the sweep that finds which bytes changed their
    inclusion, the intersection query, and the index that skips ranges already passed. */
module Ranges {
  import opened Lengths

  const MAX_BYTE := 0xFFFF_FFFF

  datatype Range = Range(startPoint: Point, endPoint: Point, startByte: nat, endByte: nat)

  function LengthMax(): Length { Length(MAX_BYTE, Point(MAX_BYTE, MAX_BYTE)) }

  predicate Covers(r: Range, b: int) { r.startByte <= b < r.endByte }

  /** The byte lies in one of the ranges. */
  predicate Includes(rs: seq<Range>, b: int) { exists i :: 0 <= i < |rs| && Covers(rs[i], b) }

  /** Ranges in order, possibly empty or touching, none starting at the maximum offset. */
  predicate Ordered(rs: seq<Range>) {
    && (forall i :: 0 <= i < |rs| ==> rs[i].startByte <= rs[i].endByte <= MAX_BYTE && rs[i].startByte < MAX_BYTE)
    && (forall i, j :: 0 <= i < j < |rs| ==> rs[i].endByte <= rs[j].startByte)
  }

  /** Ranges in order, none empty and no two touching. */
  predicate Separated(rs: seq<Range>) {
    && (forall i :: 0 <= i < |rs| ==> rs[i].startByte < rs[i].endByte)
    && (forall i, j :: 0 <= i < j < |rs| ==> rs[i].endByte < rs[j].startByte)
  }

  // ---------------------------------------------------------------- the sweep

  class RangeArray {
    var ranges: seq<Range>

    constructor ()
      ensures ranges == []
    {
      ranges := [];
    }

    function LastEnd(): nat
      reads this
    {
      if ranges == [] then 0 else ranges[|ranges| - 1].endByte
    }

    /** rangeArrayAdd, for a stretch that starts no earlier than everything so far: the array then
        also includes exactly that stretch. */
    method Add(start: Length, end: Length)
      requires Separated(ranges) && LastEnd() <= start.bytes <= end.bytes
      modifies this
      ensures Separated(ranges) && LastEnd() <= end.bytes
      ensures forall b :: Includes(ranges, b) <==> Includes(old(ranges), b) || start.bytes <= b < end.bytes
    {
      ghost var was := ranges;
      if |ranges| > 0 {
        var last := ranges[|ranges| - 1];
        if start.bytes <= last.endByte {
          ranges := ranges[|ranges| - 1 := last.(endByte := end.bytes, endPoint := end.extent)];
          Extended(was, ranges, start.bytes, end.bytes);
          return;
        }
      }
      if start.bytes < end.bytes {
        ranges := ranges + [Range(start.extent, end.extent, start.bytes, end.bytes)];
        Appended(was, ranges, start.bytes, end.bytes);
      }
    }
  }

  lemma Extended(was: seq<Range>, now: seq<Range>, start: nat, end: nat)
    requires |was| == |now| > 0 && now[..|now| - 1] == was[..|was| - 1]
    requires var m := |was| - 1;
      now[m].startByte == was[m].startByte && was[m].endByte == start && now[m].endByte == end && start <= end
      && was[m].startByte <= start
    ensures forall b :: Includes(now, b) <==> Includes(was, b) || start <= b < end
  {
    var m := |was| - 1;
    assert forall i :: 0 <= i < m ==> now[i] == now[..m][i] == was[..m][i] == was[i];
    forall b ensures Includes(now, b) <==> Includes(was, b) || start <= b < end {
      if Includes(was, b) {
        var i :| 0 <= i < |was| && Covers(was[i], b);
        assert Covers(now[i], b);
      }
      if start <= b < end { assert Covers(now[m], b); }
      if Includes(now, b) && !(start <= b < end) {
        var i :| 0 <= i < |now| && Covers(now[i], b);
        assert Covers(was[i], b);
      }
    }
  }

  lemma Appended(was: seq<Range>, now: seq<Range>, start: nat, end: nat)
    requires |now| == |was| + 1 && now[..|was|] == was && now[|was|].startByte == start && now[|was|].endByte == end
    ensures forall b :: Includes(now, b) <==> Includes(was, b) || start <= b < end
  {
    var m := |was|;
    assert forall i :: 0 <= i < m ==> now[i] == now[..m][i] == was[i];
    forall b ensures Includes(now, b) <==> Includes(was, b) || start <= b < end {
      if Includes(was, b) {
        var i :| 0 <= i < |was| && Covers(was[i], b);
        assert Covers(now[i], b);
      }
      if start <= b < end { assert Covers(now[m], b); }
      if Includes(now, b) && !(start <= b < end) {
        var i :| 0 <= i < |now| && Covers(now[i], b);
        assert Covers(was[i], b);
      }
    }
  }

  /** Where the sweep stands in one list: the ranges before `index` end by `at`; the flag says `at`
      is inside range `index`, and otherwise the ranges from `index` on start at or after `at`. */
  predicate Synced(rs: seq<Range>, index: nat, inside: bool, at: nat) {
    && index <= |rs|
    && (forall i :: 0 <= i < index ==> rs[i].endByte <= at)
    && (if inside then index < |rs| && rs[index].startByte <= at <= rs[index].endByte
        else forall i :: index <= i < |rs| ==> at <= rs[i].startByte)
  }

  /** The next boundary of one list. */
  function NextPosition(rs: seq<Range>, index: nat, inside: bool): Length
    requires inside ==> index < |rs|
  {
    if inside then Length(rs[index].endByte, rs[index].endPoint)
    else if index < |rs| then Length(rs[index].startByte, rs[index].startPoint)
    else LengthMax()
  }

  /** Up to the next boundary nothing changes. */
  lemma FlatStretch(rs: seq<Range>, index: nat, inside: bool, at: nat, b: int)
    requires Ordered(rs) && Synced(rs, index, inside, at) && at <= b < NextPosition(rs, index, inside).bytes
    ensures Includes(rs, b) <==> inside
  {
    if inside { assert Covers(rs[index], b); }
  }

  /** Beyond the maximum offset no ordered list includes anything. */
  lemma NothingBeyond(rs: seq<Range>, b: int)
    requires Ordered(rs) && b >= MAX_BYTE
    ensures !Includes(rs, b)
  {
  }

  /** Crossing the boundary keeps a list in step. */
  lemma Crossed(rs: seq<Range>, index: nat, inside: bool, at: nat)
    requires Ordered(rs) && Synced(rs, index, inside, at) && (inside || index < |rs|)
    ensures Synced(rs, if inside then index + 1 else index, !inside, NextPosition(rs, index, inside).bytes)
  {
  }

  /** Moving short of the boundary keeps a list in step. */
  lemma Advanced(rs: seq<Range>, index: nat, inside: bool, at: nat, to: nat)
    requires Ordered(rs) && Synced(rs, index, inside, at) && at <= to <= NextPosition(rs, index, inside).bytes
    ensures Synced(rs, index, inside, to)
  {
  }

  predicate Differ(old': seq<Range>, new': seq<Range>, b: int) { Includes(old', b) != Includes(new', b) }

  /** What the sweep has found when it stands at `at`. */
  ghost predicate Found(old': seq<Range>, new': seq<Range>, out: seq<Range>, at: nat) {
    forall b :: Includes(out, b) <==> b < at && Differ(old', new', b)
  }

  lemma FoundMore(old': seq<Range>, new': seq<Range>, out: seq<Range>, out': seq<Range>, at: nat, to: nat, differ: bool)
    requires Found(old', new', out, at) && at <= to
    requires forall b :: at <= b < to ==> Differ(old', new', b) == differ
    requires forall b :: Includes(out', b) <==> Includes(out, b) || (differ && at <= b < to)
    ensures Found(old', new', out', to)
  {
    hide Includes, Differ;
  }

  lemma LowestFirst(rs: seq<Range>, index: nat, inside: bool, at: nat)
    requires Ordered(rs) && Synced(rs, index, inside, at) && at <= MAX_BYTE
    ensures at <= NextPosition(rs, index, inside).bytes <= MAX_BYTE
  {
  }

  lemma StartSweep(old': seq<Range>, new': seq<Range>)
    requires Ordered(old') && Ordered(new')
    ensures Synced(old', 0, false, 0) && Synced(new', 0, false, 0) && Found(old', new', [], 0) && Separated([])
    ensures |old'| == 0 == |new'| ==> forall b :: !Differ(old', new', b)
  {
  }

  lemma SyncedIndex(rs: seq<Range>, index: nat, inside: bool, at: nat)
    requires Synced(rs, index, inside, at)
    ensures index <= |rs| && (inside ==> index < |rs|)
  {
  }

  lemma BelowMax(rs: seq<Range>, index: nat, inside: bool)
    requires (inside ==> index < |rs|) && NextPosition(rs, index, inside).bytes < MAX_BYTE && index <= |rs|
    ensures inside || index < |rs|
  {
  }

  /** Up to the nearer boundary the two lists differ exactly when their flags do. */
  lemma StretchDiffers(old': seq<Range>, oi: nat, inOld: bool, new': seq<Range>, ni: nat, inNew: bool, at: nat)
    requires Ordered(old') && Ordered(new') && Synced(old', oi, inOld, at) && Synced(new', ni, inNew, at)
    ensures forall b :: at <= b < NextPosition(old', oi, inOld).bytes && b < NextPosition(new', ni, inNew).bytes ==>
              Differ(old', new', b) == (inOld != inNew)
  {
    hide Ordered, Synced, Includes;
    SyncedIndex(old', oi, inOld, at);
    SyncedIndex(new', ni, inNew, at);
    forall b | at <= b < NextPosition(old', oi, inOld).bytes && b < NextPosition(new', ni, inNew).bytes
      ensures Differ(old', new', b) == (inOld != inNew)
    {
      FlatStretch(old', oi, inOld, at, b);
      FlatStretch(new', ni, inNew, at, b);
    }
  }

  /** With both lists used up there is nothing left to differ. */
  lemma EndReached(old': seq<Range>, oi: nat, inOld: bool, new': seq<Range>, ni: nat, inNew: bool, at: nat)
    requires Ordered(old') && Ordered(new') && Synced(old', oi, inOld, at) && Synced(new', ni, inNew, at)
    ensures oi == |old'| && ni == |new'| ==> forall b :: b >= at ==> !Differ(old', new', b)
  {
    if oi == |old'| && ni == |new'| {
      forall b | b >= at ensures !Differ(old', new', b) {
        UsedUp(old', inOld, at, b);
        UsedUp(new', inNew, at, b);
      }
    }
  }

  lemma UsedUp(rs: seq<Range>, inside: bool, at: nat, b: int)
    requires Ordered(rs) && Synced(rs, |rs|, inside, at) && b >= at
    ensures !Includes(rs, b)
  {
  }

  /** Only the last range may end at the maximum offset. */
  lemma LastAtMax(rs: seq<Range>, index: nat)
    requires Ordered(rs)
    ensures index + 1 < |rs| ==> rs[index].endByte < MAX_BYTE
  {
    if index + 1 < |rs| {
      assert rs[index + 1].startByte < MAX_BYTE;
    }
  }

  /** Both lists cross at once: both stay in step, unless one has run out, and then both have. */
  lemma BothCross(old': seq<Range>, oi: nat, inOld: bool, new': seq<Range>, ni: nat, inNew: bool, at: nat)
    requires Ordered(old') && Ordered(new') && Synced(old', oi, inOld, at) && Synced(new', ni, inNew, at)
    requires oi < |old'| || ni < |new'|
    requires NextPosition(old', oi, inOld).bytes == NextPosition(new', ni, inNew).bytes
    ensures var to := NextPosition(new', ni, inNew).bytes;
      var oi', ni' := if inOld then oi + 1 else oi, if inNew then ni + 1 else ni;
      && oi' <= |old'| && ni' <= |new'|
      && ((oi' == |old'| && ni' == |new'|) || (Synced(old', oi', !inOld, to) && Synced(new', ni', !inNew, to)))
      && (oi' == |old'| && ni' == |new'| ==> forall b :: b >= to ==> !Differ(old', new', b))
  {
    hide Includes;
    var to := NextPosition(new', ni, inNew).bytes;
    if (inOld || oi < |old'|) && (inNew || ni < |new'|) {
      Crossed(old', oi, inOld, at);
      Crossed(new', ni, inNew, at);
      EndReached(old', if inOld then oi + 1 else oi, !inOld, new', if inNew then ni + 1 else ni, !inNew, to);
    } else {
      assert to == MAX_BYTE;
      if inOld { LastAtMax(old', oi); }
      if inNew { LastAtMax(new', ni); }
      forall b | b >= to ensures !Differ(old', new', b) {
        NothingBeyond(old', b);
        NothingBeyond(new', b);
      }
    }
  }

  lemma EndSweep(old': seq<Range>, new': seq<Range>, out: seq<Range>, at: nat)
    requires Found(old', new', out, at) && forall b :: b >= at ==> !Differ(old', new', b)
    ensures forall b :: Includes(out, b) <==> Differ(old', new', b)
  {
    hide Includes, Differ;
  }

  /** rangeArrayGetChangedRanges: the output holds exactly the bytes in one list and not in the other,
      as ordered, non-empty ranges that do not touch. */
  method GetChangedRanges(oldRanges: seq<Range>, newRanges: seq<Range>, differences: RangeArray)
    requires Ordered(oldRanges) && Ordered(newRanges) && differences.ranges == []
    modifies differences
    ensures Separated(differences.ranges)
    ensures forall b :: Includes(differences.ranges, b) <==> Differ(oldRanges, newRanges, b)
  {
    hide Includes, Ordered, Separated, Differ, Found, Synced;
    var newIndex, oldIndex := 0, 0;
    var currentPosition := ZERO;
    var inOldRange, inNewRange := false, false;
    StartSweep(oldRanges, newRanges);
    while oldIndex < |oldRanges| || newIndex < |newRanges|
      invariant oldIndex <= |oldRanges| && newIndex <= |newRanges|
      invariant (oldIndex == |oldRanges| && newIndex == |newRanges|) ||
                (Synced(oldRanges, oldIndex, inOldRange, currentPosition.bytes)
                 && Synced(newRanges, newIndex, inNewRange, currentPosition.bytes))
      invariant oldIndex == |oldRanges| && newIndex == |newRanges| ==>
                forall b :: b >= currentPosition.bytes ==> !Differ(oldRanges, newRanges, b)
      invariant Separated(differences.ranges) && differences.LastEnd() <= currentPosition.bytes <= MAX_BYTE
      invariant Found(oldRanges, newRanges, differences.ranges, currentPosition.bytes)
      decreases 2 * (|oldRanges| - oldIndex) + 2 * (|newRanges| - newIndex)
                - (if inOldRange then 1 else 0) - (if inNewRange then 1 else 0)
    {
      SyncedIndex(oldRanges, oldIndex, inOldRange, currentPosition.bytes);
      SyncedIndex(newRanges, newIndex, inNewRange, currentPosition.bytes);
      LowestFirst(oldRanges, oldIndex, inOldRange, currentPosition.bytes);
      LowestFirst(newRanges, newIndex, inNewRange, currentPosition.bytes);
      var nextOldPosition := NextPosition(oldRanges, oldIndex, inOldRange);
      var nextNewPosition := NextPosition(newRanges, newIndex, inNewRange);
      ghost var at, out := currentPosition.bytes, differences.ranges;
      StretchDiffers(oldRanges, oldIndex, inOldRange, newRanges, newIndex, inNewRange, at);
      if nextOldPosition.bytes < nextNewPosition.bytes {
        if inOldRange != inNewRange { differences.Add(currentPosition, nextOldPosition); }
        FoundMore(oldRanges, newRanges, out, differences.ranges, at, nextOldPosition.bytes, inOldRange != inNewRange);
        BelowMax(oldRanges, oldIndex, inOldRange);
        Crossed(oldRanges, oldIndex, inOldRange, at);
        Advanced(newRanges, newIndex, inNewRange, at, nextOldPosition.bytes);
        if inOldRange { oldIndex := oldIndex + 1; }
        currentPosition := nextOldPosition;
        inOldRange := !inOldRange;
        EndReached(oldRanges, oldIndex, inOldRange, newRanges, newIndex, inNewRange, currentPosition.bytes);
      } else if nextNewPosition.bytes < nextOldPosition.bytes {
        if inOldRange != inNewRange { differences.Add(currentPosition, nextNewPosition); }
        FoundMore(oldRanges, newRanges, out, differences.ranges, at, nextNewPosition.bytes, inOldRange != inNewRange);
        BelowMax(newRanges, newIndex, inNewRange);
        Crossed(newRanges, newIndex, inNewRange, at);
        Advanced(oldRanges, oldIndex, inOldRange, at, nextNewPosition.bytes);
        if inNewRange { newIndex := newIndex + 1; }
        currentPosition := nextNewPosition;
        inNewRange := !inNewRange;
        EndReached(oldRanges, oldIndex, inOldRange, newRanges, newIndex, inNewRange, currentPosition.bytes);
      } else {
        if inOldRange != inNewRange { differences.Add(currentPosition, nextNewPosition); }
        FoundMore(oldRanges, newRanges, out, differences.ranges, at, nextNewPosition.bytes, inOldRange != inNewRange);
        BothCross(oldRanges, oldIndex, inOldRange, newRanges, newIndex, inNewRange, at);
        if inOldRange { oldIndex := oldIndex + 1; }
        if inNewRange { newIndex := newIndex + 1; }
        inOldRange, inNewRange := !inOldRange, !inNewRange;
        currentPosition := nextNewPosition;
      }
    }
    EndSweep(oldRanges, newRanges, differences.ranges, currentPosition.bytes);
  }

  // ---------------------------------------------------------------- queries

  function From(rs: seq<Range>, i: nat): seq<Range> { if i <= |rs| then rs[i..] else [] }

  /** A range meets a window: for a non-empty window and range, they share a byte. */
  predicate Meets(r: Range, startByte: nat, endByte: nat) { r.endByte > startByte && r.startByte < endByte }

  /** rangeArrayIntersects on a separated list. */
  method Intersects(self: seq<Range>, startIndex: nat, startByte: nat, endByte: nat) returns (found: bool)
    requires Separated(self)
    ensures found <==> exists i :: startIndex <= i < |self| && Meets(self[i], startByte, endByte)
    ensures startByte < endByte ==>
      (found <==> exists b :: startByte <= b < endByte && Includes(From(self, startIndex), b))
  {
    SharesByte(self, startIndex, startByte, endByte);
    var i := startIndex;
    while i < |self|
      invariant startIndex <= i
      invariant forall j :: startIndex <= j < i && j < |self| ==> !Meets(self[j], startByte, endByte)
    {
      var r := self[i];
      if r.endByte > startByte {
        if r.startByte >= endByte {
          assert forall j :: i < j < |self| ==> !Meets(self[j], startByte, endByte);
          break;
        }
        assert Meets(self[i], startByte, endByte);
        return true;
      }
      i := i + 1;
    }
    return false;
  }

  lemma SharesByte(rs: seq<Range>, from: nat, startByte: nat, endByte: nat)
    requires Separated(rs)
    ensures startByte < endByte ==>
      ((exists i :: from <= i < |rs| && Meets(rs[i], startByte, endByte))
       <==> exists b :: startByte <= b < endByte && Includes(From(rs, from), b))
  {
    var tail := From(rs, from);
    if startByte < endByte {
      if i :| from <= i < |rs| && Meets(rs[i], startByte, endByte) {
        var b := if rs[i].startByte < startByte then startByte else rs[i].startByte;
        assert Covers(tail[i - from], b);
        assert Includes(tail, b);
      }
      if b :| startByte <= b < endByte && Includes(tail, b) {
        var k :| 0 <= k < |tail| && Covers(tail[k], b);
        assert Meets(rs[from + k], startByte, endByte);
      }
    }
  }

  /** The skip inside Parse: past every range that ends at or before the position. */
  method SkipPassed(rs: seq<Range>, index: nat, position: nat) returns (r: nat)
    ensures index <= r && (r <= |rs| || r == index)
    ensures forall i :: index <= i < r ==> rs[i].endByte <= position
    ensures r < |rs| ==> rs[r].endByte > position
  {
    r := index;
    while r < |rs|
      invariant index <= r && (r <= |rs| || r == index)
      invariant forall i :: index <= i < r ==> rs[i].endByte <= position
    {
      if rs[r].endByte > position { break; }
      r := r + 1;
    }
  }

  /** Skipping changes no answer about a window from the position on. */
  lemma SkipKeepsAnswers(rs: seq<Range>, index: nat, r: nat, position: nat, startByte: nat, endByte: nat)
    requires index <= r && (r <= |rs| || r == index) && forall i :: index <= i < r ==> rs[i].endByte <= position
    requires position <= startByte
    ensures (exists i :: index <= i < |rs| && Meets(rs[i], startByte, endByte))
       <==> (exists i :: r <= i < |rs| && Meets(rs[i], startByte, endByte))
  {
    if i :| index <= i < |rs| && Meets(rs[i], startByte, endByte) {
      assert r <= i;
    }
  }

  /** Skipping changes the answer about a window exactly when a range passed meets it and none left does; so
      only about a window that starts before the position. */
  lemma SkipChangesAnAnswer(rs: seq<Range>, index: nat, r: nat, position: nat, startByte: nat, endByte: nat)
    requires index <= r && (r <= |rs| || r == index) && forall i :: index <= i < r ==> rs[i].endByte <= position
    ensures var before := exists i :: index <= i < |rs| && Meets(rs[i], startByte, endByte);
      var after := exists i :: r <= i < |rs| && Meets(rs[i], startByte, endByte);
      && (before != after <==> !after && exists i :: index <= i < r && i < |rs| && Meets(rs[i], startByte, endByte))
      && (before != after ==> startByte < position)
  {
    var before := exists i :: index <= i < |rs| && Meets(rs[i], startByte, endByte);
    if before {
      var i :| index <= i < |rs| && Meets(rs[i], startByte, endByte);
      if i < r { assert rs[i].endByte <= position; }
    }
    if i :| index <= i < r && i < |rs| && Meets(rs[i], startByte, endByte) { assert before; }
  }
}
