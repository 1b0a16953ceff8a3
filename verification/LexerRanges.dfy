/** Reading a well-formed UTF-8 document over any list of included ranges: the lexer sees the code points the
    ranges hold, in order, each at its own byte, and nothing else. */
module LexerRanges {
  import opened Lengths
  import opened EditSpec
  import opened Ranges
  import opened Utf8
  import opened Lexer
  import opened LexerText

  /** Ranges in order, each of them framed by code points. */
  ghost predicate AllFramed(fs: seq<Frame>, cps: seq<int>)
    requires Scalars(cps)
  {
    && fs != [] && (forall i :: 0 <= i < |fs| ==> Framed(fs[i], cps))
    && forall i, j :: 0 <= i < j < |fs| ==> fs[i].range.endByte <= fs[j].range.startByte
  }

  function RangesOf(fs: seq<Frame>): (rs: seq<Range>)
    ensures |rs| == |fs| && forall i :: 0 <= i < |fs| ==> rs[i] == fs[i].range
  {
    if fs == [] then [] else [fs[0].range] + RangesOf(fs[1..])
  }

  function Upto(k: nat, last: nat): seq<nat>
    decreases last - k
  {
    if k >= last then [] else [k] + Upto(k + 1, last)
  }

  /** The code points the ranges from i on hold. */
  function Places(fs: seq<Frame>, i: nat): seq<nat>
    decreases |fs| - i
  {
    if i >= |fs| then [] else Upto(fs[i].first, fs[i].last) + Places(fs, i + 1)
  }

  /** Those from code point k of range i on. */
  function Ahead(fs: seq<Frame>, i: nat, k: nat): seq<nat>
    requires i < |fs|
  {
    Upto(k, fs[i].last) + Places(fs, i + 1)
  }

  /** What is left once code point k has been passed. */
  lemma AheadNext(fs: seq<Frame>, i: nat, k: nat)
    requires i < |fs| && fs[i].first <= k < fs[i].last
    ensures Ahead(fs, i, k) != [] && Ahead(fs, i, k)[0] == k
    ensures Ahead(fs, i, k)[1..] == if k + 1 < fs[i].last then Ahead(fs, i, k + 1) else Places(fs, i + 1)
  {
    assert Upto(k, fs[i].last) == [k] + Upto(k + 1, fs[i].last);
    assert Ahead(fs, i, k) == [k] + (Upto(k + 1, fs[i].last) + Places(fs, i + 1));
    if k + 1 == fs[i].last { assert Upto(k + 1, fs[i].last) == []; }
  }

  /** What a range adds to the ones behind it. */
  lemma PlacesFrom(fs: seq<Frame>, i: nat)
    requires i <= |fs|
    ensures i < |fs| ==> Places(fs, i) == if fs[i].first < fs[i].last then Ahead(fs, i, fs[i].first) else Places(fs, i + 1)
    ensures i == |fs| ==> Places(fs, i) == []
  {
    if i < |fs| && fs[i].first >= fs[i].last {
      assert Places(fs, i) == [] + Places(fs, i + 1);
    }
  }

  /** The lexer stands before code point k of range i. */
  ghost predicate Stands(s: State, cps: seq<int>, fs: seq<Frame>, i: nat, k: nat)
    requires Scalars(cps) && AllFramed(fs, cps)
  {
    && i < |fs| && fs[i].first <= k < fs[i].last && s.ranges == RangesOf(fs) && s.rangeIndex == i
    && s.pos == PositionAt(cps, k) && s.InChunk() && Holding(s, cps)
    && s.lookahead == cps[k] && s.lookaheadSize == |Encode(cps[k])|
  }

  /** Or has nothing left to read. */
  predicate Spent(s: State, fs: seq<Frame>) { s.ranges == RangesOf(fs) && s.Eof() && s.chunk == [] }

  /** What is left to read. */
  ghost predicate Left(s: State, cps: seq<int>, fs: seq<Frame>, left: seq<nat>)
    requires Scalars(cps) && AllFramed(fs, cps)
  {
    if left == [] then Spent(s, fs)
    else exists i :: 0 <= i < |fs| && Stands(s, cps, fs, i, left[0]) && left == Ahead(fs, i, left[0])
  }

  lemma OneFramed(fs: seq<Frame>, cps: seq<int>, i: nat)
    requires Scalars(cps) && AllFramed(fs, cps) && i < |fs|
    ensures Framed(fs[i], cps) && fs[i].first <= fs[i].last <= |cps|
    ensures fs[i].range.startByte <= fs[i].range.endByte
    ensures Length(fs[i].range.startByte, fs[i].range.startPoint) == PositionAt(cps, fs[i].first)
  {
  }

  /** A range that reaches past the document is the last one. */
  lemma LastReaches(fs: seq<Frame>, cps: seq<int>, i: nat)
    requires Scalars(cps) && AllFramed(fs, cps) && i < |fs| && fs[i].range.endByte > |Bytes(cps)|
    ensures i + 1 == |fs|
  {
    if i + 1 < |fs| {
      OneFramed(fs, cps, i + 1);
      OffsetGrows(cps, fs[i + 1].first, fs[i + 1].first);
    }
  }

  // ---------------------------------------------------------------- looking

  lemma LooksInChunk(env: Input, u: State, cps: seq<int>, fs: seq<Frame>, i: nat, k: nat)
    requires Scalars(cps) && Serves(env, cps) && AllFramed(fs, cps) && i < |fs| && fs[i].first <= k < fs[i].last <= |cps|
    requires u.ranges == RangesOf(fs) && u.rangeIndex == i && u.pos == PositionAt(cps, k) && u.InChunk() && Holding(u, cps)
    ensures Stands(LookedUp(env, u), cps, fs, i, k)
  {
    hide Bytes, Encode, Serves, LookedUp, Offset, ExtentAt, AllFramed, GotChunk, RangesOf;
    LookupFinds(env, u, cps, k);
  }

  /** Looking at code point k of range i. */
  lemma LooksAt(env: Input, u: State, cps: seq<int>, fs: seq<Frame>, i: nat, k: nat)
    requires Scalars(cps) && Serves(env, cps) && AllFramed(fs, cps) && i < |fs| && fs[i].first <= k < fs[i].last
    requires u.ranges == RangesOf(fs) && u.rangeIndex == i && u.pos == PositionAt(cps, k) && Holding(u, cps)
    ensures Stands(Looked(env, u), cps, fs, i, k)
  {
    OneFramed(fs, cps, i);
    hide Bytes, Encode, Serves, LookedUp, Offset, ExtentAt, AllFramed, GotChunk, RangesOf, Stands;
    if u.InChunk() {
      LooksInChunk(env, u, cps, fs, i, k);
    } else {
      FreshChunk(env, u, cps, k);
      GotRanges(env, u);
      LooksInChunk(env, GotChunk(env, u), cps, fs, i, k);
    }
  }

  lemma GotRanges(env: Input, u: State)
    ensures var t := GotChunk(env, u); t.ranges == u.ranges && t.pos == u.pos
  {
  }

  /** Looking behind the last code point of the document. */
  lemma LooksPast(env: Input, u: State, cps: seq<int>, fs: seq<Frame>)
    requires Scalars(cps) && Serves(env, cps) && u.ranges == RangesOf(fs) && u.pos == PositionAt(cps, |cps|) && Holding(u, cps)
    ensures Spent(Looked(env, u), fs)
  {
    OffsetEnd(cps);
    AtEnd(env, u, cps);
  }

  /** What doAdvance does once it knows its range. */
  function Arrived(env: Input, t: State, found: bool, skip: bool): State {
    var u := if skip then t.(tokenStart := t.pos) else t;
    if found then Looked(env, u) else Cleared(u).(lookahead := 0, lookaheadSize := 1)
  }

  // ---------------------------------------------------------------- from range to range

  /** At the start of a range that is not empty. */
  lemma EntersHere(env: Input, t: State, cps: seq<int>, fs: seq<Frame>, j: nat, skip: bool)
    requires Scalars(cps) && Serves(env, cps) && AllFramed(fs, cps) && j < |fs| && fs[j].range.startByte < fs[j].range.endByte
    requires t.ranges == RangesOf(fs) && t.rangeIndex == j && t.pos == PositionAt(cps, fs[j].first) && Holding(t, cps)
    ensures Left(Arrived(env, t, true, skip), cps, fs, Places(fs, j))
  {
    hide Bytes, Offset, ExtentAt, Looked, Serves, Stands, AllFramed, Holding, Framed, Places, Ahead, Left, Arrived, RangesOf;
    var f := fs[j];
    OneFramed(fs, cps, j);
    PlacesFrom(fs, j);
    if f.first < f.last {
      ArrivesAt(env, t, cps, fs, j, f.first, skip);
    } else {
      PlacesFrom(fs, |fs|);
      RangeEnd(cps, f, f.first);
      OffsetEnd(cps);
      LastReaches(fs, cps, j);
      ArrivesPast(env, t, cps, fs, skip);
    }
  }

  /** From the start of range j: to the next range that holds a code point, or to the end. */
  lemma {:induction false} Enters(env: Input, t: State, cps: seq<int>, fs: seq<Frame>, j: nat, skip: bool)
    requires Scalars(cps) && Serves(env, cps) && AllFramed(fs, cps) && j < |fs|
    requires t.ranges == RangesOf(fs) && t.rangeIndex == j && t.pos == PositionAt(cps, fs[j].first) && Holding(t, cps)
    ensures var (u, found) := IntoRange(t); Left(Arrived(env, u, found, skip), cps, fs, Places(fs, j))
    decreases |fs| - j
  {
    hide *;
    RangesAre(fs);
    OneFramed(fs, cps, j);
    IntoRangeSteps(t);
    StartsAt(t, cps, fs, j);
    if fs[j].range.startByte < fs[j].range.endByte {
      EntersHere(env, t, cps, fs, j, skip);
    } else {
      EmptyHoldsNone(cps, fs[j]);
      PlacesFrom(fs, j);
      if j + 1 < |fs| {
        OneFramed(fs, cps, j + 1);
        var next := t.(rangeIndex := j + 1, pos := PositionAt(cps, fs[j + 1].first));
        SameHolding(t, next, cps);
        Enters(env, next, cps, fs, j + 1, skip);
      } else {
        PlacesFrom(fs, |fs|);
        SpentOut(t, fs);
        RanOut(env, t.(rangeIndex := j + 1), cps, fs, skip);
      }
    }
  }

  lemma RangesAre(fs: seq<Frame>)
    ensures |RangesOf(fs)| == |fs| && forall i :: 0 <= i < |fs| ==> RangesOf(fs)[i] == fs[i].range
  {
  }

  lemma StartsAt(t: State, cps: seq<int>, fs: seq<Frame>, j: nat)
    requires Scalars(cps) && AllFramed(fs, cps) && j < |fs| && t.pos == PositionAt(cps, fs[j].first)
    ensures t.pos.bytes == fs[j].range.startByte
  {
    OneFramed(fs, cps, j);
  }

  lemma SpentOut(t: State, fs: seq<Frame>)
    requires t.ranges == RangesOf(fs)
    ensures t.(rangeIndex := |fs|).Eof()
  {
  }

  lemma SameHolding(s: State, t: State, cps: seq<int>)
    requires Scalars(cps) && Holding(s, cps) && t.chunk == s.chunk && t.chunkStart == s.chunkStart
    ensures Holding(t, cps)
  {
    hide Bytes;
  }

  lemma EmptyHoldsNone(cps: seq<int>, f: Frame)
    requires Scalars(cps) && Framed(f, cps) && f.range.startByte >= f.range.endByte
    ensures f.first == f.last
  {
    RangeEnd(cps, f, f.last);
    OffsetGrows(cps, f.first, f.last);
    hide Bytes, Offset, ExtentAt;
  }

  lemma ArrivesAt(env: Input, t: State, cps: seq<int>, fs: seq<Frame>, i: nat, k: nat, skip: bool)
    requires Scalars(cps) && Serves(env, cps) && AllFramed(fs, cps) && i < |fs| && fs[i].first <= k < fs[i].last
    requires t.ranges == RangesOf(fs) && t.rangeIndex == i && t.pos == PositionAt(cps, k) && Holding(t, cps)
    ensures Left(Arrived(env, t, true, skip), cps, fs, Ahead(fs, i, k))
  {
    hide Bytes, Offset, ExtentAt, Looked, Serves, Stands, AllFramed, Ahead, RangesOf;
    LooksAt(env, if skip then t.(tokenStart := t.pos) else t, cps, fs, i, k);
    AheadNext(fs, i, k);
  }

  lemma ArrivesPast(env: Input, t: State, cps: seq<int>, fs: seq<Frame>, skip: bool)
    requires Scalars(cps) && Serves(env, cps) && AllFramed(fs, cps)
    requires t.ranges == RangesOf(fs) && t.pos == PositionAt(cps, |cps|) && Holding(t, cps)
    ensures Left(Arrived(env, t, true, skip), cps, fs, [])
  {
    hide Bytes, Offset, ExtentAt, Looked, Serves, AllFramed;
    LooksPast(env, if skip then t.(tokenStart := t.pos) else t, cps, fs);
  }

  /** One step: to the next code point any range holds, or to the end. */
  lemma StepsOn(env: Input, s: State, cps: seq<int>, fs: seq<Frame>, left: seq<nat>, skip: bool)
    requires Scalars(cps) && Serves(env, cps) && AllFramed(fs, cps) && left != [] && Left(s, cps, fs, left)
    ensures Left(DoAdvanced(env, s, skip), cps, fs, left[1..])
  {
    hide *;
    var i := StandsWhere(s, cps, fs, left);
    var k := left[0];
    StandsFacts(s, cps, fs, i, k);
    PassedPlace(s, cps, k);
    AdvancedArrives(env, s, skip);
    SameHolding(s, Passed(s), cps);
    AheadNext(fs, i, k);
    PassedOn(env, Passed(s), cps, fs, i, k, skip);
  }

  lemma StandsFacts(s: State, cps: seq<int>, fs: seq<Frame>, i: nat, k: nat)
    requires Scalars(cps) && AllFramed(fs, cps) && i < |fs| && Stands(s, cps, fs, i, k)
    ensures fs[i].first <= k < fs[i].last <= |cps| && s.ranges == RangesOf(fs) && s.rangeIndex == i
    ensures s.pos == PositionAt(cps, k) && s.lookahead == cps[k] && s.lookaheadSize == |Encode(cps[k])| && Holding(s, cps)
  {
    OneFramed(fs, cps, i);
    hide AllFramed, Bytes, Encode, Offset, ExtentAt, Holding;
  }

  /** From behind code point k of range i. */
  lemma PassedOn(env: Input, t: State, cps: seq<int>, fs: seq<Frame>, i: nat, k: nat, skip: bool)
    requires Scalars(cps) && Serves(env, cps) && AllFramed(fs, cps) && i < |fs| && fs[i].first <= k < fs[i].last <= |cps|
    requires t.ranges == RangesOf(fs) && t.rangeIndex == i && t.pos == PositionAt(cps, k + 1) && Holding(t, cps)
    ensures var (u, found) := IntoRange(t);
      Left(Arrived(env, u, found, skip), cps, fs, if k + 1 < fs[i].last then Ahead(fs, i, k + 1) else Places(fs, i + 1))
  {
    hide Bytes, Offset, ExtentAt, Looked, Serves, AllFramed, Encode, Framed, IntoRange, Left, Arrived, Holding, Places, Ahead;
    var f := fs[i];
    OneFramed(fs, cps, i);
    RangeEnd(cps, f, k + 1);
    IntoRangeSteps(t);
    OffsetEnd(cps);
    PlacesFrom(fs, |fs|);
    if k + 1 < f.last {
      ArrivesAt(env, t, cps, fs, i, k + 1, skip);
    } else if f.range.endByte > Offset(cps, f.last) {
      LastReaches(fs, cps, i);
      ArrivesPast(env, t, cps, fs, skip);
    } else if i + 1 < |fs| {
      OneFramed(fs, cps, i + 1);
      var next := t.(rangeIndex := i + 1, pos := PositionAt(cps, fs[i + 1].first));
      SameHolding(t, next, cps);
      Enters(env, next, cps, fs, i + 1, skip);
    } else {
      RanOut(env, t.(rangeIndex := i + 1), cps, fs, skip);
    }
  }

  lemma StandsWhere(s: State, cps: seq<int>, fs: seq<Frame>, left: seq<nat>) returns (i: nat)
    requires Scalars(cps) && AllFramed(fs, cps) && left != [] && Left(s, cps, fs, left)
    ensures i < |fs| && Stands(s, cps, fs, i, left[0]) && left == Ahead(fs, i, left[0])
  {
    hide AllFramed, Stands;
    i :| 0 <= i < |fs| && Stands(s, cps, fs, i, left[0]) && left == Ahead(fs, i, left[0]);
  }

  lemma RanOut(env: Input, t: State, cps: seq<int>, fs: seq<Frame>, skip: bool)
    requires Scalars(cps) && AllFramed(fs, cps) && t.ranges == RangesOf(fs) && t.Eof()
    ensures Left(Arrived(env, t, false, skip), cps, fs, [])
  {
    hide AllFramed;
  }

  lemma AdvancedArrives(env: Input, s: State, skip: bool)
    ensures var (t, found) := IntoRange(Passed(s)); DoAdvanced(env, s, skip) == Arrived(env, t, found, skip)
  {
    hide IntoRange, Passed, Looked;
    AdvancedLooks(env, s, skip);
  }

  // ---------------------------------------------------------------- the start

  /** A fresh lexer that was given the ranges. */
  ghost predicate Given(s: State, fs: seq<Frame>) {
    fs != [] && s == Moved(State(0, ZERO, ZERO, RangesOf(fs), [], 0, 0, 0, false, 0), ZERO)
  }

  lemma {:induction false} EmptyPlaces(fs: seq<Frame>, i: nat, j: nat)
    requires i <= j <= |fs| && forall m :: i <= m < j ==> fs[m].first == fs[m].last
    ensures Places(fs, i) == Places(fs, j)
    decreases j - i
  {
    if i < j {
      EmptyPlaces(fs, i + 1, j);
      assert Places(fs, i) == Upto(fs[i].first, fs[i].last) + Places(fs, i + 1);
    }
  }

  /** It stands at the start of the first range that is not empty; the ones before hold nothing. */
  lemma GivenAt(s: State, cps: seq<int>, fs: seq<Frame>)
    requires Scalars(cps) && AllFramed(fs, cps) && Given(s, fs)
    ensures s.ranges == RangesOf(fs) && s.chunk == [] && s.rangeIndex <= |fs| && Places(fs, 0) == Places(fs, s.rangeIndex)
    ensures s.rangeIndex < |fs| ==>
      var f := fs[s.rangeIndex];
      s.lookaheadSize == 0 && f.range.startByte < f.range.endByte && s.pos == PositionAt(cps, f.first)
  {
    var i := RangeAt(RangesOf(fs), 0, 0);
    RangeAtIsFirst(RangesOf(fs), 0, 0);
    forall m | 0 <= m < i ensures fs[m].first == fs[m].last {
      OneFramed(fs, cps, m);
      assert RangesOf(fs)[m] == fs[m].range;
      EmptyHoldsNone(cps, fs[m]);
    }
    EmptyPlaces(fs, 0, i);
    if i < |fs| { OneFramed(fs, cps, i); }
    hide AllFramed, Bytes, Offset, ExtentAt, RangeAt, Places;
  }

  /** What is read: all the ranges hold, but for a byte order mark at the start of the document. */
  function TextOf(cps: seq<int>, fs: seq<Frame>): seq<nat> {
    var all := Places(fs, 0);
    if all != [] && all[0] == 0 && cps != [] && cps[0] == BYTE_ORDER_MARK then all[1..] else all
  }

  lemma LeftKeepsColumn(s: State, cps: seq<int>, fs: seq<Frame>, left: seq<nat>)
    requires Scalars(cps) && AllFramed(fs, cps) && Left(s, cps, fs, left)
    ensures Left(WithColumn(s, 0), cps, fs, left)
  {
    hide AllFramed, Bytes, Encode, Offset, ExtentAt, Ahead;
    if left != [] {
      var i := StandsWhere(s, cps, fs, left);
      assert Stands(WithColumn(s, 0), cps, fs, i, left[0]);
    }
  }

  lemma NothingHeld(t: State, cps: seq<int>)
    requires Scalars(cps) && t.chunk == []
    ensures Holding(t, cps)
  {
  }

  lemma FirstLook(env: Input, s: State, cps: seq<int>, fs: seq<Frame>)
    requires Scalars(cps) && Serves(env, cps) && AllFramed(fs, cps) && Given(s, fs) && s.rangeIndex < |fs|
    ensures Left(Looked(env, s.(tokenStart := s.pos)), cps, fs, Places(fs, 0))
  {
    hide AllFramed, Bytes, Encode, Offset, ExtentAt, Looked, Serves, Given, Framed, Left, Places, Ahead, Holding, IntoRange;
    GivenAt(s, cps, fs);
    PlacesFrom(fs, s.rangeIndex);
    PlacesFrom(fs, |fs|);
    NothingHeld(s.(tokenStart := s.pos), cps);
    var i, t := s.rangeIndex, s.(tokenStart := s.pos);
    var f := fs[i];
    OneFramed(fs, cps, i);
    assert Arrived(env, t, true, false) == Looked(env, t);
    if f.first < f.last {
      ArrivesAt(env, t, cps, fs, i, f.first, false);
    } else {
      RangeEnd(cps, f, f.first);
      OffsetEnd(cps);
      LastReaches(fs, cps, i);
      ArrivesPast(env, t, cps, fs, false);
    }
  }

  lemma LeftFacts(s: State, cps: seq<int>, fs: seq<Frame>, left: seq<nat>)
    requires Scalars(cps) && AllFramed(fs, cps) && Left(s, cps, fs, left)
    ensures left == [] ==> s.Eof() && s.chunk == [] && Ready(s)
    ensures left != [] ==>
      && !s.Eof() && left[0] < |cps| && s.lookahead == cps[left[0]] && s.pos.bytes == Offset(cps, left[0])
      && (s.pos.bytes == 0 <==> left[0] == 0) && s.chunk != [] && Ready(s)
  {
    if left != [] {
      var i := StandsWhere(s, cps, fs, left);
      var k := left[0];
      OneFramed(fs, cps, i);
      RangeEnd(cps, fs[i], k);
      FirstOffset(cps, k);
      if cps[k] == BYTE_ORDER_MARK { assert |Encode(cps[k])| == 3; }
      hide AllFramed, Bytes, Offset, ExtentAt, Ahead, Encode, Holding, Framed;
    }
  }

  /** start stands before the first code point to be read. */
  lemma StartsAll(env: Input, s: State, cps: seq<int>, fs: seq<Frame>)
    requires Scalars(cps) && Serves(env, cps) && AllFramed(fs, cps) && Given(s, fs)
    ensures Left(Started(env, s), cps, fs, TextOf(cps, fs))
  {
    GivenAt(s, cps, fs);
    var all := Places(fs, 0);
    if s.rangeIndex == |fs| {
      hide AllFramed, Bytes, Offset, ExtentAt;
    } else {
      FirstLook(env, s, cps, fs);
      StartedLooks(env, s);
      hide AllFramed, Bytes, Offset, ExtentAt, Looked, Started, Left, Given, Serves, DoAdvanced;
      var v := Looked(env, s.(tokenStart := s.pos));
      LeftFacts(v, cps, fs, all);
      if v.pos.bytes == 0 {
        if v.lookahead == BYTE_ORDER_MARK && v.chunk != [] {
          StepsOn(env, v, cps, fs, all, true);
          LeftKeepsColumn(DoAdvanced(env, v, true), cps, fs, all[1..]);
        } else {
          LeftKeepsColumn(v, cps, fs, all);
        }
      }
    }
  }

  // ---------------------------------------------------------------- the whole text

  /** Code points with the bytes they stand at. */
  function Seen(cps: seq<int>, ks: seq<nat>): seq<(int, nat)>
    requires Scalars(cps) && forall i :: 0 <= i < |ks| ==> ks[i] < |cps|
  {
    if ks == [] then [] else [(cps[ks[0]], Offset(cps, ks[0]))] + Seen(cps, ks[1..])
  }

  lemma {:induction false} UptoWithin(k: nat, last: nat)
    ensures forall x :: x in Upto(k, last) ==> k <= x < last
    decreases last - k
  {
    if k < last { UptoWithin(k + 1, last); }
  }

  lemma {:induction false} PlacesWithin(cps: seq<int>, fs: seq<Frame>, i: nat)
    requires Scalars(cps) && AllFramed(fs, cps) && i <= |fs|
    ensures forall k :: k in Places(fs, i) ==> k < |cps|
    decreases |fs| - i
  {
    if i < |fs| {
      OneFramed(fs, cps, i);
      UptoWithin(fs[i].first, fs[i].last);
      PlacesWithin(cps, fs, i + 1);
    }
  }

  lemma TextWithin(cps: seq<int>, fs: seq<Frame>)
    requires Scalars(cps) && AllFramed(fs, cps)
    ensures var text := TextOf(cps, fs); forall i :: 0 <= i < |text| ==> text[i] < |cps|
  {
    PlacesWithin(cps, fs, 0);
    hide AllFramed, Places;
    var all, text := Places(fs, 0), TextOf(cps, fs);
    forall i | 0 <= i < |text| ensures text[i] < |cps| {
      assert text[i] in all;
    }
  }

  lemma GivenRanges(cps: seq<int>, fs: seq<Frame>)
    requires Scalars(cps) && AllFramed(fs, cps)
    ensures InOrder(RangesOf(fs)) && RangesOf(fs) != []
    ensures Given(Moved(State(0, ZERO, ZERO, RangesOf(fs), [], 0, 0, 0, false, 0), ZERO), fs)
  {
    hide Framed, Moved;
    forall i | 0 <= i < |fs| ensures RangesOf(fs)[i].startByte <= RangesOf(fs)[i].endByte {
      OneFramed(fs, cps, i);
    }
  }

  /** One round of reading: the code point stood before, and a step past it. */
  method ReadOne(l: Lexer, ghost cps: seq<int>, ghost fs: seq<Frame>, ghost left: seq<nat>) returns (one: (int, nat))
    requires Scalars(cps) && Serves(l.input, cps) && AllFramed(fs, cps) && Left(l.Now(), cps, fs, left) && !l.Eof()
    modifies l
    ensures left != [] && left[0] < |cps| && one == (cps[left[0]], Offset(cps, left[0]))
    ensures Left(l.Now(), cps, fs, left[1..])
  {
    hide Left, Serves, AllFramed, DoAdvanced, Ready, Offset;
    LeftFacts(l.Now(), cps, fs, left);
    one := (l.lookahead, l.pos.bytes);
    StepsOn(l.input, l.Now(), cps, fs, left, false);
    l.Advance(false);
  }

  lemma SeenNext(cps: seq<int>, left: seq<nat>)
    requires Scalars(cps) && left != [] && forall i :: 0 <= i < |left| ==> left[i] < |cps|
    ensures forall i :: 0 <= i < |left[1..]| ==> left[1..][i] < |cps|
    ensures Seen(cps, left) == [(cps[left[0]], Offset(cps, left[0]))] + Seen(cps, left[1..])
  {
    hide Offset;
  }

  lemma SeenNone(cps: seq<int>)
    requires Scalars(cps)
    ensures Seen(cps, []) == []
  {
  }

  /** A document read through a list of included ranges: exactly the code points the ranges hold, in order, but for
      a byte order mark at the start of the document, each at its own byte, however the input is cut into chunks. */
  method ReadAll(input: Input, ranges: seq<Range>, ghost cps: seq<int>, ghost fs: seq<Frame>) returns (read: seq<(int, nat)>)
    requires Scalars(cps) && Serves(input, cps) && AllFramed(fs, cps) && ranges == RangesOf(fs)
    ensures var text := TextOf(cps, fs);
      (forall i :: 0 <= i < |text| ==> text[i] < |cps|) && read == Seen(cps, text)
  {
    hide Left, Serves, AllFramed, Moved, Started, Offset, RangesOf, TextOf, Given, Seen, Scalars;
    GivenRanges(cps, fs);
    var l := new Lexer(input);
    var ok := l.SetIncludedRanges(ranges);
    StartsAll(input, l.Now(), cps, fs);
    l.Start();
    TextWithin(cps, fs);
    read := [];
    ghost var left: seq<nat> := TextOf(cps, fs);
    LeftFacts(l.Now(), cps, fs, left);
    while !l.Eof()
      invariant fresh(l) && l.input == input && Left(l.Now(), cps, fs, left) && (l.Eof() <==> left == [])
      invariant forall i :: 0 <= i < |left| ==> left[i] < |cps|
      invariant read + Seen(cps, left) == Seen(cps, TextOf(cps, fs))
      decreases |left|
    {
      SeenNext(cps, left);
      var one := ReadOne(l, cps, fs, left);
      assert read + ([one] + Seen(cps, left[1..])) == (read + [one]) + Seen(cps, left[1..]);
      read := read + [one];
      left := left[1..];
      LeftFacts(l.Now(), cps, fs, left);
    }
    SeenNone(cps);
  }

  lemma OneRange(cps: seq<int>, f: Frame)
    requires Scalars(cps) && Framed(f, cps)
    ensures AllFramed([f], cps) && TextOf(cps, [f]) == Upto(TextFrom(cps, f), f.last)
  {
    hide Framed;
    FrameBounds(f, cps);
    assert Places([f], 0) == Upto(f.first, f.last) + Places([f], 1);
    assert Places([f], 1) == [];
  }
}
