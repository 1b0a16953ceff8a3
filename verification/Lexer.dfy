/** The lexer's reading of the input (lexer.go:91-304): chunks, one decoded code point ahead, included
    ranges, and a cached column. */
module Lexer {
  import opened Lengths
  import opened EditSpec
  import opened Ranges
  import opened Utf8

  const NEWLINE := 10
  const BYTE_ORDER_MARK := 0xFEFF

  /** The input: a reader of chunks, and the decoder of an encoding other than UTF-8. */
  datatype Input = Input(read: (nat, Point) -> seq<Byte>, isUtf8: bool, decode: seq<Byte> -> Decoded)

  /** A lexer's fields.  A chunk that is nil is the empty chunk. */
  datatype State = State(lookahead: int, pos: Length, tokenStart: Length, ranges: seq<Range>, chunk: seq<Byte>,
                         rangeIndex: nat, chunkStart: nat, lookaheadSize: nat, columnValid: bool, columnValue: nat)
  {
    predicate Eof() { rangeIndex == |ranges| }

    predicate InChunk() { chunkStart <= pos.bytes < chunkStart + |chunk| }
  }

  function DecodeBy(env: Input, s: seq<Byte>): Decoded { if env.isUtf8 then Decode(s) else env.decode(s) }

  function Cleared(s: State): State { s.(chunk := [], chunkStart := 0) }

  function WithColumn(s: State, v: nat): State { s.(columnValid := true, columnValue := v) }

  function Incremented(s: State): State { if s.columnValid then s.(columnValue := s.columnValue + 1) else s }

  function GotChunk(env: Input, s: State): State {
    var chunk := env.read(s.pos.bytes, s.pos.extent);
    s.(chunkStart := s.pos.bytes, chunk := chunk, rangeIndex := if chunk == [] then |s.ranges| else s.rangeIndex)
  }

  /** Error lookaheads are one byte wide. */
  function Looking(s: State, d: Decoded): State {
    s.(lookahead := d.code, lookaheadSize := if d.code == DECODE_ERROR then 1 else d.size)
  }

  /** getLookahead, from a position inside the chunk or just past it. */
  function LookedUp(env: Input, s: State): State {
    var at := s.pos.bytes - s.chunkStart;
    if at < 0 || at >= |s.chunk| then s.(lookahead := 0, lookaheadSize := 1) else
    var rest := s.chunk[at..];
    if env.isUtf8 && rest[0] < 0x80 then s.(lookahead := rest[0], lookaheadSize := 1) else
    var d := DecodeBy(env, rest);
    if d.code == DECODE_ERROR && |rest| < 4 then
      var more := GotChunk(env, s);
      Looking(more, DecodeBy(env, more.chunk))
    else Looking(s, d)
  }

  /** The position past the lookahead. */
  function Passed(s: State): State {
    if s.lookaheadSize == 0 then s
    else if s.lookahead == NEWLINE then
      WithColumn(s, 0).(pos := Length(s.pos.bytes + s.lookaheadSize, Point(s.pos.extent.row + 1, 0)))
    else
      var counted := if s.pos.bytes == 0 && s.lookahead == BYTE_ORDER_MARK then s else Incremented(s);
      counted.(pos := Length(s.pos.bytes + s.lookaheadSize, Point(s.pos.extent.row, s.pos.extent.column + s.lookaheadSize)))
  }

  /** Past ranges that are empty or behind, to the start of the next one; false when none is left. */
  function IntoRange(s: State): (r: (State, bool))
    ensures r.0.ranges == s.ranges && r.0.chunk == s.chunk && r.0.chunkStart == s.chunkStart
    ensures r.0.columnValid == s.columnValid && r.0.columnValue == s.columnValue
    decreases |s.ranges| - s.rangeIndex
  {
    if s.rangeIndex >= |s.ranges| then (s, false) else
    var r := s.ranges[s.rangeIndex];
    if s.pos.bytes < r.endByte && r.endByte != r.startByte then (s, true) else
    var next := s.(rangeIndex := s.rangeIndex + 1);
    if next.rangeIndex >= |s.ranges| then (next, false)
    else
      var q := s.ranges[next.rangeIndex];
      IntoRange(next.(pos := Length(q.startByte, q.startPoint)))
  }

  /** doAdvance. */
  function DoAdvanced(env: Input, s: State, skip: bool): State {
    var (t, hasRange) := IntoRange(Passed(s));
    var u := if skip then t.(tokenStart := t.pos) else t;
    if hasRange then LookedUp(env, if u.InChunk() then u else GotChunk(env, u))
    else Cleared(u).(lookahead := 0, lookaheadSize := 1)
  }

  /** The first range a position falls in or before. */
  function RangeAt(ranges: seq<Range>, i: nat, bytes: nat): (r: nat)
    ensures i <= |ranges| ==> i <= r <= |ranges|
    ensures r < |ranges| && i <= |ranges| ==> ranges[r].endByte > bytes && ranges[r].endByte > ranges[r].startByte
    decreases |ranges| - i
  {
    if i >= |ranges| then i
    else if ranges[i].endByte > bytes && ranges[i].endByte > ranges[i].startByte then i
    else RangeAt(ranges, i + 1, bytes)
  }

  function Moved(s: State, to: Length): State
    requires s.ranges != []
  {
    var kept := if to.bytes != s.pos.bytes then s.(columnValid := false, columnValue := 0) else s;
    var i := RangeAt(s.ranges, 0, to.bytes);
    if i < |s.ranges| then
      var r := s.ranges[i];
      var t := kept.(pos := if r.startByte >= to.bytes then Length(r.startByte, r.startPoint) else to, rangeIndex := i);
      (if t.chunk != [] && !t.InChunk() then Cleared(t) else t).(lookahead := 0, lookaheadSize := 0)
    else
      var last := s.ranges[|s.ranges| - 1];
      Cleared(kept).(pos := Length(last.endByte, last.endPoint), rangeIndex := |s.ranges|, lookahead := 0, lookaheadSize := 1)
  }

  function ResetTo(s: State, to: Length): State
    requires s.ranges != []
  {
    if to.bytes != s.pos.bytes then Moved(s, to) else s
  }

  /** start, without the token fields it resets. */
  function Started(env: Input, s: State): State {
    var t := s.(tokenStart := s.pos);
    if t.Eof() then t else
    var u := if t.chunk == [] then GotChunk(env, t) else t;
    var v := if u.lookaheadSize == 0 then LookedUp(env, u) else u;
    if v.pos.bytes != 0 then v
    else WithColumn(if v.lookahead == BYTE_ORDER_MARK && v.chunk != [] then DoAdvanced(env, v, true) else v, 0)
  }

  const DEFAULT_RANGE := Range(Point(0, 0), Point(MAX_BYTE, MAX_BYTE), 0, MAX_BYTE)

  /** No range ends before it starts, and none starts before an earlier one ends. */
  predicate InOrder(rs: seq<Range>) {
    && (forall i :: 0 <= i < |rs| ==> rs[i].startByte <= rs[i].endByte)
    && (forall i, j :: 0 <= i < j < |rs| ==> rs[i].endByte <= rs[j].startByte)
  }

  lemma OneMoreInOrder(rs: seq<Range>, i: nat)
    requires i < |rs| && InOrder(rs[..i]) && rs[i].startByte <= rs[i].endByte
    requires i > 0 ==> rs[i - 1].endByte <= rs[i].startByte
    ensures InOrder(rs[..i + 1])
  {
    forall k | 0 <= k < i ensures rs[k].endByte <= rs[i].startByte {
      assert rs[..i][k] == rs[k] && rs[..i][i - 1] == rs[i - 1];
    }
    assert forall k :: 0 <= k < i ==> rs[..i + 1][k] == rs[..i][k];
  }

  lemma OutOfOrder(rs: seq<Range>, i: nat)
    requires i < |rs| && (rs[i].endByte < rs[i].startByte || (i > 0 && rs[i].startByte < rs[i - 1].endByte))
    ensures !InOrder(rs)
  {
  }

  // ---------------------------------------------------------------- the lexer

  class Lexer {
    const input: Input
    var lookahead: int
    var pos: Length
    var tokenStart: Length
    var ranges: seq<Range>
    var chunk: seq<Byte>
    var rangeIndex: nat
    var chunkStart: nat
    var lookaheadSize: nat
    var columnValid: bool
    var columnValue: nat

    ghost function Now(): State
      reads this
    {
      State(lookahead, pos, tokenStart, ranges, chunk, rangeIndex, chunkStart, lookaheadSize, columnValid, columnValue)
    }

    predicate Eof()
      reads this
    {
      rangeIndex == |ranges|
    }

    constructor (input: Input)
      ensures this.input == input && ranges == [DEFAULT_RANGE]
      ensures Now() == State(0, ZERO, ZERO, ranges, [], 0, 0, 0, false, 0)
    {
      this.input := input;
      lookahead, pos, tokenStart, chunk, rangeIndex, chunkStart := 0, ZERO, ZERO, [], 0, 0;
      ranges := [DEFAULT_RANGE];
      lookaheadSize, columnValid, columnValue := 0, false, 0;
    }

    method SetColumn(value: nat)
      modifies `columnValid, `columnValue
      ensures Now() == WithColumn(old(Now()), value)
    {
      columnValid, columnValue := true, value;
    }

    method Increment()
      modifies `columnValue
      ensures Now() == Incremented(old(Now()))
    {
      if columnValid { columnValue := columnValue + 1; }
    }

    method ClearChunk()
      modifies `chunk, `chunkStart
      ensures Now() == Cleared(old(Now()))
    {
      chunk, chunkStart := [], 0;
    }

    method GetChunk()
      modifies this
      ensures Now() == GotChunk(input, old(Now()))
    {
      chunkStart := pos.bytes;
      chunk := input.read(pos.bytes, pos.extent);
      if |chunk| == 0 { rangeIndex := |ranges|; }
    }

    method GetLookahead()
      modifies this
      ensures Now() == LookedUp(input, old(Now()))
    {
      var at := pos.bytes - chunkStart;
      if at < 0 || at >= |chunk| {
        lookaheadSize, lookahead := 1, 0;
        return;
      }
      var rest := chunk[at..];
      if input.isUtf8 && rest[0] < 0x80 {
        lookahead, lookaheadSize := rest[0], 1;
        return;
      }
      var d := DecodeBy(input, rest);
      if d.code == DECODE_ERROR && |rest| < 4 {
        GetChunk();
        d := DecodeBy(input, chunk);
      }
      lookahead, lookaheadSize := d.code, d.size;
      if lookahead == DECODE_ERROR { lookaheadSize := 1; }
    }

    /** The part of doAdvance that consumes the lookahead. */
    method Pass()
      modifies this
      ensures Now() == Passed(old(Now()))
    {
      if lookaheadSize == 0 { return; }
      if lookahead == NEWLINE {
        pos := Length(pos.bytes + lookaheadSize, Point(pos.extent.row + 1, 0));
        columnValid, columnValue := true, 0;
      } else {
        if !(pos.bytes == 0 && lookahead == BYTE_ORDER_MARK) { Increment(); }
        pos := Length(pos.bytes + lookaheadSize, Point(pos.extent.row, pos.extent.column + lookaheadSize));
      }
    }

    /** The part of doAdvance that finds the range the position is in. */
    method EnterRange() returns (hasRange: bool)
      modifies this
      ensures (Now(), hasRange) == IntoRange(old(Now()))
    {
      hasRange := true;
      ghost var goal := IntoRange(Now());
      while true
        invariant hasRange && IntoRange(Now()) == goal
        decreases |ranges| - rangeIndex
      {
        if rangeIndex >= |ranges| { return false; }
        var r := ranges[rangeIndex];
        if !(pos.bytes >= r.endByte || r.endByte == r.startByte) { return; }
        rangeIndex := rangeIndex + 1;
        if rangeIndex >= |ranges| { return false; }
        var next := ranges[rangeIndex];
        pos := Length(next.startByte, next.startPoint);
      }
    }

    method DoAdvance(skip: bool)
      modifies this
      ensures Now() == DoAdvanced(input, old(Now()), skip)
    {
      hide LookedUp, GotChunk, IntoRange, Passed;
      Pass();
      var hasRange := EnterRange();
      if skip { tokenStart := pos; }
      if hasRange {
        if pos.bytes < chunkStart || pos.bytes >= chunkStart + |chunk| { GetChunk(); }
        GetLookahead();
      } else {
        ClearChunk();
        lookahead, lookaheadSize := 0, 1;
      }
    }

    /** Advance.  The fast path for an ASCII byte inside the range and the chunk leaves the lexer
        exactly as the slow one would; without a chunk nothing moves. */
    method Advance(skip: bool)
      requires Ready(Now())
      modifies this
      ensures Now() == if old(chunk) == [] then old(Now()) else DoAdvanced(input, old(Now()), skip)
    {
      if |chunk| == 0 { return; }
      ghost var before := Now();
      var nextPosition := pos.bytes + 1;
      var currentRangeEnd := ranges[rangeIndex].endByte;
      if input.isUtf8 && lookaheadSize == 1 && lookahead != NEWLINE && nextPosition < currentRangeEnd
         && nextPosition < chunkStart + |chunk|
      {
        var nextByte := chunk[nextPosition - chunkStart];
        if nextByte < 0x80 {
          FastIsSlow(input, before, skip);
          Increment();
          pos := Length(pos.bytes + 1, Point(pos.extent.row, pos.extent.column + 1));
          if skip { tokenStart := pos; }
          lookahead := nextByte;
          return;
        }
      }
      DoAdvance(skip);
    }

    method FindRange(bytes: nat) returns (i: nat)
      ensures i == RangeAt(ranges, 0, bytes)
    {
      i := 0;
      while i < |ranges|
        invariant i <= |ranges| && RangeAt(ranges, i, bytes) == RangeAt(ranges, 0, bytes)
      {
        var r := ranges[i];
        if r.endByte > bytes && r.endByte > r.startByte { return; }
        i := i + 1;
      }
    }

    method GotoPosition(position: Length)
      requires ranges != []
      modifies this
      ensures Now() == Moved(old(Now()), position)
    {
      hide RangeAt;
      var i := FindRange(position.bytes);
      if position.bytes != pos.bytes { columnValid, columnValue := false, 0; }
      if i < |ranges| {
        pos := if ranges[i].startByte >= position.bytes then Length(ranges[i].startByte, ranges[i].startPoint) else position;
        rangeIndex := i;
        if |chunk| > 0 && (pos.bytes < chunkStart || pos.bytes >= chunkStart + |chunk|) { ClearChunk(); }
        lookaheadSize, lookahead := 0, 0;
      } else {
        rangeIndex := |ranges|;
        var last := ranges[|ranges| - 1];
        pos := Length(last.endByte, last.endPoint);
        ClearChunk();
        lookaheadSize, lookahead := 1, 0;
      }
    }

    method Reset(position: Length)
      requires ranges != []
      modifies this
      ensures Now() == ResetTo(old(Now()), position)
    {
      if position.bytes != pos.bytes { GotoPosition(position); }
    }

    /** setIncludedRanges: refused unless every range starts no earlier than the last one ended; none
        given means the whole document. */
    method SetIncludedRanges(given: seq<Range>) returns (ok: bool)
      modifies this
      ensures ok == InOrder(given)
      ensures !ok ==> Now() == old(Now())
      ensures ok ==> Now() == Moved(old(Now()).(ranges := if given == [] then [DEFAULT_RANGE] else given), old(pos))
    {
      hide Moved;
      var wanted := given;
      if |given| == 0 {
        wanted := [DEFAULT_RANGE];
      } else {
        var previousByte := 0;
        for i := 0 to |given|
          invariant previousByte == if i == 0 then 0 else given[i - 1].endByte
          invariant InOrder(given[..i])
          invariant unchanged(this)
        {
          assert given[..i + 1][..i] == given[..i];
          if given[i].startByte < previousByte || given[i].endByte < given[i].startByte {
            OutOfOrder(given, i);
            return false;
          }
          previousByte := given[i].endByte;
          OneMoreInOrder(given, i);
        }
        assert given[..|given|] == given;
      }
      ranges := wanted;
      GotoPosition(pos);
      ok := true;
    }

    /** start: the first lookahead, past a leading byte order mark, which is never one byte wide and so
        never takes Advance's fast path. */
    method Start()
      modifies this
      ensures Now() == Started(input, old(Now()))
    {
      hide LookedUp, DoAdvanced, GotChunk;
      tokenStart := pos;
      if !Eof() {
        if |chunk| == 0 { GetChunk(); }
        if lookaheadSize == 0 { GetLookahead(); }
        if pos.bytes == 0 {
          if lookahead == BYTE_ORDER_MARK && |chunk| > 0 { DoAdvance(true); }
          columnValid, columnValue := true, 0;
        }
      }
    }
  }

  /** The position lies in its own, non-empty range and in its chunk, and a byte order mark is wider
      than a byte. */
  predicate InsideRange(s: State) {
    && s.rangeIndex < |s.ranges| && s.InChunk()
    && s.ranges[s.rangeIndex].startByte <= s.pos.bytes < s.ranges[s.rangeIndex].endByte
    && (s.lookahead == BYTE_ORDER_MARK ==> s.lookaheadSize != 1)
  }

  /** What Advance asks: without a chunk it does nothing, with one it reads the range it is in. */
  predicate Ready(s: State) { s.chunk != [] ==> InsideRange(s) }

  /** The state the fast path leaves. */
  function Fast(s: State, skip: bool): State
    requires s.InChunk() && s.pos.bytes + 1 < s.chunkStart + |s.chunk|
  {
    var pos := Length(s.pos.bytes + 1, Point(s.pos.extent.row, s.pos.extent.column + 1));
    Incremented(s).(pos := pos, tokenStart := if skip then pos else s.tokenStart,
                    lookahead := s.chunk[s.pos.bytes + 1 - s.chunkStart])
  }

  lemma FastIsSlow(env: Input, s: State, skip: bool)
    requires InsideRange(s) && env.isUtf8 && s.lookaheadSize == 1 && s.lookahead != NEWLINE
    requires s.pos.bytes + 1 < s.ranges[s.rangeIndex].endByte && s.pos.bytes + 1 < s.chunkStart + |s.chunk|
    requires s.chunk[s.pos.bytes + 1 - s.chunkStart] < 0x80
    ensures DoAdvanced(env, s, skip) == Fast(s, skip)
  {
    var t := Passed(s);
    assert IntoRange(t) == (t, true);
    var at := t.pos.bytes - t.chunkStart;
    assert t.chunk[at..][0] == t.chunk[at];
  }

  // ---------------------------------------------------------------- where moves land

  lemma {:induction false} RangeAtIsFirst(rs: seq<Range>, i: nat, bytes: nat)
    requires i <= |rs|
    ensures forall k :: i <= k < RangeAt(rs, i, bytes) ==> !(rs[k].endByte > bytes && rs[k].endByte > rs[k].startByte)
    decreases |rs| - i
  {
    if i < |rs| && !(rs[i].endByte > bytes && rs[i].endByte > rs[i].startByte) { RangeAtIsFirst(rs, i + 1, bytes); }
  }

  /** gotoPosition lands on the first included byte at or after the position, or at the end when there
      is none. */
  lemma MovedLands(s: State, to: Length)
    requires InOrder(s.ranges) && s.ranges != []
    ensures var t := Moved(s, to);
      if t.Eof() then forall b :: b >= to.bytes ==> !Includes(s.ranges, b)
      else
        && to.bytes <= t.pos.bytes && Covers(s.ranges[t.rangeIndex], t.pos.bytes)
        && forall b :: to.bytes <= b < t.pos.bytes ==> !Includes(s.ranges, b)
  {
    RangeAtIsFirst(s.ranges, 0, to.bytes);
    hide RangeAt;
  }

  lemma OrderedEach(rs: seq<Range>, i: nat)
    requires InOrder(rs) && i < |rs|
    ensures rs[i].startByte <= rs[i].endByte
  {
  }

  lemma NothingIncluded()
    ensures forall b :: !Includes([], b)
  {
  }

  lemma IntoRangeSteps(s: State)
    requires s.rangeIndex < |s.ranges|
    ensures var i := s.rangeIndex; var r := s.ranges[i];
      IntoRange(s) ==
        if s.pos.bytes < r.endByte && r.endByte != r.startByte then (s, true)
        else if i + 1 == |s.ranges| then (s.(rangeIndex := i + 1), false)
        else IntoRange(s.(rangeIndex := i + 1, pos := Length(s.ranges[i + 1].startByte, s.ranges[i + 1].startPoint)))
  {
  }

  /** The first range from i on that holds anything, or the last range when none does. */
  function Landing(rs: seq<Range>, i: nat): (r: nat)
    requires i < |rs|
    ensures i <= r < |rs| && (rs[r].startByte < rs[r].endByte || r + 1 == |rs|)
    decreases |rs| - i
  {
    if rs[i].startByte < rs[i].endByte || i + 1 == |rs| then i else Landing(rs, i + 1)
  }

  /** Where an advance ends up: where it was, while its range lasts or when it was the last one; otherwise at the
      start of the range it lands in, be that empty. */
  lemma {:induction false} IntoRangePlace(s: State)
    requires InOrder(s.ranges) && s.rangeIndex < |s.ranges|
    ensures var (t, found) := IntoRange(s); var r := s.ranges[s.rangeIndex];
      if s.pos.bytes < r.endByte && r.startByte < r.endByte then found && t.pos == s.pos
      else if s.rangeIndex + 1 == |s.ranges| then !found && t.pos == s.pos
      else
        var q := s.ranges[Landing(s.ranges, s.rangeIndex + 1)];
        t.pos == Length(q.startByte, q.startPoint) && (found <==> q.startByte < q.endByte)
    decreases |s.ranges| - s.rangeIndex
  {
    hide IntoRange, InOrder;
    var i := s.rangeIndex;
    IntoRangeSteps(s);
    OrderedEach(s.ranges, i);
    if i + 1 < |s.ranges| {
      var q := s.ranges[i + 1];
      IntoRangePlace(s.(rangeIndex := i + 1, pos := Length(q.startByte, q.startPoint)));
    }
  }

  /** What the range an advance lands in covers. */
  lemma {:induction false} IntoRangeCovers(s: State)
    requires InOrder(s.ranges) && s.rangeIndex < |s.ranges|
    ensures var (t, found) := IntoRange(s);
      var r := s.ranges[s.rangeIndex];
      var later := s.ranges[s.rangeIndex + 1..];
      if s.pos.bytes < r.endByte && r.startByte < r.endByte then found && t == s
      else if found then
        && s.rangeIndex < t.rangeIndex < |s.ranges| && Covers(s.ranges[t.rangeIndex], t.pos.bytes)
        && forall b :: b < t.pos.bytes ==> !Includes(later, b)
      else t.Eof() && forall b :: !Includes(later, b)
    decreases |s.ranges| - s.rangeIndex
  {
    hide IntoRange, InOrder, Includes;
    var i := s.rangeIndex;
    var r := s.ranges[i];
    IntoRangeSteps(s);
    OrderedEach(s.ranges, i);
    if s.pos.bytes < r.endByte && r.startByte < r.endByte {
    } else if i + 1 == |s.ranges| {
      assert s.ranges[i + 1..] == [];
      NothingIncluded();
    } else {
      var q := s.ranges[i + 1];
      var next := s.(rangeIndex := i + 1, pos := Length(q.startByte, q.startPoint));
      IntoRangeCovers(next);
      OrderedEach(s.ranges, i + 1);
      var (t, found) := IntoRange(next);
      LaterIncludes(s.ranges, i + 1);
      if q.startByte < q.endByte {
        assert found && t == next;
      } else {
        var later, after := s.ranges[i + 1..], s.ranges[i + 2..];
        assert next.ranges[next.rangeIndex + 1..] == after;
        assert !found ==> forall b :: !Includes(after, b);
        assert found ==> forall b :: b < t.pos.bytes ==> !Includes(after, b);
        assert forall b :: Includes(later, b) <==> Includes(after, b);
      }
    }
  }

  /** Advancing stays in its range until the range is used up, and then lands on the first included byte of the
      ranges that follow, or, when they hold none, at the end: at the start of the last range, or where it was when
      that was its own. */
  lemma IntoRangeLands(s: State)
    requires InOrder(s.ranges) && s.rangeIndex < |s.ranges|
    ensures var (t, found) := IntoRange(s);
      var r := s.ranges[s.rangeIndex];
      var later := s.ranges[s.rangeIndex + 1..];
      if s.pos.bytes < r.endByte && r.startByte < r.endByte then found && t == s
      else if found then
        && s.rangeIndex < t.rangeIndex < |s.ranges| && Covers(s.ranges[t.rangeIndex], t.pos.bytes)
        && forall b :: b < t.pos.bytes ==> !Includes(later, b)
      else
        && t.Eof() && (forall b :: !Includes(later, b))
        && t.pos == if later == [] then s.pos
                    else Length(s.ranges[|s.ranges| - 1].startByte, s.ranges[|s.ranges| - 1].startPoint)
  {
    hide IntoRange, Includes, Landing;
    IntoRangeCovers(s);
    IntoRangePlace(s);
  }

  /** Passing a character leads back exactly when the range landed in starts before the character ends. */
  lemma StepsBackExactly(s: State)
    requires InOrder(s.ranges) && s.rangeIndex < |s.ranges|
    ensures Passed(s).pos.bytes == s.pos.bytes + s.lookaheadSize
    ensures IntoRange(Passed(s)).0.pos.bytes < Passed(s).pos.bytes <==>
            && s.rangeIndex + 1 < |s.ranges|
            && s.ranges[Landing(s.ranges, s.rangeIndex + 1)].startByte < s.pos.bytes + s.lookaheadSize
  {
    hide Passed, IntoRange, Landing, InOrder;
    PassedBytes(s);
    var p, i := Passed(s), s.rangeIndex;
    IntoRangePlace(p);
    OrderedEach(s.ranges, i);
    if i + 1 < |s.ranges| { LandsBehind(s.ranges, i); }
  }

  lemma PassedBytes(s: State)
    ensures var t := Passed(s);
      t.ranges == s.ranges && t.rangeIndex == s.rangeIndex && t.pos.bytes == s.pos.bytes + s.lookaheadSize
  {
  }

  lemma LandsBehind(rs: seq<Range>, i: nat)
    requires InOrder(rs) && i + 1 < |rs|
    ensures rs[i].endByte <= rs[Landing(rs, i + 1)].startByte
  {
    hide Landing;
  }

  /** A character of two bytes at the end of one range, with another range right behind it, empty or not: passing
      the character leads one byte back, to that range's start. */
  lemma StraddlingSteps(s: State, r: Range, q: Range)
    requires s.ranges == [r, q] && r.startByte < r.endByte == q.startByte <= q.endByte && s.rangeIndex == 0
    requires s.pos.bytes == r.endByte - 1 && s.lookaheadSize == 2
    ensures Passed(s).pos.bytes == q.startByte + 1
    ensures IntoRange(Passed(s)).0.pos.bytes == q.startByte
    ensures IntoRange(Passed(s)).1 <==> q.startByte < q.endByte
  {
    hide IntoRange;
    assert Landing([r, q], 1) == 1;
    IntoRangePlace(Passed(s));
  }

  /** The first of the later ranges, and the ones after it; what is included there starts no earlier. */
  lemma LaterIncludes(rs: seq<Range>, i: nat)
    requires i < |rs| && InOrder(rs)
    ensures forall b :: Includes(rs[i..], b) <==> Covers(rs[i], b) || Includes(rs[i + 1..], b)
    ensures forall b :: b < rs[i].startByte ==> !Includes(rs[i..], b)
  {
    var later := rs[i..];
    assert forall k :: 0 < k < |later| ==> rs[i + 1..][k - 1] == later[k];
    forall b ensures Includes(later, b) <==> Covers(rs[i], b) || Includes(rs[i + 1..], b) {
      if Includes(rs[i + 1..], b) {
        var k :| 0 <= k < |rs| - i - 1 && Covers(rs[i + 1..][k], b);
        assert later[k + 1] == rs[i + 1..][k];
      }
      if Covers(rs[i], b) { assert Covers(later[0], b); }
    }
  }
}
