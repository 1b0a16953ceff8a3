/** Reading a well-formed UTF-8 document over one included range: however it is cut into chunks, the
    lexer sees its code points, each at its own byte, and its column counts them. */
module LexerText {
  import opened Lengths
  import opened EditSpec
  import opened Ranges
  import opened Utf8
  import opened Lexer

  predicate Scalars(cps: seq<int>) { forall i :: 0 <= i < |cps| ==> Scalar(cps[i]) }

  function Bytes(cps: seq<int>): seq<Byte>
    requires Scalars(cps)
  {
    if cps == [] then [] else Encode(cps[0]) + Bytes(cps[1..])
  }

  /** Where code point k starts. */
  function Offset(cps: seq<int>, k: nat): nat
    requires Scalars(cps) && k <= |cps|
  {
    |Bytes(cps[..k])|
  }

  /** Row, and bytes since the last newline. */
  function ExtentAt(cps: seq<int>, k: nat): Point
    requires Scalars(cps) && k <= |cps|
  {
    if k == 0 then Point(0, 0)
    else
      var p := ExtentAt(cps, k - 1);
      if cps[k - 1] == NEWLINE then Point(p.row + 1, 0) else Point(p.row, p.column + |Encode(cps[k - 1])|)
  }

  /** The part of a document an included range holds: code points first up to last. */
  datatype Frame = Frame(range: Range, first: nat, last: nat)

  /** The range starts at a code point and ends at one, or past the document. */
  ghost predicate Framed(f: Frame, cps: seq<int>)
    requires Scalars(cps)
  {
    && f.first <= f.last <= |cps| && f.range.startByte <= f.range.endByte
    && Length(f.range.startByte, f.range.startPoint) == PositionAt(cps, f.first)
    && (if f.range.endByte <= |Bytes(cps)| then Length(f.range.endByte, f.range.endPoint) == PositionAt(cps, f.last)
        else f.last == |cps|)
  }

  /** Code points since the last newline, or since the range's first when that is later; a byte order mark at
      the start of the document is left out. */
  function ColumnAt(cps: seq<int>, first: nat, k: nat): nat
    requires first <= k <= |cps|
  {
    if k == first || cps[k - 1] == NEWLINE then 0
    else ColumnAt(cps, first, k - 1) + (if k == 1 && cps[0] == BYTE_ORDER_MARK then 0 else 1)
  }

  function PositionAt(cps: seq<int>, k: nat): Length
    requires Scalars(cps) && k <= |cps|
  {
    Length(Offset(cps, k), ExtentAt(cps, k))
  }

  /** The input serves the document: each read answers some stretch of it, at least four bytes or all
      that is left. */
  ghost predicate Serves(env: Input, cps: seq<int>)
    requires Scalars(cps)
  {
    && env.isUtf8
    && forall at, p :: 0 <= at <= |Bytes(cps)| ==> Stretch(env.read(at, p), Bytes(cps), at)
  }

  predicate Stretch(chunk: seq<Byte>, text: seq<Byte>, at: nat)
    requires at <= |text|
  {
    at + |chunk| <= |text| && chunk == text[at..at + |chunk|] && (|chunk| >= 4 || at + |chunk| == |text|)
  }

  /** The lexer stands before code point k of the range, or at the range's end. */
  ghost predicate Before(env: Input, s: State, cps: seq<int>, f: Frame, k: nat)
    requires Scalars(cps) && Framed(f, cps)
  {
    && f.first <= k <= f.last && s.ranges == [f.range] && s.pos == PositionAt(cps, k)
    && (s.columnValid ==> s.columnValue == ColumnAt(cps, f.first, k))
    && if k == f.last then s.rangeIndex == 1
       else
         && s.rangeIndex == 0 && s.InChunk() && Holding(s, cps)
         && s.lookahead == cps[k] && s.lookaheadSize == |Encode(cps[k])|
  }

  /** The chunk is a stretch of the document. */
  ghost predicate Holding(s: State, cps: seq<int>)
    requires Scalars(cps)
  {
    s.chunk == [] ||
    (s.chunkStart + |s.chunk| <= |Bytes(cps)| && s.chunk == Bytes(cps)[s.chunkStart..s.chunkStart + |s.chunk|])
  }

  /** The code point after the last newline before k. */
  function LineStart(cps: seq<int>, k: nat): (j: nat)
    requires k <= |cps|
    ensures j <= k
  {
    if k == 0 || cps[k - 1] == NEWLINE then k else LineStart(cps, k - 1)
  }

  /** The range is over before the document is, and going back for the column at its end stays there: the
      range is empty, or was cut right behind a newline. */
  predicate Unresumable(cps: seq<int>, f: Frame)
    requires f.last <= |cps|
  {
    f.last < |cps| && (f.range.startByte == f.range.endByte || LineStart(cps, f.last) == f.last)
  }

  /** At the end of a range that cannot be resumed, with the column still to be counted. */
  predicate Trapped(s: State, cps: seq<int>, f: Frame, k: nat)
    requires f.last <= |cps|
  {
    k == f.last && !s.columnValid && Unresumable(cps, f)
  }

  // ---------------------------------------------------------------- bytes of a document

  lemma {:induction false} BytesAppend(a: seq<int>, b: seq<int>)
    requires Scalars(a) && Scalars(b)
    ensures Scalars(a + b) && Bytes(a + b) == Bytes(a) + Bytes(b)
    decreases |a|
  {
    hide Encode;
    if a == [] {
      assert a + b == b;
    } else {
      assert (a + b)[0] == a[0] && (a + b)[1..] == a[1..] + b;
      BytesAppend(a[1..], b);
    }
  }

  lemma BytesOne(c: int, rest: seq<int>)
    requires Scalar(c) && Scalars(rest)
    ensures Scalars([c] + rest) && Bytes([c] + rest) == Encode(c) + Bytes(rest)
  {
    hide Encode;
    assert ([c] + rest)[1..] == rest;
  }

  lemma Regroup<T>(a: seq<T>, b: seq<T>, c: seq<T>)
    ensures a + (b + c) == a + b + c
  {
  }

  lemma ScalarsAround(cps: seq<int>, k: nat)
    requires Scalars(cps) && k < |cps|
    ensures Scalars(cps[..k]) && Scalar(cps[k]) && Scalars(cps[k + 1..]) && Scalars(cps[..k + 1]) && Scalars([cps[k]])
    ensures cps == cps[..k] + ([cps[k]] + cps[k + 1..]) && cps[..k + 1] == cps[..k] + [cps[k]]
  {
  }

  /** The document around code point k. */
  lemma BytesAround(cps: seq<int>, k: nat)
    requires Scalars(cps) && k < |cps|
    ensures Bytes(cps) == Bytes(cps[..k]) + Encode(cps[k]) + Bytes(cps[k + 1..])
    ensures Offset(cps, k + 1) == Offset(cps, k) + |Encode(cps[k])| <= |Bytes(cps)|
  {
    ScalarsAround(cps, k);
    hide Encode, Bytes, Scalars, Scalar;
    var a, c, b := cps[..k], cps[k], cps[k + 1..];
    assert [c] + [] == [c];
    BytesOne(c, b);
    BytesOne(c, []);
    BytesNone();
    BytesAppend(a, [c] + b);
    BytesAppend(a, [c]);
    Regroup(Bytes(a), Encode(c), Bytes(b));
  }

  lemma BytesNone()
    ensures Bytes([]) == []
  {
  }

  lemma OffsetEnd(cps: seq<int>)
    requires Scalars(cps)
    ensures Offset(cps, |cps|) == |Bytes(cps)| && Offset(cps, 0) == 0
  {
    assert cps[..|cps|] == cps && cps[..0] == [];
  }

  /** A stretch of a + c + b that starts inside a and reaches past it. */
  lemma CutPiece<T>(a: seq<T>, c: seq<T>, b: seq<T>, start: nat, len: nat)
    requires c != [] && start <= |a| < start + len <= |a + c + b|
    ensures var rest := (a + c + b)[start..start + len][|a| - start..];
      && |rest| == start + len - |a|
      && (|rest| >= |c| ==> rest == c + rest[|c|..])
      && (|rest| < |c| ==> rest == c[..|rest|])
      && rest[0] == c[0]
  {
    var all := a + c + b;
    var rest := all[start..start + len][|a| - start..];
    assert forall i :: 0 <= i < |rest| ==> rest[i] == all[|a| + i];
    assert forall i :: 0 <= i < |c| ==> all[|a| + i] == c[i];
  }

  /** What a chunk holds from code point k on: the whole code point and more, or a cut piece of it. */
  lemma ChunkTail(cps: seq<int>, k: nat, start: nat, len: nat)
    requires Scalars(cps) && k < |cps| && start <= Offset(cps, k) < start + len && start + len <= |Bytes(cps)|
    ensures var rest := Bytes(cps)[start..start + len][Offset(cps, k) - start..];
      var size := |Encode(cps[k])|;
      && |rest| == start + len - Offset(cps, k)
      && (|rest| >= size ==> rest == Encode(cps[k]) + rest[size..])
      && (|rest| < size ==> rest == Encode(cps[k])[..|rest|])
      && rest[0] == Encode(cps[k])[0]
  {
    BytesAround(cps, k);
    EncodeShape(cps[k]);
    hide Encode, Bytes;
    CutPiece(Bytes(cps[..k]), Encode(cps[k]), Bytes(cps[k + 1..]), start, len);
  }

  // ---------------------------------------------------------------- one code point

  lemma DecodeWhole(c: int, rest: seq<Byte>)
    requires Scalar(c) && |rest| >= |Encode(c)| && rest == Encode(c) + rest[|Encode(c)|..]
    ensures Decode(rest) == Decoded(c, |Encode(c)|) && c != DECODE_ERROR
  {
    DecodeEncoded(c, rest[|Encode(c)|..]);
  }

  /** Looking up when the chunk holds all of the code point. */
  lemma LookupWhole(env: Input, s: State, c: int)
    requires env.isUtf8 && Scalar(c) && s.InChunk()
    requires var rest := s.chunk[s.pos.bytes - s.chunkStart..];
      |rest| >= |Encode(c)| && rest == Encode(c) + rest[|Encode(c)|..]
    ensures LookedUp(env, s) == s.(lookahead := c, lookaheadSize := |Encode(c)|)
  {
    var rest := s.chunk[s.pos.bytes - s.chunkStart..];
    DecodeWhole(c, rest);
    EncodeShape(c);
    hide Encode, Decode;
    assert rest[0] == Encode(c)[0];
  }

  /** Looking up when the chunk ends inside the code point: a fresh chunk is read. */
  lemma LookupCut(env: Input, s: State, c: int)
    requires env.isUtf8 && Scalar(c) && s.InChunk()
    requires var rest := s.chunk[s.pos.bytes - s.chunkStart..];
      |rest| < |Encode(c)| && rest == Encode(c)[..|rest|]
    requires var more := GotChunk(env, s); |more.chunk| >= |Encode(c)| && more.chunk == Encode(c) + more.chunk[|Encode(c)|..]
    ensures LookedUp(env, s) == GotChunk(env, s).(lookahead := c, lookaheadSize := |Encode(c)|)
  {
    var rest := s.chunk[s.pos.bytes - s.chunkStart..];
    DecodeCutIs(c, rest);
    EncodeShape(c);
    DecodeWhole(c, GotChunk(env, s).chunk);
    hide Encode, Decode, GotChunk;
    assert rest[0] == Encode(c)[0];
  }

  /** Looking up at code point k finds it, even when the chunk ends inside it. */
  lemma LookupFinds(env: Input, s: State, cps: seq<int>, k: nat)
    requires Scalars(cps) && Serves(env, cps) && k < |cps| && s.pos == PositionAt(cps, k)
    requires s.InChunk() && s.chunkStart + |s.chunk| <= |Bytes(cps)|
    requires s.chunk == Bytes(cps)[s.chunkStart..s.chunkStart + |s.chunk|]
    ensures var t := LookedUp(env, s);
      && t.lookahead == cps[k] && t.lookaheadSize == |Encode(cps[k])| && t.InChunk()
      && t.chunkStart + |t.chunk| <= |Bytes(cps)| && t.chunk == Bytes(cps)[t.chunkStart..t.chunkStart + |t.chunk|]
      && t == s.(lookahead := t.lookahead, lookaheadSize := t.lookaheadSize, chunk := t.chunk, chunkStart := t.chunkStart)
  {
    hide Bytes, Decode, Encode, LookedUp, ExtentAt;
    var c := cps[k];
    ChunkTail(cps, k, s.chunkStart, |s.chunk|);
    if |s.chunk[s.pos.bytes - s.chunkStart..]| >= |Encode(c)| {
      LookupWhole(env, s, c);
    } else {
      FreshChunk(env, s, cps, k);
      var more := GotChunk(env, s);
      ChunkTail(cps, k, more.chunkStart, |more.chunk|);
      assert more.chunk[0..] == more.chunk;
      LookupCut(env, s, c);
    }
  }

  lemma EncodeShape(c: int)
    requires Scalar(c)
    ensures Encode(c)[0] < 0x80 ==> Encode(c) == [c]
    ensures 1 <= |Encode(c)| <= 4
  {
  }

  lemma DecodeCutIs(c: int, rest: seq<Byte>)
    requires Scalar(c) && 0 < |rest| < |Encode(c)| && rest == Encode(c)[..|rest|]
    ensures Decode(rest).code == DECODE_ERROR
  {
    DecodeCut(c, |rest|);
  }

  /** A fresh chunk at a code point holds all of it. */
  lemma FreshChunk(env: Input, s: State, cps: seq<int>, k: nat)
    requires Scalars(cps) && Serves(env, cps) && k < |cps| && s.pos == PositionAt(cps, k)
    ensures var t := GotChunk(env, s);
      && t.chunk != [] && t.rangeIndex == s.rangeIndex && t.InChunk() && t.chunkStart == s.pos.bytes
      && |t.chunk| >= |Encode(cps[k])|
      && t.chunkStart + |t.chunk| <= |Bytes(cps)| && t.chunk == Bytes(cps)[t.chunkStart..t.chunkStart + |t.chunk|]
  {
    BytesAround(cps, k);
    EncodeShape(cps[k]);
    hide Bytes, Encode;
    assert Stretch(env.read(s.pos.bytes, s.pos.extent), Bytes(cps), s.pos.bytes);
  }

  lemma FrameBounds(f: Frame, cps: seq<int>)
    requires Scalars(cps) && Framed(f, cps)
    ensures f.first <= f.last <= |cps|
  {
  }

  /** Passing code point k. */
  lemma PassedPlace(s: State, cps: seq<int>, k: nat)
    requires Scalars(cps) && k < |cps| && s.pos == PositionAt(cps, k)
    requires s.lookahead == cps[k] && s.lookaheadSize == |Encode(cps[k])|
    ensures var t := Passed(s);
      && t.pos == PositionAt(cps, k + 1)
      && t.ranges == s.ranges && t.rangeIndex == s.rangeIndex && t.chunk == s.chunk && t.chunkStart == s.chunkStart
  {
    BytesAround(cps, k);
    EncodeShape(cps[k]);
    hide Bytes, Encode;
  }

  lemma PassedPosition(env: Input, s: State, cps: seq<int>, f: Frame, k: nat)
    requires Scalars(cps) && Framed(f, cps) && Before(env, s, cps, f, k) && k < f.last
    ensures var t := Passed(s);
      && t.pos == PositionAt(cps, k + 1)
      && (t.columnValid ==> t.columnValue == ColumnAt(cps, f.first, k + 1))
      && t.ranges == s.ranges && t.rangeIndex == 0 && t.chunk == s.chunk && t.chunkStart == s.chunkStart
  {
    BytesAround(cps, k);
    EncodeShape(cps[k]);
    FirstOffset(cps, k);
    hide Bytes, Encode, Framed;
  }

  lemma FirstOffset(cps: seq<int>, k: nat)
    requires Scalars(cps) && k <= |cps|
    ensures Offset(cps, k) == 0 <==> k == 0
  {
    if k > 0 {
      BytesAround(cps, k - 1);
      EncodeShape(cps[k - 1]);
    } else {
      OffsetNone(cps);
    }
  }

  lemma OffsetNone(cps: seq<int>)
    requires Scalars(cps)
    ensures Offset(cps, 0) == 0
  {
    assert cps[..0] == [];
  }

  lemma {:induction false} OffsetGrows(cps: seq<int>, i: nat, k: nat)
    requires Scalars(cps) && i <= k <= |cps|
    ensures Offset(cps, i) <= Offset(cps, k) <= |Bytes(cps)| && (Offset(cps, i) < Offset(cps, k) <==> i < k)
    decreases k
  {
    if i < k {
      OffsetGrows(cps, i, k - 1);
      BytesAround(cps, k - 1);
      EncodeShape(cps[k - 1]);
    } else if k < |cps| {
      BytesAround(cps, k);
    } else {
      OffsetEnd(cps);
    }
  }

  /** Where the range ends, seen from code point k. */
  lemma RangeEnd(cps: seq<int>, f: Frame, k: nat)
    requires Scalars(cps) && Framed(f, cps) && f.first <= k <= f.last
    ensures f.range.startByte <= Offset(cps, k) <= Offset(cps, f.last) <= f.range.endByte
    ensures k < f.last ==> Offset(cps, k) < f.range.endByte
    ensures f.range.endByte > Offset(cps, f.last) ==> f.last == |cps|
    ensures f.range.endByte == Offset(cps, f.last) ==> f.range.endPoint == ExtentAt(cps, f.last)
  {
    OffsetGrows(cps, f.first, k);
    OffsetGrows(cps, k, f.last);
    if f.last == |cps| { OffsetEnd(cps); }
    hide Bytes, Offset;
  }

  lemma RangeStart(cps: seq<int>, f: Frame, k: nat)
    requires Scalars(cps) && Framed(f, cps) && f.first <= k <= f.last
    ensures f.range.startByte == Offset(cps, k) ==> Length(f.range.startByte, f.range.startPoint) == PositionAt(cps, k)
  {
    OffsetGrows(cps, f.first, k);
    hide Bytes, Offset, ExtentAt;
  }

  /** The lexer stands at code point k but has not looked at it. */
  ghost predicate At(s: State, cps: seq<int>, f: Frame, k: nat)
    requires Scalars(cps) && Framed(f, cps)
  {
    && f.first <= k < f.last && s.pos == PositionAt(cps, k) && s.ranges == [f.range] && s.rangeIndex == 0
    && (s.columnValid ==> s.columnValue == ColumnAt(cps, f.first, k))
  }

  /** Looking, after a read when the chunk does not reach. */
  function Looked(env: Input, u: State): State { LookedUp(env, if u.InChunk() then u else GotChunk(env, u)) }

  lemma LookUpStands(env: Input, s: State, cps: seq<int>, f: Frame, k: nat)
    requires Scalars(cps) && Serves(env, cps) && Framed(f, cps) && At(s, cps, f, k) && s.InChunk() && Holding(s, cps)
    ensures Before(env, LookedUp(env, s), cps, f, k)
  {
    FrameBounds(f, cps);
    hide Bytes, Encode, Serves, LookedUp, GotChunk, Offset, ExtentAt, ColumnAt, Framed;
    LookupFinds(env, s, cps, k);
  }

  lemma LookedStands(env: Input, u: State, cps: seq<int>, f: Frame, k: nat)
    requires Scalars(cps) && Serves(env, cps) && Framed(f, cps) && At(u, cps, f, k) && Holding(u, cps)
    ensures Before(env, Looked(env, u), cps, f, k)
  {
    FrameBounds(f, cps);
    hide Bytes, Encode, Serves, LookedUp, Before, Offset, ExtentAt, ColumnAt, Framed;
    if u.InChunk() {
      LookUpStands(env, u, cps, f, k);
    } else {
      FreshChunk(env, u, cps, k);
      LookUpStands(env, GotChunk(env, u), cps, f, k);
    }
  }

  lemma AdvancedLooks(env: Input, s: State, skip: bool)
    ensures var (t, hasRange) := IntoRange(Passed(s));
      var u := if skip then t.(tokenStart := t.pos) else t;
      DoAdvanced(env, s, skip) == if hasRange then Looked(env, u) else Cleared(u).(lookahead := 0, lookaheadSize := 1)
  {
    hide LookedUp, GotChunk, IntoRange, Passed;
  }

  /** What passing code point k leaves: the next one to look at, or the end of the text, or of the range. */
  lemma PassedStands(env: Input, s: State, cps: seq<int>, f: Frame, k: nat)
    requires Scalars(cps) && Framed(f, cps) && Before(env, s, cps, f, k) && k < f.last
    ensures var t := Passed(s);
      && Holding(t, cps) && Holding(IntoRange(t).0, cps) && t.pos == PositionAt(cps, k + 1) && t.ranges == [f.range] && t.rangeIndex == 0
      && (t.columnValid ==> t.columnValue == ColumnAt(cps, f.first, k + 1))
      && (if k + 1 == f.last && f.range.endByte == Offset(cps, f.last) then IntoRange(t) == (t.(rangeIndex := 1), false)
          else IntoRange(t) == (t, true) && (k + 1 == f.last ==> f.last == |cps|))
  {
    PassedPosition(env, s, cps, f, k);
    RangeEnd(cps, f, k);
    RangeEnd(cps, f, k + 1);
    hide Bytes, Encode, Passed, Framed, Offset, ExtentAt, ColumnAt;
    var t := Passed(s);
    assert t.ranges[0] == f.range;
  }

  lemma EndStands(env: Input, u: State, cps: seq<int>, f: Frame)
    requires Scalars(cps) && Serves(env, cps) && Framed(f, cps) && Holding(u, cps) && f.last == |cps|
    requires u.pos == PositionAt(cps, |cps|) && u.ranges == [f.range]
    requires u.columnValid ==> u.columnValue == ColumnAt(cps, f.first, |cps|)
    ensures Before(env, Looked(env, u), cps, f, |cps|) && Looked(env, u).chunk == []
  {
    OffsetEnd(cps);
    AtEnd(env, u, cps);
    hide Bytes, Encode, Looked, Serves, ExtentAt, ColumnAt, Offset, Framed;
  }

  lemma RangeEndStands(env: Input, u: State, cps: seq<int>, f: Frame)
    requires Scalars(cps) && Framed(f, cps) && u.pos == PositionAt(cps, f.last) && u.ranges == [f.range] && u.rangeIndex == 1
    requires u.columnValid ==> u.columnValue == ColumnAt(cps, f.first, f.last)
    ensures Before(env, Cleared(u).(lookahead := 0, lookaheadSize := 1), cps, f, f.last)
  {
    FrameBounds(f, cps);
    hide Bytes, Encode, Offset, ExtentAt, ColumnAt, Framed;
  }

  /** The next place to stand, wherever the passing left the lexer. */
  lemma NextStands(env: Input, t: State, hasRange: bool, cps: seq<int>, f: Frame, k: nat, skip: bool)
    requires Scalars(cps) && Serves(env, cps) && Framed(f, cps) && f.first < k <= f.last && Holding(t, cps)
    requires t.pos == PositionAt(cps, k) && t.ranges == [f.range]
    requires t.columnValid ==> t.columnValue == ColumnAt(cps, f.first, k)
    requires if hasRange then t.rangeIndex == 0 && (k == f.last ==> f.last == |cps|) else t.rangeIndex == 1 && k == f.last
    ensures var u := if skip then t.(tokenStart := t.pos) else t;
      var v := if hasRange then Looked(env, u) else Cleared(u).(lookahead := 0, lookaheadSize := 1);
      Before(env, v, cps, f, k) && (k == f.last ==> v.chunk == [])
  {
    hide Bytes, Serves, Looked, PositionAt, ColumnAt, Before, Framed;
    var u := if skip then t.(tokenStart := t.pos) else t;
    if !hasRange {
      RangeEndStands(env, u, cps, f);
    } else if k == f.last {
      EndStands(env, u, cps, f);
    } else {
      LookedStands(env, u, cps, f, k);
    }
  }

  /** One step: from code point k to the next, whatever the chunks. */
  lemma StepReads(env: Input, s: State, cps: seq<int>, f: Frame, k: nat, skip: bool)
    requires Scalars(cps) && Serves(env, cps) && Framed(f, cps) && Before(env, s, cps, f, k) && k < f.last
    ensures Before(env, DoAdvanced(env, s, skip), cps, f, k + 1)
    ensures k + 1 == f.last ==> DoAdvanced(env, s, skip).chunk == []
  {
    hide *;
    FrameBounds(f, cps);
    BeforeFacts(env, s, cps, f, k);
    PassedStands(env, s, cps, f, k);
    AdvancedLooks(env, s, skip);
    var (t, hasRange) := IntoRange(Passed(s));
    NextStands(env, t, hasRange, cps, f, k + 1, skip);
  }

  /** At the end of the document the chunk is used up, and the next read says so. */
  lemma AtEnd(env: Input, u: State, cps: seq<int>)
    requires Scalars(cps) && Serves(env, cps) && u.pos.bytes == |Bytes(cps)|
    requires Holding(u, cps)
    ensures !u.InChunk()
    ensures var t := GotChunk(env, u); t == u.(chunkStart := u.pos.bytes, chunk := [], rangeIndex := |u.ranges|)
    ensures Looked(env, u)
         == u.(chunkStart := u.pos.bytes, chunk := [], rangeIndex := |u.ranges|, lookahead := 0, lookaheadSize := 1)
  {
    hide Bytes;
    assert Stretch(env.read(u.pos.bytes, u.pos.extent), Bytes(cps), u.pos.bytes);
  }

  // ---------------------------------------------------------------- the whole range

  /** start, from a fresh lexer over some text. */
  lemma StartedLooks(env: Input, s: State)
    requires s.lookaheadSize == 0 && (s.chunk == [] || s.InChunk()) && !s.Eof()
    ensures var v := Looked(env, s.(tokenStart := s.pos));
      Started(env, s) == StartColumn(env, v)
    ensures Looked(env, s.(tokenStart := s.pos)).pos == s.pos
  {
    hide LookedUp, DoAdvanced;
    LookedKeepsPosition(env, s.(tokenStart := s.pos));
    LookedKeepsPosition(env, GotChunk(env, s.(tokenStart := s.pos)));
  }

  lemma LookedKeepsPosition(env: Input, s: State)
    ensures LookedUp(env, s).pos == s.pos
  {
  }

  lemma LookedKeepsColumn(env: Input, t: State, skip: bool)
    ensures Looked(env, if skip then t.(tokenStart := t.pos) else t).columnValid == t.columnValid
  {
    hide Decode;
  }

  /** A move within the one range. */
  lemma MovedOne(s: State, to: Length, r: Range)
    requires s.ranges == [r]
    ensures var t := Moved(s, to);
      && t.ranges == [r] && (to.bytes != s.pos.bytes ==> !t.columnValid)
      && if r.startByte < r.endByte && to.bytes < r.endByte then
           && t.rangeIndex == 0 && t.lookaheadSize == 0 && (t.chunk == [] || t.InChunk())
           && (t.chunk != [] ==> t.chunk == s.chunk && t.chunkStart == s.chunkStart)
           && t.pos == (if r.startByte >= to.bytes then Length(r.startByte, r.startPoint) else to)
         else
           && t.rangeIndex == 1 && t.pos == Length(r.endByte, r.endPoint)
           && t == Cleared(t).(lookahead := 0, lookaheadSize := 1)
  {
    assert RangeAt([r], 0, to.bytes) == if r.startByte < r.endByte && to.bytes < r.endByte then 0 else 1;
  }

  /** Before any reading: a fresh lexer given the range. */
  ghost predicate Unread(s: State, r: Range) { s == Moved(State(0, ZERO, ZERO, [r], [], 0, 0, 0, false, 0), ZERO) }

  /** A fresh lexer stands at the start of a range that is not empty, and past one that is. */
  lemma UnreadAt(s: State, cps: seq<int>, f: Frame)
    requires Scalars(cps) && Framed(f, cps) && Unread(s, f.range)
    ensures s.pos == PositionAt(cps, f.first) && s.ranges == [f.range] && s.chunk == [] && s.chunkStart == 0 && !s.columnValid
    ensures if f.range.startByte < f.range.endByte then s.rangeIndex == 0 && s.lookaheadSize == 0
            else s.rangeIndex == 1 && f.first == f.last
  {
    RangeEnd(cps, f, f.first);
    RangeEnd(cps, f, f.last);
    OffsetGrows(cps, f.first, f.last);
    hide Bytes, Offset, ExtentAt;
    assert RangeAt([f.range], 0, 0) == if f.range.startByte < f.range.endByte then 0 else 1;
  }

  lemma ColumnFrom(env: Input, s: State, cps: seq<int>, f: Frame, k: nat)
    requires Scalars(cps) && Framed(f, cps) && Before(env, s, cps, f, k) && ColumnAt(cps, f.first, k) == 0
    ensures Before(env, WithColumn(s, 0), cps, f, k)
  {
    hide Bytes, Encode, Offset, ExtentAt, ColumnAt, Framed;
  }

  /** Where reading from code point k starts: past a byte order mark at the start of the document. */
  function TextAt(cps: seq<int>, f: Frame, k: nat): nat
    requires f.last <= |cps|
  {
    if k == 0 < f.last && cps[0] == BYTE_ORDER_MARK then 1 else k
  }

  function TextFrom(cps: seq<int>, f: Frame): nat
    requires f.last <= |cps|
  {
    TextAt(cps, f, f.first)
  }

  /** In its range at code point k, with nothing looked at and no chunk of another place. */
  ghost predicate Unlooked(s: State, cps: seq<int>, f: Frame, k: nat)
    requires Scalars(cps) && Framed(f, cps)
  {
    && f.first <= k <= f.last && (k == f.last ==> f.last == |cps|)
    && s.pos == PositionAt(cps, k) && s.ranges == [f.range] && s.rangeIndex == 0 && s.lookaheadSize == 0
    && Holding(s, cps) && (s.chunk == [] || s.InChunk()) && !s.columnValid
  }

  lemma UnlookedLooks(env: Input, t: State, cps: seq<int>, f: Frame, k: nat)
    requires Scalars(cps) && Serves(env, cps) && Framed(f, cps) && Unlooked(t, cps, f, k)
    ensures Before(env, Looked(env, t), cps, f, k) && (k == f.last ==> Looked(env, t).chunk == [])
    ensures !Looked(env, t).columnValid
  {
    FrameBounds(f, cps);
    LookedKeepsColumn(env, t, false);
    if k < f.last {
      hide Bytes, Encode, LookedUp, GotChunk, Offset, ExtentAt, Framed, Looked, ColumnAt;
      LookedStands(env, t, cps, f, k);
    } else {
      OffsetEnd(cps);
      hide Bytes, Encode, LookedUp, GotChunk, Offset, ExtentAt, Framed, Looked, ColumnAt;
      EndStands(env, t, cps, f);
    }
  }

  /** What start does with the column, once it has looked. */
  function StartColumn(env: Input, v: State): State {
    if v.pos.bytes != 0 then v
    else WithColumn(if v.lookahead == BYTE_ORDER_MARK && v.chunk != [] then DoAdvanced(env, v, true) else v, 0)
  }

  /** start stands before the place it was put at, past a byte order mark at the start of the document, and in
      column zero there. */
  lemma ColumnStarts(env: Input, v: State, cps: seq<int>, f: Frame, k: nat)
    requires Scalars(cps) && Serves(env, cps) && Framed(f, cps) && Before(env, v, cps, f, k) && (k == f.last ==> v.chunk == [])
    ensures var u := StartColumn(env, v); var at := TextAt(cps, f, k);
      && f.first <= at <= f.last && Before(env, u, cps, f, at) && (at == f.last ==> u.chunk == [])
      && (k == 0 ==> u.columnValid) && (k > 0 ==> u == v)
  {
    FrameBounds(f, cps);
    FirstOffset(cps, k);
    BeforeFacts(env, v, cps, f, k);
    if k == 0 {
      if f.last > 0 && cps[0] == BYTE_ORDER_MARK {
        StepReads(env, v, cps, f, 0, true);
        hide Bytes, Encode, Serves, DoAdvanced, Offset, ExtentAt, Framed, Before;
        ColumnFrom(env, DoAdvanced(env, v, true), cps, f, 1);
      } else {
        hide Bytes, Encode, Serves, DoAdvanced, Offset, ExtentAt, Framed, Before;
        ColumnFrom(env, v, cps, f, 0);
      }
    }
  }

  lemma StartFrom(env: Input, t: State, cps: seq<int>, f: Frame, k: nat)
    requires Scalars(cps) && Serves(env, cps) && Framed(f, cps) && Unlooked(t, cps, f, k)
    ensures var u := Started(env, t); var at := TextAt(cps, f, k);
      && f.first <= at <= f.last && Before(env, u, cps, f, at) && (at == f.last ==> u.chunk == [])
      && (u.columnValid <==> k == 0)
  {
    var t' := t.(tokenStart := t.pos);
    FrameBounds(f, cps);
    StartedLooks(env, t);
    hide Started, Bytes, Encode, Looked, Serves, Offset, ExtentAt, Framed, Before, StartColumn;
    UnlookedLooks(env, t', cps, f, k);
    ColumnStarts(env, Looked(env, t'), cps, f, k);
  }

  /** start stands before the range's first code point that is not a byte order mark, in column zero; the lexer is
      trapped there exactly when the range is empty and the document goes on behind it. */
  lemma StartReads(env: Input, s: State, cps: seq<int>, f: Frame)
    requires Scalars(cps) && Serves(env, cps) && Framed(f, cps) && Unread(s, f.range)
    ensures var u := Started(env, s); var at := TextFrom(cps, f);
      && f.first <= at <= f.last && Before(env, u, cps, f, at) && ColumnAt(cps, f.first, at) == 0 && Ready(u)
      && (Trapped(u, cps, f, at) <==> f.range.startByte == f.range.endByte && f.first < |cps|)
    ensures f.first == 0 && f.range.endByte > 0 ==> Started(env, s).columnValid
  {
    var at := TextFrom(cps, f);
    UnreadAt(s, cps, f);
    FirstOffset(cps, f.first);
    RangeEnd(cps, f, f.last);
    if f.range.startByte < f.range.endByte {
      UnreadLooks(s, cps, f);
      StartFrom(env, s, cps, f, f.first);
      OffsetGrows(cps, f.first, f.last);
      BeforeFacts(env, Started(env, s), cps, f, at);
      hide Bytes, Offset, ExtentAt, Framed, Started, Ready, Before;
    } else {
      hide Bytes, Offset, ExtentAt, Framed;
    }
  }

  lemma UnreadLooks(s: State, cps: seq<int>, f: Frame)
    requires Scalars(cps) && Framed(f, cps) && Unread(s, f.range) && f.range.startByte < f.range.endByte
    ensures Unlooked(s, cps, f, f.first)
  {
    UnreadAt(s, cps, f);
    RangeEnd(cps, f, f.first);
    OffsetGrows(cps, f.first, f.last);
    hide Bytes, Offset, ExtentAt;
  }

  /** Going to another code point of the range, or to its end. */
  lemma MovedTo(env: Input, s: State, cps: seq<int>, f: Frame, k0: nat, k: nat)
    requires Scalars(cps) && Framed(f, cps) && Before(env, s, cps, f, k0) && Ready(s) && f.first <= k <= f.last && k != k0
    ensures PositionAt(cps, k).bytes != s.pos.bytes
    ensures var t := Moved(s, PositionAt(cps, k));
      if Offset(cps, k) < f.range.endByte then Unlooked(t, cps, f, k)
      else k == f.last && Before(env, t, cps, f, k) && t.chunk == [] && !t.columnValid
  {
    BeforeFacts(env, s, cps, f, k0);
    OffsetGrows(cps, if k < k0 then k else k0, if k < k0 then k0 else k);
    RangeEnd(cps, f, k);
    RangeEnd(cps, f, k0);
    RangeStart(cps, f, k);
    hide Bytes, Offset, ExtentAt, Encode, ColumnAt, Framed, Ready, InsideRange, Before, Moved;
    MovedOne(s, PositionAt(cps, k), f.range);
    if Offset(cps, k) >= f.range.endByte { RangeEndStands(env, Moved(s, PositionAt(cps, k)), cps, f); }
  }

  /** Where start leaves a lexer that stands somewhere already. */
  lemma StartStands(env: Input, s: State, cps: seq<int>, f: Frame, k: nat)
    requires Scalars(cps) && Serves(env, cps) && Framed(f, cps) && Before(env, s, cps, f, k) && Ready(s)
    ensures var u := Started(env, s); var at := TextAt(cps, f, k);
      && f.first <= at <= f.last && Before(env, u, cps, f, at) && (at == f.last ==> u.chunk == [])
      && (k == 0 < f.last ==> u.columnValid) && (k > 0 || f.last == 0 ==> u.columnValid == s.columnValid)
  {
    BeforeFacts(env, s, cps, f, k);
    var t := s.(tokenStart := s.pos);
    if k < f.last {
      EncodeShape(cps[k]);
      hide Bytes, Encode, Serves, DoAdvanced, LookedUp, GotChunk, Offset, ExtentAt, Framed, Ready, InsideRange, ColumnAt, Decode;
      assert Before(env, t, cps, f, k);
      ColumnStarts(env, t, cps, f, k);
    } else {
      hide Bytes, Encode, Serves, Offset, ExtentAt, Framed, ColumnAt;
    }
  }

  /** A token begins: wherever the lexer stood, resetting to code point k and starting stands before it, past a byte
      order mark at the start of the document.  It is trapped there exactly when k is the end of a range that cannot
      be resumed and the column was not known there before. */
  lemma RestartReads(env: Input, s: State, cps: seq<int>, f: Frame, k0: nat, k: nat)
    requires Scalars(cps) && Serves(env, cps) && Framed(f, cps) && Before(env, s, cps, f, k0) && Ready(s)
    requires f.first <= k <= f.last
    ensures var u := Started(env, ResetTo(s, PositionAt(cps, k))); var at := TextAt(cps, f, k);
      && f.first <= at <= f.last && Before(env, u, cps, f, at) && Ready(u)
      && (Trapped(u, cps, f, at) <==> k == f.last && Unresumable(cps, f) && (k0 != k || !s.columnValid))
  {
    var t := ResetTo(s, PositionAt(cps, k));
    var u := Started(env, t);
    FrameBounds(f, cps);
    BeforeFacts(env, s, cps, f, k0);
    RangeEnd(cps, f, k);
    hide Started, Bytes, Serves, Moved, Offset, ExtentAt, Framed, Before, Ready, ColumnAt, LineStart, Unlooked;
    if k == k0 {
      StartStands(env, t, cps, f, k);
    } else {
      MovedTo(env, s, cps, f, k0, k);
      if Offset(cps, k) < f.range.endByte {
        StartFrom(env, t, cps, f, k);
      } else {
        BeforeFacts(env, t, cps, f, k);
        StartStands(env, t, cps, f, k);
      }
    }
    BeforeFacts(env, u, cps, f, TextAt(cps, f, k));
  }

  lemma BeforeFacts(env: Input, s: State, cps: seq<int>, f: Frame, k: nat)
    requires Scalars(cps) && Framed(f, cps) && Before(env, s, cps, f, k)
    ensures f.first <= k <= f.last <= |cps| && s.pos == PositionAt(cps, k) && s.ranges == [f.range]
    ensures (s.Eof() <==> k == f.last) && (k == f.last ==> s.rangeIndex == 1)
    ensures Ready(s) <==> k < f.last || s.chunk == []
    ensures k < f.last ==> s.lookahead == cps[k] && s.chunk != [] && InsideRange(s)
    ensures s.columnValid ==> s.columnValue == ColumnAt(cps, f.first, k)
    ensures Ready(s) ==> Holding(s, cps)
  {
    RangeEnd(cps, f, k);
    if k < f.last && cps[k] == BYTE_ORDER_MARK { assert |Encode(cps[k])| == 3; }
    hide Bytes, Offset, ExtentAt, Encode;
  }

  // ---------------------------------------------------------------- the column

  /** Where a column is counted from: the start of the line, or of the range when the line starts before it. */
  function CountFrom(cps: seq<int>, first: nat, k: nat): (j: nat)
    requires first <= k <= |cps|
    ensures first <= j <= k
  {
    if LineStart(cps, k) < first then first else LineStart(cps, k)
  }

  lemma {:induction false} LineStartIs(cps: seq<int>, k: nat)
    requires Scalars(cps) && k <= |cps|
    ensures var j := LineStart(cps, k);
      Offset(cps, j) + ExtentAt(cps, k).column == Offset(cps, k) && ExtentAt(cps, j) == Point(ExtentAt(cps, k).row, 0)
  {
    hide Encode, Bytes;
    if k > 0 && cps[k - 1] != NEWLINE {
      LineStartIs(cps, k - 1);
      BytesAround(cps, k - 1);
    }
  }

  /** The column is the number of code points from there on, a byte order mark at the start of the document
      not counted. */
  lemma {:induction false} ColumnCounts(cps: seq<int>, first: nat, k: nat)
    requires first <= k <= |cps|
    ensures var j := CountFrom(cps, first, k);
      && ColumnAt(cps, first, j) == 0
      && ColumnAt(cps, first, k) == k - j - (if j == 0 < k && cps[0] == BYTE_ORDER_MARK then 1 else 0)
    decreases k
  {
    if k > first && cps[k - 1] != NEWLINE { ColumnCounts(cps, first, k - 1); }
  }

  lemma StepKeepsColumn(env: Input, s: State, skip: bool)
    ensures s.columnValid ==> DoAdvanced(env, s, skip).columnValid
  {
    hide IntoRange, Decode;
  }

  /** Going back to the start of the line: into the range, at its start when the line starts before it; or
      nowhere, when the range ended with that line's first code point still to come. */
  lemma MovedToLine(s: State, cps: seq<int>, f: Frame, k: nat)
    requires Scalars(cps) && Framed(f, cps) && f.first <= k <= f.last && s.ranges == [f.range]
    ensures var t := WithColumn(Moved(s, PositionAt(cps, LineStart(cps, k))), 0);
      var j := CountFrom(cps, f.first, k);
      && t.ranges == [f.range] && t.columnValid && t.columnValue == 0
      && (if f.range.startByte < f.range.endByte && Offset(cps, LineStart(cps, k)) < f.range.endByte then
            t.rangeIndex == 0 && t.pos == PositionAt(cps, j) && (j == f.last ==> f.last == |cps|)
          else t.rangeIndex == 1 && k == f.last && j == k && t.pos == PositionAt(cps, k))
  {
    var j0 := LineStart(cps, k);
    OffsetGrows(cps, j0, k);
    RangeEnd(cps, f, k);
    RangeEnd(cps, f, f.first);
    OffsetGrows(cps, k, f.last);
    OffsetGrows(cps, f.first, f.last);
    if j0 <= f.first { OffsetGrows(cps, j0, f.first); } else { OffsetGrows(cps, f.first, j0); }
    hide Bytes, Offset, ExtentAt, LineStart, Moved;
    MovedOne(s, PositionAt(cps, j0), f.range);
  }

  /** Reading from where a column is counted, in column zero. */
  lemma LineStands(env: Input, t: State, cps: seq<int>, f: Frame, j: nat)
    requires Scalars(cps) && Serves(env, cps) && Framed(f, cps) && f.first <= j <= f.last && ColumnAt(cps, f.first, j) == 0
    requires t.pos == PositionAt(cps, j) && t.ranges == [f.range] && t.columnValid && t.columnValue == 0
    requires if t.rangeIndex == 0 then j == f.last ==> f.last == |cps| else t.rangeIndex == 1 && j == f.last
    ensures var u := GotChunk(env, t);
      && (u.Eof() <==> j == f.last)
      && Before(env, if j == f.last then u else LookedUp(env, u), cps, f, j)
      && u.columnValid && LookedUp(env, u).columnValid
  {
    var u := GotChunk(env, t);
    if j < f.last {
      FreshChunk(env, t, cps, j);
      assert At(u, cps, f, j);
      hide Bytes, Encode, Offset, ExtentAt, ColumnAt, Before, Serves, Decode, Framed;
      LookUpStands(env, u, cps, f, j);
    } else if t.rangeIndex == 0 {
      OffsetEnd(cps);
      hide Bytes;
      assert Stretch(env.read(t.pos.bytes, t.pos.extent), Bytes(cps), t.pos.bytes);
    }
  }

  /** Whether going back for the column at the end of the range leaves a chunk with no range to read it in. */
  lemma KeepsAChunk(env: Input, s: State, cps: seq<int>, f: Frame)
    requires Scalars(cps) && Serves(env, cps) && Framed(f, cps) && s.ranges == [f.range]
    ensures var u := GotChunk(env, WithColumn(Moved(s, PositionAt(cps, LineStart(cps, f.last))), 0));
      u.Eof() && u.chunk != [] <==> Unresumable(cps, f)
  {
    var j0 := LineStart(cps, f.last);
    MovedToLine(s, cps, f, f.last);
    RangeEnd(cps, f, f.last);
    OffsetGrows(cps, j0, f.last);
    var t := WithColumn(Moved(s, PositionAt(cps, j0)), 0);
    var j := CountFrom(cps, f.first, f.last);
    hide Moved, Framed, ExtentAt, LineStart;
    if j < |cps| {
      FreshChunk(env, t, cps, j);
    } else {
      OffsetEnd(cps);
      hide Bytes, Offset;
      assert Stretch(env.read(t.pos.bytes, t.pos.extent), Bytes(cps), t.pos.bytes);
    }
  }

  /** The column of the current position.  When it has to be counted again the lexer goes back to the start of
      the line, or of the range, and returns to where it stood.  A lexer that could be advanced still can be, except
      when it is trapped. */
  method GetColumn(l: Lexer, ghost cps: seq<int>, ghost f: Frame, ghost k: nat) returns (column: nat)
    requires Scalars(cps) && Serves(l.input, cps) && Framed(f, cps) && Before(l.input, l.Now(), cps, f, k)
    modifies l
    ensures column == ColumnAt(cps, f.first, k)
    ensures l.pos == old(l.pos) && Before(l.input, l.Now(), cps, f, k) && l.columnValid
    ensures old(l.columnValid) ==> l.Now() == old(l.Now())
    ensures !old(l.columnValid) && k == f.last ==> (l.chunk != [] <==> Unresumable(cps, f))
    ensures old(Ready(l.Now())) ==> (Ready(l.Now()) <==> !old(Trapped(l.Now(), cps, f, k)))
  {
    hide Bytes, DoAdvanced, Serves, LookedUp, Moved, GotChunk, Offset, ExtentAt, ColumnAt, Before, Framed, CountFrom,
         LineStart, Unresumable, Ready;
    BeforeFacts(l.input, l.Now(), cps, f, k);
    if !l.columnValid {
      var goalByte := l.pos.bytes;
      ghost var j := CountFrom(cps, f.first, k);
      LineStartIs(cps, k);
      ColumnCounts(cps, f.first, k);
      MovedToLine(l.Now(), cps, f, k);
      if k == f.last { KeepsAChunk(l.input, l.Now(), cps, f); }
      l.GotoPosition(Length(l.pos.bytes - l.pos.extent.column, Point(l.pos.extent.row, 0)));
      l.SetColumn(0);
      LineStands(l.input, l.Now(), cps, f, j);
      l.GetChunk();
      ghost var stuck := l.Eof() && l.chunk != [];
      if !l.Eof() {
        l.GetLookahead();
        while l.pos.bytes < goalByte && !l.Eof() && |l.chunk| != 0
          invariant j <= k && Before(l.input, l.Now(), cps, f, j) && l.columnValid
          invariant j == f.last ==> l.chunk == []
          decreases k - j
        {
          BeforeFacts(l.input, l.Now(), cps, f, j);
          OffsetGrows(cps, j, k);
          StepReads(l.input, l.Now(), cps, f, j, false);
          StepKeepsColumn(l.input, l.Now(), false);
          l.DoAdvance(false);
          j := j + 1;
          BeforeFacts(l.input, l.Now(), cps, f, j);
          if l.Eof() { break; }
        }
      }
      BeforeFacts(l.input, l.Now(), cps, f, j);
      OffsetGrows(cps, j, k);
      assert k == f.last ==> (l.chunk != [] <==> stuck);
    }
    column := l.columnValue;
  }

  // ---------------------------------------------------------------- any run of calls

  /** What a scanner asks of the lexer. */
  datatype Call = Step(skip: bool) | Column

  function After(f: Frame, k: nat, call: Call): nat { if call.Step? && k < f.last then k + 1 else k }

  function AfterAll(f: Frame, k: nat, calls: seq<Call>): nat
    decreases |calls|
  {
    if calls == [] then k else After(f, AfterAll(f, k, calls[..|calls| - 1]), calls[|calls| - 1])
  }

  lemma {:induction false} AfterStays(f: Frame, k: nat, calls: seq<Call>)
    requires f.first <= k <= f.last
    ensures k <= AfterAll(f, k, calls) <= f.last
    decreases |calls|
  {
    if calls != [] { AfterStays(f, k, calls[..|calls| - 1]); }
  }

  /** The columns a run of calls is told. */
  function Told(cps: seq<int>, f: Frame, k: nat, calls: seq<Call>): seq<nat>
    requires f.first <= k <= f.last <= |cps|
    decreases |calls|
  {
    if calls == [] then []
    else
      var before := calls[..|calls| - 1];
      AfterStays(f, k, before);
      Told(cps, f, k, before)
      + if calls[|calls| - 1].Column? then [ColumnAt(cps, f.first, AfterAll(f, k, before))] else []
  }

  /** Passing a newline settles the column, so no step leads into the trap. */
  lemma StepSettles(env: Input, s: State, cps: seq<int>, f: Frame, k: nat, skip: bool)
    requires Scalars(cps) && Serves(env, cps) && Framed(f, cps) && Before(env, s, cps, f, k) && k < f.last
    ensures !Trapped(DoAdvanced(env, s, skip), cps, f, k + 1)
  {
    OffsetGrows(cps, f.first, f.last);
    RangeEnd(cps, f, f.last);
    if k + 1 == f.last && LineStart(cps, f.last) == f.last {
      assert cps[k] == NEWLINE;
      EncodeShape(NEWLINE);
      hide IntoRange, Decode, Bytes, Encode, Offset, ExtentAt, ColumnAt, Framed, LineStart;
      assert Passed(s).columnValid;
      LookedKeepsColumn(env, IntoRange(Passed(s)).0, skip);
    }
  }

  /** Any run of calls, in any order, from any place that is not the trap: every call is allowed, each column told
      is the column of the place it was asked at, and the run ends where its steps lead, again not in the trap. */
  method Scan(l: Lexer, ghost cps: seq<int>, ghost f: Frame, ghost k: nat, calls: seq<Call>) returns (columns: seq<nat>)
    requires Scalars(cps) && Serves(l.input, cps) && Framed(f, cps) && Before(l.input, l.Now(), cps, f, k)
    requires Ready(l.Now()) && !Trapped(l.Now(), cps, f, k)
    modifies l
    ensures f.first <= k <= f.last <= |cps| && columns == Told(cps, f, k, calls)
    ensures Before(l.input, l.Now(), cps, f, AfterAll(f, k, calls))
    ensures Ready(l.Now()) && !Trapped(l.Now(), cps, f, AfterAll(f, k, calls))
  {
    hide Before, Bytes, DoAdvanced, Serves, Framed, Offset, ExtentAt, ColumnAt, InsideRange, Scalars, Ready, Unresumable;
    BeforeFacts(l.input, l.Now(), cps, f, k);
    columns := [];
    ghost var at := k;
    for i := 0 to |calls|
      invariant at == AfterAll(f, k, calls[..i]) && f.first <= at <= f.last && columns == Told(cps, f, k, calls[..i])
      invariant Before(l.input, l.Now(), cps, f, at) && Ready(l.Now()) && !Trapped(l.Now(), cps, f, at)
    {
      assert calls[..i + 1][..i] == calls[..i];
      BeforeFacts(l.input, l.Now(), cps, f, at);
      match calls[i] {
        case Step(skip) =>
          if at < f.last {
            StepReads(l.input, l.Now(), cps, f, at, skip);
            StepSettles(l.input, l.Now(), cps, f, at, skip);
          }
          l.Advance(skip);
        case Column =>
          var column := GetColumn(l, cps, f, at);
          columns := columns + [column];
      }
      at := After(f, at, calls[i]);
      BeforeFacts(l.input, l.Now(), cps, f, at);
    }
    assert calls[..|calls|] == calls;
  }

  // ---------------------------------------------------------------- the trap, concretely

  /** An input that serves the whole of a document at once. */
  function Whole(cps: seq<int>): (env: Input)
    requires Scalars(cps)
    ensures Serves(env, cps)
  {
    var text := Bytes(cps);
    Input((at: nat, p: Point) => if at <= |text| then text[at..] else [], true, (s: seq<Byte>) => Decoded(DECODE_ERROR, 1))
  }

  const TWO_LETTERS: seq<int> := [97, 98]
  const TWO_LINES: seq<int> := [97, NEWLINE, 98]
  const EMPTY_RANGE := Range(Point(0, 1), Point(0, 1), 1, 1)
  const FIRST_LINE := Range(Point(0, 0), Point(1, 0), 0, 2)

  /** Given the empty range between two letters, started, and asked for the column. */
  method TrappedInEmptyRange() returns (l: Lexer)
    ensures fresh(l) && l.ranges == [EMPTY_RANGE] && l.Eof() && l.chunk != [] && !Ready(l.Now())
  {
    ghost var f := Frame(EMPTY_RANGE, 1, 1);
    EmptyFramed();
    l := new Lexer(Whole(TWO_LETTERS));
    var ok := l.SetIncludedRanges([EMPTY_RANGE]);
    StartReads(l.input, l.Now(), TWO_LETTERS, f);
    l.Start();
    var column := GetColumn(l, TWO_LETTERS, f, 1);
  }

  /** Given the first of two lines, started, reset to its end as for a token there, started again, and asked for
      the column. */
  method TrappedBehindLine() returns (l: Lexer)
    ensures fresh(l) && l.ranges == [FIRST_LINE] && l.Eof() && l.chunk != [] && !Ready(l.Now())
  {
    hide Before, Bytes, DoAdvanced, Serves, Framed, Offset, ExtentAt, ColumnAt, Moved, Started, LineStart, Ready, Encode,
         InsideRange, Unresumable, Unread, TextAt;
    ghost var f := Frame(FIRST_LINE, 0, 2);
    LineFramed();
    l := new Lexer(Whole(TWO_LINES));
    GivenRange(FIRST_LINE);
    var ok := l.SetIncludedRanges([FIRST_LINE]);
    StartReads(l.input, l.Now(), TWO_LINES, f);
    l.Start();
    BeforeFacts(l.input, l.Now(), TWO_LINES, f, 0);
    RestartReads(l.input, l.Now(), TWO_LINES, f, 0, 2);
    l.Reset(Length(2, Point(1, 0)));
    l.Start();
    BeforeFacts(l.input, l.Now(), TWO_LINES, f, 2);
    var column := GetColumn(l, TWO_LINES, f, 2);
    BeforeFacts(l.input, l.Now(), TWO_LINES, f, 2);
  }

  lemma GivenRange(r: Range)
    requires r.startByte <= r.endByte
    ensures InOrder([r])
    ensures Unread(Moved(State(0, ZERO, ZERO, [r], [], 0, 0, 0, false, 0), ZERO), r)
  {
  }

  lemma LineFramed()
    ensures Scalars(TWO_LINES) && Framed(Frame(FIRST_LINE, 0, 2), TWO_LINES) && TextFrom(TWO_LINES, Frame(FIRST_LINE, 0, 2)) == 0
    ensures TextAt(TWO_LINES, Frame(FIRST_LINE, 0, 2), 2) == 2 && PositionAt(TWO_LINES, 2) == Length(2, Point(1, 0))
    ensures Unresumable(TWO_LINES, Frame(FIRST_LINE, 0, 2))
  {
    assert Encode(97) == [97] && Encode(98) == [98] && Encode(NEWLINE) == [NEWLINE];
    assert TWO_LINES[..2] == [97, NEWLINE] && TWO_LINES[..0] == [];
    assert [97, NEWLINE][1..] == [NEWLINE] && TWO_LINES[1..] == [NEWLINE, 98] && [NEWLINE, 98][1..] == [98];
    assert Bytes([NEWLINE]) == [NEWLINE] && Bytes([98]) == [98] && Bytes([NEWLINE, 98]) == [NEWLINE, 98];
    assert ExtentAt(TWO_LINES, 1) == Point(0, 1);
  }

  lemma EmptyFramed()
    ensures Scalars(TWO_LETTERS) && Framed(Frame(EMPTY_RANGE, 1, 1), TWO_LETTERS)
  {
    assert Encode(97) == [97] && Encode(98) == [98];
    assert TWO_LETTERS[..1] == [97];
  }

  // ---------------------------------------------------------------- the default range

  /** A new lexer stands unread on the default range, which frames every document its offsets can hold. */
  lemma DefaultFrames(cps: seq<int>)
    requires Scalars(cps) && |Bytes(cps)| < MAX_BYTE
    ensures Unread(State(0, ZERO, ZERO, [DEFAULT_RANGE], [], 0, 0, 0, false, 0), DEFAULT_RANGE)
    ensures Framed(Frame(DEFAULT_RANGE, 0, |cps|), cps)
  {
    OffsetNone(cps);
    OffsetEnd(cps);
    hide Bytes, Offset;
    assert RangeAt([DEFAULT_RANGE], 0, 0) == 0;
  }
}
