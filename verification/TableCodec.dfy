/** The codec of grammar tables (tables.go), under its compression: the writer and the reader, and that
    they undo each other and nothing else is accepted. */
module TableCodec {
  import opened EditSpec
  import opened Utf8
  import opened TableWire

  const MAGIC: seq<Byte> := [0x54, 0x53, 0x47, 0x4F]
  const FORMAT: Byte := 2

  function EncodedTables(t: Tables): seq<Byte> { TablesInto(MAGIC + [FORMAT], t) }

  datatype TableError = BadMagic | BadFormat(found: Byte) | Broken(err: ReadError) | Trailing(bytes: nat)
  datatype Result = Ok(tables: Tables) | Err(error: TableError)

  function DecodedTables(plain: seq<Byte>): Result {
    var (magic, c1) := RawAt(plain, Cursor(0, None), 4);
    if magic != MAGIC then Err(BadMagic) else
    var (format, c2) := RawAt(plain, c1, 1);
    if format[0] != FORMAT then Err(BadFormat(format[0])) else
    var (t, c3) := TablesAt(plain, c2);
    if !c3.Fine() then Err(Broken(c3.err.value))
    else if c3.pos != |plain| then Err(Trailing(|plain| - c3.pos))
    else Ok(t)
  }

  // ---------------------------------------------------------------- the writer

  class TableWriter {
    var buf: seq<Byte>

    constructor ()
      ensures buf == []
    {
      buf := [];
    }

    method Raw(b: seq<Byte>)
      modifies this
      ensures buf == old(buf) + b
    {
      buf := buf + b;
    }

    method Length(n: nat)
      modifies this
      ensures buf == LengthInto(old(buf), n)
    {
      Raw(Le32(n % 0x1_0000_0000));
    }

    method Rows<T>(l: Layout<T>, xs: seq<T>)
      modifies this
      ensures buf == RowsInto(old(buf), l, xs)
    {
      var i := 0;
      while i < |xs|
        invariant i <= |xs| && RowsInto(buf, l, xs[i..]) == RowsInto(old(buf), l, xs)
      {
        assert xs[i..][1..] == xs[i + 1..];
        Raw(l.pack(xs[i]));
        i := i + 1;
      }
    }

    method Entries<T>(l: Layout<T>, xs: seq<T>)
      modifies this
      ensures buf == EntriesInto(old(buf), l, xs)
    {
      Length(|xs|);
      Rows(l, xs);
    }

    method Lists<T>(l: Layout<T>, xss: seq<seq<T>>)
      modifies this
      ensures buf == ListsInto(old(buf), l, xss)
    {
      Length(|xss|);
      ghost var from := buf;
      var i := 0;
      while i < |xss|
        invariant i <= |xss| && ListRowsInto(buf, l, xss[i..]) == ListRowsInto(from, l, xss)
      {
        assert xss[i..][1..] == xss[i + 1..];
        Entries(l, xss[i]);
        i := i + 1;
      }
    }

    method Program(p: Option<LexProgram>)
      modifies this
      ensures buf == ProgramInto(old(buf), p)
    {
      hide EntriesInto, ListsInto, LengthInto;
      if p.None? {
        Length(0);
        return;
      }
      Entries(INSTRS, p.value.code);
      Entries(I32S, p.value.states);
      Lists(I32S, p.value.maps);
    }

    method WriteHead(h: Head)
      modifies this
      ensures buf == HeadInto(old(buf), h)
    {
      hide EntriesInto, RowsInto, Le16;
      Rows(U32S, h.counts.AsList());
      Raw(Le16(h.maxAliasSequenceLen));
      Raw(Le16(h.maxReservedWordSetLen));
      Raw(Le16(h.keywordCaptureToken));
      Raw([h.majorVersion]);
      Raw([h.minorVersion]);
      Raw([h.patchVersion]);
      Entries(BYTES, h.name);
    }

    method WriteParsing(x: Parsing)
      modifies this
      ensures buf == ParsingInto(old(buf), x)
    {
      hide EntriesInto, ListsInto;
      Entries(U16S, x.parseTable);
      Entries(U16S, x.smallParseTable);
      Entries(U32S, x.smallParseTableMap);
      Entries(ACTIONS, x.parseActions);
      Lists(BYTES, x.symbolNames);
      Lists(BYTES, x.fieldNames);
      Entries(SLICES, x.fieldMapSlices);
      Entries(FIELDS, x.fieldMapEntries);
      Entries(METADATA, x.symbolMetadata);
      Entries(U16S, x.publicSymbolMap);
    }

    method WriteSymbols(x: Symbols)
      modifies this
      ensures buf == SymbolsInto(old(buf), x)
    {
      hide EntriesInto, ListsInto;
      Entries(U16S, x.aliasMap);
      Entries(U16S, x.aliasSequences);
      Entries(MODES, x.lexModes);
      Entries(U16S, x.primaryStateIds);
      Entries(U16S, x.reservedWords);
      Entries(U16S, x.supertypeSymbols);
      Entries(SLICES, x.supertypeMapSlices);
      Entries(U16S, x.supertypeMapEntries);
      Entries(BOOLS, x.externalScannerStates);
      Entries(U16S, x.externalScannerSymbols);
    }

    method Encode(t: Tables)
      modifies this
      ensures buf == TablesInto(old(buf), t)
    {
      hide HeadInto, ParsingInto, SymbolsInto, ListsInto, ProgramInto;
      WriteHead(t.head);
      WriteParsing(t.parsing);
      WriteSymbols(t.symbols);
      Lists(RANGES, t.characterSets);
      Program(t.lex);
      Program(t.keywordLex);
    }
  }

  method EncodeTables(t: Tables) returns (plain: seq<Byte>)
    ensures plain == EncodedTables(t)
  {
    hide TablesInto;
    var w := new TableWriter();
    w.Raw(MAGIC);
    w.Raw([FORMAT]);
    assert w.buf == MAGIC + [FORMAT];
    w.Encode(t);
    plain := w.buf;
  }

  // ---------------------------------------------------------------- the reader

  class TableReader {
    const buf: seq<Byte>
    var pos: nat
    var err: Option<ReadError>

    constructor (buf: seq<Byte>)
      ensures this.buf == buf && Here() == Cursor(0, None)
    {
      this.buf, pos, err := buf, 0, None;
    }

    ghost function Here(): Cursor
      reads this
    {
      Cursor(pos, err)
    }

    /** Only the first error is kept. */
    method Fail(e: ReadError)
      modifies `err
      ensures err == if old(err).None? then Some(e) else old(err)
    {
      if err.None? { err := Some(e); }
    }

    method Raw(n: nat) returns (out: seq<Byte>)
      modifies this
      ensures (out, Here()) == RawAt(buf, old(Here()), n)
    {
      if err.Some? { return seq(n, _ => 0); }
      if pos + n > |buf| {
        Fail(Short(|buf|, n));
        return seq(n, _ => 0);
      }
      out := buf[pos..pos + n];
      pos := pos + n;
    }

    method U8() returns (v: Byte)
      modifies this
      ensures var (b, c) := RawAt(buf, old(Here()), 1); v == b[0] && Here() == c
    {
      var b := Raw(1);
      v := b[0];
    }

    method U16() returns (v: U16)
      modifies this
      ensures var (b, c) := RawAt(buf, old(Here()), 2); v == From16(b, 0) && Here() == c
    {
      var b := Raw(2);
      v := From16(b, 0);
    }

    method U32() returns (v: U32)
      modifies this
      ensures var (b, c) := RawAt(buf, old(Here()), 4); v == From32(b, 0) && Here() == c
    {
      var b := Raw(4);
      v := From32(b, 0);
    }

    /** A length whose entries fit in what is left. */
    method Count(width: nat) returns (n: nat)
      modifies this
      ensures (n, Here()) == CountAt(buf, old(Here()), width)
    {
      hide From32;
      n := U32();
      if err.Some? { return 0; }
      if n > MAX_INT32 || n * width > |buf| - pos {
        Fail(Claims(n));
        return 0;
      }
    }

    method Rows<T>(l: Layout<T>, n: nat) returns (out: seq<T>)
      modifies this
      ensures (out, Here()) == RowsAt(buf, old(Here()), l, n)
    {
      hide RawAt;
      out := [];
      ghost var goal := RowsAt(buf, Here(), l, n);
      assert [] + goal.0 == goal.0;
      while |out| < n
        invariant |out| <= n
        invariant var (rest, c) := RowsAt(buf, Here(), l, n - |out|); (out + rest, c) == goal
      {
        ghost var rest := RowsAt(buf, Here(), l, n - |out|).0;
        var b := Raw(l.width);
        assert out + rest == out + [l.unpack(b)] + rest[1..];
        out := out + [l.unpack(b)];
      }
      assert out + [] == out;
    }

    method Entries<T>(l: Layout<T>) returns (out: seq<T>)
      modifies this
      ensures (out, Here()) == EntriesAt(buf, old(Here()), l)
    {
      hide CountAt, RowsAt;
      var n := Count(l.width);
      out := Rows(l, n);
    }

    method Lists<T>(l: Layout<T>) returns (out: seq<seq<T>>)
      modifies this
      ensures (out, Here()) == ListsAt(buf, old(Here()), l)
    {
      hide CountAt, EntriesAt;
      var n := Count(4);
      out := [];
      ghost var goal := ListRowsAt(buf, Here(), l, n);
      assert [] + goal.0 == goal.0;
      while |out| < n
        invariant |out| <= n
        invariant var (rest, c) := ListRowsAt(buf, Here(), l, n - |out|); (out + rest, c) == goal
      {
        ghost var rest := ListRowsAt(buf, Here(), l, n - |out|).0;
        var xs := Entries(l);
        assert out + rest == out + [xs] + rest[1..];
        out := out + [xs];
      }
      assert out + [] == out;
    }

    method Program() returns (p: Option<LexProgram>)
      modifies this
      ensures (p, Here()) == ProgramAt(buf, old(Here()))
    {
      hide CountAt, RowsAt, EntriesAt, ListsAt;
      var n := Count(5);
      if n == 0 { return None; }
      var code := Rows(INSTRS, n);
      var states := Entries(I32S);
      var maps := Lists(I32S);
      p := Some(LexProgram(code, states, maps));
    }

    method ReadHead() returns (h: Head)
      modifies this
      ensures (h, Here()) == HeadAt(buf, old(Here()))
    {
      hide RawAt, RowsAt, EntriesAt, From16;
      var counts := Rows(U32S, 10);
      var aliases := U16();
      var words := U16();
      var keyword := U16();
      var major := U8();
      var minor := U8();
      var patch := U8();
      var name := Entries(BYTES);
      h := Head(CountsOf(counts), aliases, words, keyword, major, minor, patch, name);
    }

    method ReadParsing() returns (x: Parsing)
      modifies this
      ensures (x, Here()) == ParsingAt(buf, old(Here()))
    {
      hide EntriesAt, ListsAt;
      var parseTable := Entries(U16S);
      var smallParseTable := Entries(U16S);
      var smallParseTableMap := Entries(U32S);
      var parseActions := Entries(ACTIONS);
      var symbolNames := Lists(BYTES);
      var fieldNames := Lists(BYTES);
      var fieldMapSlices := Entries(SLICES);
      var fieldMapEntries := Entries(FIELDS);
      var symbolMetadata := Entries(METADATA);
      var publicSymbolMap := Entries(U16S);
      x := Parsing(parseTable, smallParseTable, smallParseTableMap, parseActions, symbolNames, fieldNames,
        fieldMapSlices, fieldMapEntries, symbolMetadata, publicSymbolMap);
    }

    method ReadSymbols() returns (x: Symbols)
      modifies this
      ensures (x, Here()) == SymbolsAt(buf, old(Here()))
    {
      hide EntriesAt, ListsAt;
      var aliasMap := Entries(U16S);
      var aliasSequences := Entries(U16S);
      var lexModes := Entries(MODES);
      var primaryStateIds := Entries(U16S);
      var reservedWords := Entries(U16S);
      var supertypeSymbols := Entries(U16S);
      var supertypeMapSlices := Entries(SLICES);
      var supertypeMapEntries := Entries(U16S);
      var externalScannerStates := Entries(BOOLS);
      var externalScannerSymbols := Entries(U16S);
      x := Symbols(aliasMap, aliasSequences, lexModes, primaryStateIds, reservedWords, supertypeSymbols,
        supertypeMapSlices, supertypeMapEntries, externalScannerStates, externalScannerSymbols);
    }

    method Decode() returns (t: Tables)
      modifies this
      ensures (t, Here()) == TablesAt(buf, old(Here()))
    {
      hide HeadAt, ParsingAt, SymbolsAt, ListsAt, ProgramAt;
      var head := ReadHead();
      var parsing := ReadParsing();
      var symbols := ReadSymbols();
      var characterSets := Lists(RANGES);
      var lex := Program();
      var keywordLex := Program();
      t := Tables(head, parsing, symbols, characterSets, lex, keywordLex);
    }
  }

  method DecodeTables(plain: seq<Byte>) returns (r: Result)
    ensures r == DecodedTables(plain)
  {
    hide RawAt, TablesAt;
    var reader := new TableReader(plain);
    var magic := reader.Raw(4);
    if magic != MAGIC { return Err(BadMagic); }
    var format := reader.U8();
    if format != FORMAT { return Err(BadFormat(format)); }
    var t := reader.Decode();
    if reader.err.Some? { return Err(Broken(reader.err.value)); }
    if reader.pos != |plain| { return Err(Trailing(|plain| - reader.pos)); }
    r := Ok(t);
  }

  // ---------------------------------------------------------------- a longer buffer reads the same

  lemma RawStays(buf: seq<Byte>, longer: seq<Byte>, c: Cursor, n: nat)
    requires buf <= longer && RawAt(buf, c, n).1.Fine()
    ensures RawAt(longer, c, n) == RawAt(buf, c, n)
  {
    assert longer[..|buf|] == buf;
    assert longer[c.pos..c.pos + n] == buf[c.pos..c.pos + n];
  }

  lemma CountStays(buf: seq<Byte>, longer: seq<Byte>, c: Cursor, width: nat)
    requires buf <= longer && CountAt(buf, c, width).1.Fine()
    ensures CountAt(longer, c, width) == CountAt(buf, c, width)
  {
    hide From32;
    RawStays(buf, longer, c, 4);
  }

  lemma {:induction false} RowsStay<T>(buf: seq<Byte>, longer: seq<Byte>, c: Cursor, l: Layout<T>, n: nat)
    requires buf <= longer && RowsAt(buf, c, l, n).1.Fine()
    ensures RowsAt(longer, c, l, n) == RowsAt(buf, c, l, n)
    decreases n
  {
    hide RawAt;
    if n > 0 {
      var d := RawAt(buf, c, l.width).1;
      RowsStay(buf, longer, d, l, n - 1);
      RawStays(buf, longer, c, l.width);
    }
  }

  lemma EntriesStay<T>(buf: seq<Byte>, longer: seq<Byte>, c: Cursor, l: Layout<T>)
    requires buf <= longer && EntriesAt(buf, c, l).1.Fine()
    ensures EntriesAt(longer, c, l) == EntriesAt(buf, c, l)
  {
    hide CountAt, RowsAt;
    var (n, d) := CountAt(buf, c, l.width);
    RowsStay(buf, longer, d, l, n);
    CountStays(buf, longer, c, l.width);
  }

  lemma {:induction false} ListRowsStay<T>(buf: seq<Byte>, longer: seq<Byte>, c: Cursor, l: Layout<T>, n: nat)
    requires buf <= longer && ListRowsAt(buf, c, l, n).1.Fine()
    ensures ListRowsAt(longer, c, l, n) == ListRowsAt(buf, c, l, n)
    decreases n
  {
    hide EntriesAt;
    if n > 0 {
      var d := EntriesAt(buf, c, l).1;
      ListRowsStay(buf, longer, d, l, n - 1);
      EntriesStay(buf, longer, c, l);
    }
  }

  lemma ListsStay<T>(buf: seq<Byte>, longer: seq<Byte>, c: Cursor, l: Layout<T>)
    requires buf <= longer && ListsAt(buf, c, l).1.Fine()
    ensures ListsAt(longer, c, l) == ListsAt(buf, c, l)
  {
    hide CountAt, ListRowsAt;
    var (n, d) := CountAt(buf, c, 4);
    ListRowsStay(buf, longer, d, l, n);
    CountStays(buf, longer, c, 4);
  }

  lemma ProgramStays(buf: seq<Byte>, longer: seq<Byte>, c: Cursor)
    requires buf <= longer && ProgramAt(buf, c).1.Fine()
    ensures ProgramAt(longer, c) == ProgramAt(buf, c)
  {
    hide CountAt, RowsAt, EntriesAt, ListsAt;
    var (n, d) := CountAt(buf, c, 5);
    CountStays(buf, longer, c, 5);
    if n > 0 {
      var e := RowsAt(buf, d, INSTRS, n).1;
      var f := EntriesAt(buf, e, I32S).1;
      ListsStay(buf, longer, f, I32S);
      EntriesStay(buf, longer, e, I32S);
      RowsStay(buf, longer, d, INSTRS, n);
    }
  }

  lemma HeadStays(buf: seq<Byte>, longer: seq<Byte>, c: Cursor)
    requires buf <= longer && HeadAt(buf, c).1.Fine()
    ensures HeadAt(longer, c) == HeadAt(buf, c)
  {
    hide RawAt, RowsAt, EntriesAt, From16;
    var c1 := RowsAt(buf, c, U32S, 10).1;
    var c2 := RawAt(buf, c1, 2).1;
    var c3 := RawAt(buf, c2, 2).1;
    var c4 := RawAt(buf, c3, 2).1;
    var c5 := RawAt(buf, c4, 1).1;
    var c6 := RawAt(buf, c5, 1).1;
    var c7 := RawAt(buf, c6, 1).1;
    EntriesStay(buf, longer, c7, BYTES);
    RawStays(buf, longer, c6, 1);
    RawStays(buf, longer, c5, 1);
    RawStays(buf, longer, c4, 1);
    RawStays(buf, longer, c3, 2);
    RawStays(buf, longer, c2, 2);
    RawStays(buf, longer, c1, 2);
    RowsStay(buf, longer, c, U32S, 10);
  }

  lemma ParsingStays(buf: seq<Byte>, longer: seq<Byte>, c: Cursor)
    requires buf <= longer && ParsingAt(buf, c).1.Fine()
    ensures ParsingAt(longer, c) == ParsingAt(buf, c)
  {
    hide EntriesAt, ListsAt;
    var c1 := EntriesAt(buf, c, U16S).1;
    var c2 := EntriesAt(buf, c1, U16S).1;
    var c3 := EntriesAt(buf, c2, U32S).1;
    var c4 := EntriesAt(buf, c3, ACTIONS).1;
    var c5 := ListsAt(buf, c4, BYTES).1;
    var c6 := ListsAt(buf, c5, BYTES).1;
    var c7 := EntriesAt(buf, c6, SLICES).1;
    var c8 := EntriesAt(buf, c7, FIELDS).1;
    var c9 := EntriesAt(buf, c8, METADATA).1;
    EntriesStay(buf, longer, c9, U16S);
    EntriesStay(buf, longer, c8, METADATA);
    EntriesStay(buf, longer, c7, FIELDS);
    EntriesStay(buf, longer, c6, SLICES);
    ListsStay(buf, longer, c5, BYTES);
    ListsStay(buf, longer, c4, BYTES);
    EntriesStay(buf, longer, c3, ACTIONS);
    EntriesStay(buf, longer, c2, U32S);
    EntriesStay(buf, longer, c1, U16S);
    EntriesStay(buf, longer, c, U16S);
  }

  lemma SymbolsStay(buf: seq<Byte>, longer: seq<Byte>, c: Cursor)
    requires buf <= longer && SymbolsAt(buf, c).1.Fine()
    ensures SymbolsAt(longer, c) == SymbolsAt(buf, c)
  {
    hide EntriesAt, ListsAt;
    var c1 := EntriesAt(buf, c, U16S).1;
    var c2 := EntriesAt(buf, c1, U16S).1;
    var c3 := EntriesAt(buf, c2, MODES).1;
    var c4 := EntriesAt(buf, c3, U16S).1;
    var c5 := EntriesAt(buf, c4, U16S).1;
    var c6 := EntriesAt(buf, c5, U16S).1;
    var c7 := EntriesAt(buf, c6, SLICES).1;
    var c8 := EntriesAt(buf, c7, U16S).1;
    var c9 := EntriesAt(buf, c8, BOOLS).1;
    EntriesStay(buf, longer, c9, U16S);
    EntriesStay(buf, longer, c8, BOOLS);
    EntriesStay(buf, longer, c7, U16S);
    EntriesStay(buf, longer, c6, SLICES);
    EntriesStay(buf, longer, c5, U16S);
    EntriesStay(buf, longer, c4, U16S);
    EntriesStay(buf, longer, c3, U16S);
    EntriesStay(buf, longer, c2, MODES);
    EntriesStay(buf, longer, c1, U16S);
    EntriesStay(buf, longer, c, U16S);
  }

  lemma TablesStay(buf: seq<Byte>, longer: seq<Byte>, c: Cursor)
    requires buf <= longer && TablesAt(buf, c).1.Fine()
    ensures TablesAt(longer, c) == TablesAt(buf, c)
  {
    hide HeadAt, ParsingAt, SymbolsAt, ListsAt, ProgramAt;
    var c1 := HeadAt(buf, c).1;
    var c2 := ParsingAt(buf, c1).1;
    var c3 := SymbolsAt(buf, c2).1;
    var c4 := ListsAt(buf, c3, RANGES).1;
    var c5 := ProgramAt(buf, c4).1;
    ProgramStays(buf, longer, c5);
    ProgramStays(buf, longer, c4);
    ListsStay(buf, longer, c3, RANGES);
    SymbolsStay(buf, longer, c2);
    ParsingStays(buf, longer, c1);
    HeadStays(buf, longer, c);
  }

  /** Nothing can be added to bytes the reader accepts: of two accepted blobs neither starts the other. */
  lemma AcceptedEndsThere(plain: seq<Byte>, longer: seq<Byte>)
    requires DecodedTables(plain).Ok? && plain < longer
    ensures DecodedTables(longer) == Err(Trailing(|longer| - |plain|))
  {
    hide RawAt, TablesAt;
    var c1 := RawAt(plain, Cursor(0, None), 4).1;
    var c2 := RawAt(plain, c1, 1).1;
    TablesStay(plain, longer, c2);
    RawStays(plain, longer, c1, 1);
    RawStays(plain, longer, Cursor(0, None), 4);
  }

  // ---------------------------------------------------------------- reading back what was written

  function From(buf: seq<Byte>): Cursor { Cursor(|buf|, None) }

  lemma RawBack(file: seq<Byte>, buf: seq<Byte>, w: seq<Byte>)
    requires buf + w <= file
    ensures RawAt(file, From(buf), |w|) == (w, From(buf + w))
  {
    assert file[..|buf + w|] == buf + w;
    assert file[|buf|..|buf + w|] == (buf + w)[|buf|..];
  }

  lemma CountBack(file: seq<Byte>, buf: seq<Byte>, n: nat, width: nat)
    requires LengthInto(buf, n) <= file && n <= MAX_INT32 && |LengthInto(buf, n)| + n * width <= |file|
    ensures CountAt(file, From(buf), width) == (n, From(LengthInto(buf, n)))
  {
    hide From32, Le32, RawAt;
    RawBack(file, buf, Le32(n));
    assert Le32(n)[0..4] == Le32(n);
    Back32(n, Le32(n), 0);
  }

  lemma {:induction false} RowsBack<T(!new)>(file: seq<Byte>, buf: seq<Byte>, l: Layout<T>, xs: seq<T>)
    requires Sound(l) && RowsInto(buf, l, xs) <= file
    ensures RowsAt(file, From(buf), l, |xs|) == (xs, From(RowsInto(buf, l, xs)))
    ensures |RowsInto(buf, l, xs)| == |buf| + |xs| * l.width
    decreases |xs|
  {
    hide RawAt;
    if xs != [] {
      RowsBack(file, buf + l.pack(xs[0]), l, xs[1..]);
      RawBack(file, buf, l.pack(xs[0]));
      assert [xs[0]] + xs[1..] == xs;
      assert (|xs| - 1) * l.width + l.width == |xs| * l.width;
    }
  }

  lemma EntriesBack<T(!new)>(file: seq<Byte>, buf: seq<Byte>, l: Layout<T>, xs: seq<T>)
    requires Sound(l) && |xs| <= MAX_INT32 && EntriesInto(buf, l, xs) <= file
    ensures EntriesAt(file, From(buf), l) == (xs, From(EntriesInto(buf, l, xs)))
    ensures |EntriesInto(buf, l, xs)| >= |buf| + 4
  {
    hide CountAt, RowsAt, RowsInto;
    RowsBack(file, LengthInto(buf, |xs|), l, xs);
    CountBack(file, buf, |xs|, l.width);
  }

  predicate AllShort<T>(xss: seq<seq<T>>) { |xss| <= MAX_INT32 && forall i :: 0 <= i < |xss| ==> |xss[i]| <= MAX_INT32 }

  lemma {:induction false} ListRowsBack<T(!new)>(file: seq<Byte>, buf: seq<Byte>, l: Layout<T>, xss: seq<seq<T>>)
    requires Sound(l) && AllShort(xss) && ListRowsInto(buf, l, xss) <= file
    ensures ListRowsAt(file, From(buf), l, |xss|) == (xss, From(ListRowsInto(buf, l, xss)))
    ensures |ListRowsInto(buf, l, xss)| >= |buf| + 4 * |xss|
    decreases |xss|
  {
    hide EntriesAt, EntriesInto;
    if xss != [] {
      ListRowsBack(file, EntriesInto(buf, l, xss[0]), l, xss[1..]);
      EntriesBack(file, buf, l, xss[0]);
      assert [xss[0]] + xss[1..] == xss;
    }
  }

  lemma ListsBack<T(!new)>(file: seq<Byte>, buf: seq<Byte>, l: Layout<T>, xss: seq<seq<T>>)
    requires Sound(l) && AllShort(xss) && ListsInto(buf, l, xss) <= file
    ensures ListsAt(file, From(buf), l) == (xss, From(ListsInto(buf, l, xss)))
  {
    hide CountAt, ListRowsAt, ListRowsInto;
    ListRowsBack(file, LengthInto(buf, |xss|), l, xss);
    CountBack(file, buf, |xss|, 4);
  }

  predicate HasCode(p: Option<LexProgram>) { p.Some? ==> p.value.code != [] }

  predicate ShortProgram(p: Option<LexProgram>) {
    p.Some? ==> |p.value.code| <= MAX_INT32 && |p.value.states| <= MAX_INT32 && AllShort(p.value.maps)
  }

  lemma ProgramBack(file: seq<Byte>, buf: seq<Byte>, p: Option<LexProgram>)
    requires HasCode(p) && ShortProgram(p) && ProgramInto(buf, p) <= file
    ensures ProgramAt(file, From(buf)) == (p, From(ProgramInto(buf, p)))
  {
    LexEntriesSound();
    NumbersSound();
    hide CountAt, RowsAt, EntriesAt, ListsAt, RowsInto, LengthInto, ListsInto;
    match p {
      case None =>
        CountBack(file, buf, 0, 5);
      case Some(q) =>
        var b0 := LengthInto(buf, |q.code|);
        var b1 := EntriesInto(buf, INSTRS, q.code);
        var b2 := EntriesInto(b1, I32S, q.states);
        ListsBack(file, b2, I32S, q.maps);
        EntriesBack(file, b1, I32S, q.states);
        RowsBack(file, b0, INSTRS, q.code);
        CountBack(file, buf, |q.code|, 5);
    }
  }

  /** Every list is short enough for the reader, which refuses lengths past a 32-bit int. */
  predicate Fits(t: Tables) {
    && |t.head.name| <= MAX_INT32 && FitsParsing(t.parsing) && FitsSymbols(t.symbols)
    && AllShort(t.characterSets) && ShortProgram(t.lex) && ShortProgram(t.keywordLex)
  }

  predicate FitsParsing(x: Parsing) {
    && |x.parseTable| <= MAX_INT32 && |x.smallParseTable| <= MAX_INT32 && |x.smallParseTableMap| <= MAX_INT32
    && |x.parseActions| <= MAX_INT32 && AllShort(x.symbolNames) && AllShort(x.fieldNames) && |x.fieldMapSlices| <= MAX_INT32
    && |x.fieldMapEntries| <= MAX_INT32 && |x.symbolMetadata| <= MAX_INT32 && |x.publicSymbolMap| <= MAX_INT32
  }

  predicate FitsSymbols(x: Symbols) {
    && |x.aliasMap| <= MAX_INT32 && |x.aliasSequences| <= MAX_INT32 && |x.lexModes| <= MAX_INT32
    && |x.primaryStateIds| <= MAX_INT32 && |x.reservedWords| <= MAX_INT32 && |x.supertypeSymbols| <= MAX_INT32
    && |x.supertypeMapSlices| <= MAX_INT32 && |x.supertypeMapEntries| <= MAX_INT32
    && |x.externalScannerStates| <= MAX_INT32 && |x.externalScannerSymbols| <= MAX_INT32
  }

  lemma HeadBack(file: seq<Byte>, buf: seq<Byte>, h: Head)
    requires |h.name| <= MAX_INT32 && HeadInto(buf, h) <= file
    ensures HeadAt(file, From(buf)) == (h, From(HeadInto(buf, h)))
  {
    NumbersSound();
    Numbers16Back(h.maxAliasSequenceLen);
    Numbers16Back(h.maxReservedWordSetLen);
    Numbers16Back(h.keywordCaptureToken);
    hide RawAt, RowsAt, EntriesAt, From16, Le16, RowsInto, EntriesInto;
    var b1 := RowsInto(buf, U32S, h.counts.AsList());
    var b2 := b1 + Le16(h.maxAliasSequenceLen);
    var b3 := b2 + Le16(h.maxReservedWordSetLen);
    var b4 := b3 + Le16(h.keywordCaptureToken);
    var b5 := b4 + [h.majorVersion];
    var b6 := b5 + [h.minorVersion];
    var b7 := b6 + [h.patchVersion];
    EntriesBack(file, b7, BYTES, h.name);
    RawBack(file, b6, [h.patchVersion]);
    RawBack(file, b5, [h.minorVersion]);
    RawBack(file, b4, [h.majorVersion]);
    RawBack(file, b3, Le16(h.keywordCaptureToken));
    RawBack(file, b2, Le16(h.maxReservedWordSetLen));
    RawBack(file, b1, Le16(h.maxAliasSequenceLen));
    RowsBack(file, buf, U32S, h.counts.AsList());
  }

  lemma Numbers16Back(v: U16)
    ensures |Le16(v)| == 2 && From16(Le16(v), 0) == v
  {
  }

  lemma ParsingBack(file: seq<Byte>, buf: seq<Byte>, x: Parsing)
    requires FitsParsing(x) && ParsingInto(buf, x) <= file
    ensures ParsingAt(file, From(buf)) == (x, From(ParsingInto(buf, x)))
  {
    NumbersSound();
    ActionsSound();
    SmallEntriesSound();
    hide EntriesAt, ListsAt, EntriesInto, ListsInto, Sound;
    var b1 := EntriesInto(buf, U16S, x.parseTable);
    var b2 := EntriesInto(b1, U16S, x.smallParseTable);
    var b3 := EntriesInto(b2, U32S, x.smallParseTableMap);
    var b4 := EntriesInto(b3, ACTIONS, x.parseActions);
    var b5 := ListsInto(b4, BYTES, x.symbolNames);
    var b6 := ListsInto(b5, BYTES, x.fieldNames);
    var b7 := EntriesInto(b6, SLICES, x.fieldMapSlices);
    var b8 := EntriesInto(b7, FIELDS, x.fieldMapEntries);
    var b9 := EntriesInto(b8, METADATA, x.symbolMetadata);
    EntriesBack(file, b9, U16S, x.publicSymbolMap);
    EntriesBack(file, b8, METADATA, x.symbolMetadata);
    EntriesBack(file, b7, FIELDS, x.fieldMapEntries);
    EntriesBack(file, b6, SLICES, x.fieldMapSlices);
    ListsBack(file, b5, BYTES, x.fieldNames);
    ListsBack(file, b4, BYTES, x.symbolNames);
    EntriesBack(file, b3, ACTIONS, x.parseActions);
    EntriesBack(file, b2, U32S, x.smallParseTableMap);
    EntriesBack(file, b1, U16S, x.smallParseTable);
    EntriesBack(file, buf, U16S, x.parseTable);
  }

  lemma SymbolsBack(file: seq<Byte>, buf: seq<Byte>, x: Symbols)
    requires FitsSymbols(x) && SymbolsInto(buf, x) <= file
    ensures SymbolsAt(file, From(buf)) == (x, From(SymbolsInto(buf, x)))
  {
    NumbersSound();
    SmallEntriesSound();
    hide EntriesAt, EntriesInto, Sound;
    var b1 := EntriesInto(buf, U16S, x.aliasMap);
    var b2 := EntriesInto(b1, U16S, x.aliasSequences);
    var b3 := EntriesInto(b2, MODES, x.lexModes);
    var b4 := EntriesInto(b3, U16S, x.primaryStateIds);
    var b5 := EntriesInto(b4, U16S, x.reservedWords);
    var b6 := EntriesInto(b5, U16S, x.supertypeSymbols);
    var b7 := EntriesInto(b6, SLICES, x.supertypeMapSlices);
    var b8 := EntriesInto(b7, U16S, x.supertypeMapEntries);
    var b9 := EntriesInto(b8, BOOLS, x.externalScannerStates);
    EntriesBack(file, b9, U16S, x.externalScannerSymbols);
    EntriesBack(file, b8, BOOLS, x.externalScannerStates);
    EntriesBack(file, b7, U16S, x.supertypeMapEntries);
    EntriesBack(file, b6, SLICES, x.supertypeMapSlices);
    EntriesBack(file, b5, U16S, x.supertypeSymbols);
    EntriesBack(file, b4, U16S, x.reservedWords);
    EntriesBack(file, b3, U16S, x.primaryStateIds);
    EntriesBack(file, b2, MODES, x.lexModes);
    EntriesBack(file, b1, U16S, x.aliasSequences);
    EntriesBack(file, buf, U16S, x.aliasMap);
  }

  lemma TablesBack(file: seq<Byte>, buf: seq<Byte>, t: Tables)
    requires Fits(t) && HasCode(t.lex) && HasCode(t.keywordLex) && TablesInto(buf, t) <= file
    ensures TablesAt(file, From(buf)) == (t, From(TablesInto(buf, t)))
  {
    LexEntriesSound();
    hide HeadAt, ParsingAt, SymbolsAt, ListsAt, ProgramAt, HeadInto, ParsingInto, SymbolsInto, ListsInto, ProgramInto, Sound;
    var b1 := HeadInto(buf, t.head);
    var b2 := ParsingInto(b1, t.parsing);
    var b3 := SymbolsInto(b2, t.symbols);
    var b4 := ListsInto(b3, RANGES, t.characterSets);
    var b5 := ProgramInto(b4, t.lex);
    ProgramBack(file, b5, t.keywordLex);
    ProgramBack(file, b4, t.lex);
    ListsBack(file, b3, RANGES, t.characterSets);
    SymbolsBack(file, b2, t.symbols);
    ParsingBack(file, b1, t.parsing);
    HeadBack(file, buf, t.head);
  }

  /** The codec is a true inverse, exactly on the tables whose programs hold an instruction. */
  lemma DecodeEncode(t: Tables)
    requires Fits(t)
    ensures DecodedTables(EncodedTables(t)) == Ok(t) <==> HasCode(t.lex) && HasCode(t.keywordLex)
  {
    hide RawAt, TablesInto;
    var file := EncodedTables(t);
    if HasCode(t.lex) && HasCode(t.keywordLex) {
      EncodedStarts(t);
      hide TablesAt;
      RawBack(file, [], MAGIC);
      RawBack(file, MAGIC, [FORMAT]);
      assert [] + MAGIC == MAGIC;
      TablesBack(file, MAGIC + [FORMAT], t);
    }
  }

  lemma EncodedStarts(t: Tables)
    ensures MAGIC + [FORMAT] <= EncodedTables(t)
  {
    hide HeadInto, ParsingInto, SymbolsInto, ListsInto, ProgramInto;
  }

  /** No strict prefix of an encoding is accepted, and every extension is refused for its extra bytes. */
  lemma CutOrPaddedIsRefused(t: Tables, other: seq<Byte>)
    requires Fits(t) && HasCode(t.lex) && HasCode(t.keywordLex)
    ensures other < EncodedTables(t) ==> DecodedTables(other).Err?
    ensures EncodedTables(t) < other ==> DecodedTables(other) == Err(Trailing(|other| - |EncodedTables(t)|))
  {
    hide DecodedTables, EncodedTables;
    DecodeEncode(t);
    if other < EncodedTables(t) {
      if DecodedTables(other).Ok? { AcceptedEndsThere(other, EncodedTables(t)); }
    } else if EncodedTables(t) < other {
      AcceptedEndsThere(EncodedTables(t), other);
    }
  }
}
