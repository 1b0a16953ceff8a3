/** The table blob before compression (tables.go): the data it carries, the bytes each section is
    written as, and what a reader that stops at its first error takes from any bytes. */
module TableWire {
  import opened EditSpec
  import opened Utf8

  type U16 = x: int | 0 <= x < 0x1_0000
  type U32 = x: int | 0 <= x < 0x1_0000_0000
  type I16 = x: int | -0x8000 <= x < 0x8000
  type I32 = x: int | -0x8000_0000 <= x < 0x8000_0000

  const MAX_INT32 := 0x7FFF_FFFF

  // ---------------------------------------------------------------- the data

  datatype MapSlice = MapSlice(index: U16, length: U16)
  datatype FieldMapEntry = FieldMapEntry(fieldId: U16, childIndex: Byte, inherited: bool)
  datatype SymbolMetadata = SymbolMetadata(visible: bool, named: bool, supertype: bool)
  datatype LexerMode = LexerMode(lexState: U16, externalLexState: U16, reservedWordSetId: U16)
  datatype ParseAction = ParseAction(kind: Byte, state: U16, extra: bool, repetition: bool, childCount: Byte,
                                     symbol: U16, dynamicPrecedence: I16, productionId: U16)
  datatype ParseActionEntry = ParseActionEntry(action: ParseAction, count: Byte, reusable: bool)
  datatype CharacterRange = CharacterRange(start: I32, end: I32)
  datatype LexInstr = LexInstr(op: Byte, arg: I32)
  datatype LexProgram = LexProgram(code: seq<LexInstr>, states: seq<I32>, maps: seq<seq<I32>>)

  datatype Counts = Counts(abiVersion: U32, symbols: U32, aliases: U32, tokens: U32, externalTokens: U32, states: U32,
                           largeStates: U32, productionIds: U32, fields: U32, supertypes: U32)
  {
    function AsList(): (r: seq<U32>)
      ensures |r| == 10
    {
      [abiVersion, symbols, aliases, tokens, externalTokens, states, largeStates, productionIds, fields, supertypes]
    }
  }

  function CountsOf(v: seq<U32>): Counts
    requires |v| == 10
  {
    Counts(v[0], v[1], v[2], v[3], v[4], v[5], v[6], v[7], v[8], v[9])
  }

  /** The sections of a grammar's tables, in the order they travel. */
  datatype Head = Head(counts: Counts, maxAliasSequenceLen: U16, maxReservedWordSetLen: U16, keywordCaptureToken: U16,
                       majorVersion: Byte, minorVersion: Byte, patchVersion: Byte, name: seq<Byte>)

  datatype Parsing = Parsing(parseTable: seq<U16>, smallParseTable: seq<U16>, smallParseTableMap: seq<U32>,
                             parseActions: seq<ParseActionEntry>, symbolNames: seq<seq<Byte>>, fieldNames: seq<seq<Byte>>,
                             fieldMapSlices: seq<MapSlice>, fieldMapEntries: seq<FieldMapEntry>,
                             symbolMetadata: seq<SymbolMetadata>, publicSymbolMap: seq<U16>)

  datatype Symbols = Symbols(aliasMap: seq<U16>, aliasSequences: seq<U16>, lexModes: seq<LexerMode>,
                             primaryStateIds: seq<U16>, reservedWords: seq<U16>, supertypeSymbols: seq<U16>,
                             supertypeMapSlices: seq<MapSlice>, supertypeMapEntries: seq<U16>,
                             externalScannerStates: seq<bool>, externalScannerSymbols: seq<U16>)

  datatype Tables = Tables(head: Head, parsing: Parsing, symbols: Symbols, characterSets: seq<seq<CharacterRange>>,
                           lex: Option<LexProgram>, keywordLex: Option<LexProgram>)

  // ---------------------------------------------------------------- numbers and fixed-width entries

  function At(b: seq<Byte>, i: nat): Byte { if i < |b| then b[i] else 0 }

  function Le16(v: U16): seq<Byte> { [v % 0x100, v / 0x100] }

  function Le32(v: U32): (r: seq<Byte>)
    ensures |r| == 4
  {
    Le16(v % 0x1_0000) + Le16(v / 0x1_0000)
  }

  function From16(b: seq<Byte>, i: nat): U16 { At(b, i) + 0x100 * At(b, i + 1) }

  function From32(b: seq<Byte>, i: nat): U32 { From16(b, i) + 0x1_0000 * From16(b, i + 2) }

  function Unsigned16(v: I16): U16 { if v < 0 then v + 0x1_0000 else v }

  function Signed16(v: U16): I16 { if v < 0x8000 then v else v - 0x1_0000 }

  function Unsigned32(v: I32): U32 { if v < 0 then v + 0x1_0000_0000 else v }

  function Signed32(v: U32): I32 { if v < 0x8000_0000 then v else v - 0x1_0000_0000 }

  function BoolByte(v: bool): Byte { if v then 1 else 0 }

  function Bits(b0: bool, b1: bool, b2: bool): Byte { BoolByte(b0) + 2 * BoolByte(b1) + 4 * BoolByte(b2) }

  function PackSlice(x: MapSlice): seq<Byte> { Le16(x.index) + Le16(x.length) }

  function UnpackSlice(b: seq<Byte>): MapSlice { MapSlice(From16(b, 0), From16(b, 2)) }

  function PackField(x: FieldMapEntry): seq<Byte> { Le16(x.fieldId) + [x.childIndex, BoolByte(x.inherited)] }

  function UnpackField(b: seq<Byte>): FieldMapEntry { FieldMapEntry(From16(b, 0), At(b, 2), At(b, 3) != 0) }

  function PackMetadata(x: SymbolMetadata): seq<Byte> { [Bits(x.visible, x.named, x.supertype)] }

  function UnpackMetadata(b: seq<Byte>): SymbolMetadata {
    var bits := At(b, 0);
    SymbolMetadata(bits % 2 != 0, bits / 2 % 2 != 0, bits / 4 % 2 != 0)
  }

  function PackMode(x: LexerMode): seq<Byte> { Le16(x.lexState) + Le16(x.externalLexState) + Le16(x.reservedWordSetId) }

  function UnpackMode(b: seq<Byte>): LexerMode { LexerMode(From16(b, 0), From16(b, 2), From16(b, 4)) }

  function PackAction(x: ParseActionEntry): seq<Byte> {
    var a := x.action;
    [a.kind, Bits(a.extra, a.repetition, x.reusable), a.childCount, x.count]
    + Le16(a.state) + Le16(a.symbol) + Le16(Unsigned16(a.dynamicPrecedence)) + Le16(a.productionId)
  }

  function UnpackAction(b: seq<Byte>): ParseActionEntry {
    var bits := At(b, 1);
    ParseActionEntry(
      ParseAction(At(b, 0), From16(b, 4), bits % 2 != 0, bits / 2 % 2 != 0, At(b, 2),
                  From16(b, 6), Signed16(From16(b, 8)), From16(b, 10)),
      At(b, 3), bits / 4 % 2 != 0)
  }

  function PackRange(x: CharacterRange): seq<Byte> { Le32(Unsigned32(x.start)) + Le32(Unsigned32(x.end)) }

  function UnpackRange(b: seq<Byte>): CharacterRange { CharacterRange(Signed32(From32(b, 0)), Signed32(From32(b, 4))) }

  function PackInstr(x: LexInstr): seq<Byte> { [x.op] + Le32(Unsigned32(x.arg)) }

  function UnpackInstr(b: seq<Byte>): LexInstr { LexInstr(At(b, 0), Signed32(From32(b, 1))) }

  /** Entries of one width, and how they become bytes and back. */
  datatype Layout<!T> = Layout(width: nat, pack: T -> seq<Byte>, unpack: seq<Byte> -> T)

  ghost predicate Sound<T(!new)>(l: Layout<T>) {
    l.width > 0 && forall x: T :: |l.pack(x)| == l.width && l.unpack(l.pack(x)) == x
  }

  const BYTES: Layout<Byte> := Layout(1, (v: Byte) => [v], (b: seq<Byte>) => At(b, 0))
  const U16S: Layout<U16> := Layout(2, Le16, (b: seq<Byte>) => From16(b, 0))
  const U32S: Layout<U32> := Layout(4, Le32, (b: seq<Byte>) => From32(b, 0))
  const I32S: Layout<I32> := Layout(4, (v: I32) => Le32(Unsigned32(v)), (b: seq<Byte>) => Signed32(From32(b, 0)))
  const BOOLS: Layout<bool> := Layout(1, (v: bool) => [BoolByte(v)], (b: seq<Byte>) => At(b, 0) != 0)
  const SLICES: Layout<MapSlice> := Layout(4, PackSlice, UnpackSlice)
  const FIELDS: Layout<FieldMapEntry> := Layout(4, PackField, UnpackField)
  const METADATA: Layout<SymbolMetadata> := Layout(1, PackMetadata, UnpackMetadata)
  const MODES: Layout<LexerMode> := Layout(6, PackMode, UnpackMode)
  const ACTIONS: Layout<ParseActionEntry> := Layout(12, PackAction, UnpackAction)
  const RANGES: Layout<CharacterRange> := Layout(8, PackRange, UnpackRange)
  const INSTRS: Layout<LexInstr> := Layout(5, PackInstr, UnpackInstr)

  lemma Back16(v: U16, b: seq<Byte>, i: nat)
    requires i + 2 <= |b| && b[i..i + 2] == Le16(v)
    ensures From16(b, i) == v
  {
    assert b[i] == b[i..i + 2][0] && b[i + 1] == b[i..i + 2][1];
  }

  lemma Back32(v: U32, b: seq<Byte>, i: nat)
    requires i + 4 <= |b| && b[i..i + 4] == Le32(v)
    ensures From32(b, i) == v
  {
    hide Le16, From16;
    assert |Le16(v % 0x1_0000)| == 2 by { Width16(v % 0x1_0000); }
    assert b[i..i + 2] == b[i..i + 4][..2] == Le16(v % 0x1_0000);
    assert b[i + 2..i + 4] == b[i..i + 4][2..] == Le16(v / 0x1_0000);
    Back16(v % 0x1_0000, b, i);
    Back16(v / 0x1_0000, b, i + 2);
  }

  lemma Width16(v: U16)
    ensures |Le16(v)| == 2
  {
  }

  lemma NumbersSound()
    ensures Sound(BYTES) && Sound(U16S) && Sound(U32S) && Sound(I32S) && Sound(BOOLS)
  {
    hide From32, Le32;
    forall v: U32 ensures From32(Le32(v), 0) == v {
      assert Le32(v)[0..4] == Le32(v);
      Back32(v, Le32(v), 0);
    }
    forall v: I32 ensures Signed32(From32(Le32(Unsigned32(v)), 0)) == v {}
  }

  lemma SmallEntriesSound()
    ensures Sound(SLICES) && Sound(FIELDS) && Sound(METADATA) && Sound(MODES)
  {
    forall x: MapSlice ensures UnpackSlice(PackSlice(x)) == x {}
    forall x: FieldMapEntry ensures UnpackField(PackField(x)) == x {}
    forall x: SymbolMetadata ensures UnpackMetadata(PackMetadata(x)) == x {}
    forall x: LexerMode ensures UnpackMode(PackMode(x)) == x {}
  }

  lemma ActionsSound()
    ensures Sound(ACTIONS)
  {
    forall x: ParseActionEntry ensures |PackAction(x)| == 12 && UnpackAction(PackAction(x)) == x {
      var b := PackAction(x);
      assert b[4..6] == Le16(x.action.state);
      assert b[6..8] == Le16(x.action.symbol);
      assert b[8..10] == Le16(Unsigned16(x.action.dynamicPrecedence));
      assert b[10..12] == Le16(x.action.productionId);
    }
  }

  lemma LexEntriesSound()
    ensures Sound(RANGES) && Sound(INSTRS)
  {
    hide Le32, From32;
    forall x: CharacterRange ensures |PackRange(x)| == 8 && UnpackRange(PackRange(x)) == x {
      var b := PackRange(x);
      assert b[0..4] == Le32(Unsigned32(x.start)) && b[4..8] == Le32(Unsigned32(x.end));
      Back32(Unsigned32(x.start), b, 0);
      Back32(Unsigned32(x.end), b, 4);
    }
    forall x: LexInstr ensures |PackInstr(x)| == 5 && UnpackInstr(PackInstr(x)) == x {
      var b := PackInstr(x);
      assert b[1..5] == Le32(Unsigned32(x.arg));
      Back32(Unsigned32(x.arg), b, 1);
    }
  }

  // ---------------------------------------------------------------- what a writer appends

  function RowsInto<T>(buf: seq<Byte>, l: Layout<T>, xs: seq<T>): (r: seq<Byte>)
    ensures buf <= r
    decreases |xs|
  {
    if xs == [] then buf else RowsInto(buf + l.pack(xs[0]), l, xs[1..])
  }

  /** A length travels as 32 bits. */
  function LengthInto(buf: seq<Byte>, n: nat): (r: seq<Byte>)
    ensures buf <= r
  {
    buf + Le32(n % 0x1_0000_0000)
  }

  function EntriesInto<T>(buf: seq<Byte>, l: Layout<T>, xs: seq<T>): (r: seq<Byte>)
    ensures buf <= r
  {
    RowsInto(LengthInto(buf, |xs|), l, xs)
  }

  function ListRowsInto<T>(buf: seq<Byte>, l: Layout<T>, xss: seq<seq<T>>): (r: seq<Byte>)
    ensures buf <= r
    decreases |xss|
  {
    if xss == [] then buf else ListRowsInto(EntriesInto(buf, l, xss[0]), l, xss[1..])
  }

  function ListsInto<T>(buf: seq<Byte>, l: Layout<T>, xss: seq<seq<T>>): (r: seq<Byte>)
    ensures buf <= r
  {
    ListRowsInto(LengthInto(buf, |xss|), l, xss)
  }

  /** No program is written as no instructions. */
  function ProgramInto(buf: seq<Byte>, p: Option<LexProgram>): (r: seq<Byte>)
    ensures buf <= r
  {
    match p
    case None => LengthInto(buf, 0)
    case Some(q) => ListsInto(EntriesInto(EntriesInto(buf, INSTRS, q.code), I32S, q.states), I32S, q.maps)
  }

  function HeadInto(buf: seq<Byte>, h: Head): (r: seq<Byte>)
    ensures buf <= r
  {
    var numbers := RowsInto(buf, U32S, h.counts.AsList())
                   + Le16(h.maxAliasSequenceLen) + Le16(h.maxReservedWordSetLen) + Le16(h.keywordCaptureToken)
                   + [h.majorVersion] + [h.minorVersion] + [h.patchVersion];
    EntriesInto(numbers, BYTES, h.name)
  }

  function ParsingInto(buf: seq<Byte>, x: Parsing): (r: seq<Byte>)
    ensures buf <= r
  {
    var b := EntriesInto(buf, U16S, x.parseTable);
    var b := EntriesInto(b, U16S, x.smallParseTable);
    var b := EntriesInto(b, U32S, x.smallParseTableMap);
    var b := EntriesInto(b, ACTIONS, x.parseActions);
    var b := ListsInto(b, BYTES, x.symbolNames);
    var b := ListsInto(b, BYTES, x.fieldNames);
    var b := EntriesInto(b, SLICES, x.fieldMapSlices);
    var b := EntriesInto(b, FIELDS, x.fieldMapEntries);
    var b := EntriesInto(b, METADATA, x.symbolMetadata);
    EntriesInto(b, U16S, x.publicSymbolMap)
  }

  function SymbolsInto(buf: seq<Byte>, x: Symbols): (r: seq<Byte>)
    ensures buf <= r
  {
    var b := EntriesInto(buf, U16S, x.aliasMap);
    var b := EntriesInto(b, U16S, x.aliasSequences);
    var b := EntriesInto(b, MODES, x.lexModes);
    var b := EntriesInto(b, U16S, x.primaryStateIds);
    var b := EntriesInto(b, U16S, x.reservedWords);
    var b := EntriesInto(b, U16S, x.supertypeSymbols);
    var b := EntriesInto(b, SLICES, x.supertypeMapSlices);
    var b := EntriesInto(b, U16S, x.supertypeMapEntries);
    var b := EntriesInto(b, BOOLS, x.externalScannerStates);
    EntriesInto(b, U16S, x.externalScannerSymbols)
  }

  function TablesInto(buf: seq<Byte>, t: Tables): seq<Byte> {
    var b := SymbolsInto(ParsingInto(HeadInto(buf, t.head), t.parsing), t.symbols);
    ProgramInto(ProgramInto(ListsInto(b, RANGES, t.characterSets), t.lex), t.keywordLex)
  }

  // ---------------------------------------------------------------- what a reader takes

  /** The first failure: bytes ran out, or a length the rest cannot hold. */
  datatype ReadError = Short(have: nat, wanted: nat) | Claims(entries: nat)

  /** After an error every read answers zeros. */
  datatype Cursor = Cursor(pos: nat, err: Option<ReadError>) {
    predicate Fine() { err.None? }
  }

  function RawAt(buf: seq<Byte>, c: Cursor, n: nat): (r: (seq<Byte>, Cursor))
    ensures |r.0| == n
    ensures r.1.Fine() ==> c.Fine() && r.1.pos <= |buf|
  {
    if !c.Fine() then (seq(n, _ => 0), c)
    else if c.pos + n > |buf| then (seq(n, _ => 0), c.(err := Some(Short(|buf|, n))))
    else (buf[c.pos..c.pos + n], c.(pos := c.pos + n))
  }

  function CountAt(buf: seq<Byte>, c: Cursor, width: nat): (r: (nat, Cursor))
    ensures r.1.Fine() ==> c.Fine() && r.1.pos <= |buf|
    ensures !r.1.Fine() ==> r.0 == 0
    ensures r.1.Fine() ==> r.0 <= MAX_INT32 && r.1.pos + r.0 * width <= |buf|
  {
    var (b, d) := RawAt(buf, c, 4);
    var n := From32(b, 0);
    if !d.Fine() then (0, d)
    else if n > MAX_INT32 || n * width > |buf| - d.pos then (0, d.(err := Some(Claims(n))))
    else (n, d)
  }

  function RowsAt<T>(buf: seq<Byte>, c: Cursor, l: Layout<T>, n: nat): (r: (seq<T>, Cursor))
    ensures |r.0| == n && (r.1.Fine() ==> c.Fine())
    ensures r.1.Fine() && c.pos <= |buf| ==> r.1.pos <= |buf|
    decreases n
  {
    if n == 0 then ([], c)
    else
      var (b, d) := RawAt(buf, c, l.width);
      var (rest, e) := RowsAt(buf, d, l, n - 1);
      ([l.unpack(b)] + rest, e)
  }

  function EntriesAt<T>(buf: seq<Byte>, c: Cursor, l: Layout<T>): (r: (seq<T>, Cursor))
    ensures r.1.Fine() ==> c.Fine() && r.1.pos <= |buf|
  {
    var (n, d) := CountAt(buf, c, l.width);
    RowsAt(buf, d, l, n)
  }

  function ListRowsAt<T>(buf: seq<Byte>, c: Cursor, l: Layout<T>, n: nat): (r: (seq<seq<T>>, Cursor))
    ensures |r.0| == n && (r.1.Fine() ==> c.Fine())
    ensures r.1.Fine() && c.pos <= |buf| ==> r.1.pos <= |buf|
    decreases n
  {
    if n == 0 then ([], c)
    else
      var (xs, d) := EntriesAt(buf, c, l);
      var (rest, e) := ListRowsAt(buf, d, l, n - 1);
      ([xs] + rest, e)
  }

  function ListsAt<T>(buf: seq<Byte>, c: Cursor, l: Layout<T>): (r: (seq<seq<T>>, Cursor))
    ensures r.1.Fine() ==> c.Fine() && r.1.pos <= |buf|
  {
    var (n, d) := CountAt(buf, c, 4);
    ListRowsAt(buf, d, l, n)
  }

  function ProgramAt(buf: seq<Byte>, c: Cursor): (r: (Option<LexProgram>, Cursor))
    ensures r.1.Fine() ==> c.Fine() && r.1.pos <= |buf|
    ensures r.0.Some? ==> r.0.value.code != []
  {
    var (n, d) := CountAt(buf, c, 5);
    if n == 0 then (None, d)
    else
      var (code, e) := RowsAt(buf, d, INSTRS, n);
      var (states, f) := EntriesAt(buf, e, I32S);
      var (maps, g) := ListsAt(buf, f, I32S);
      (Some(LexProgram(code, states, maps)), g)
  }

  function HeadAt(buf: seq<Byte>, c: Cursor): (r: (Head, Cursor))
    ensures r.1.Fine() ==> c.Fine() && r.1.pos <= |buf|
  {
    var (counts, c1) := RowsAt(buf, c, U32S, 10);
    var (aliases, c2) := RawAt(buf, c1, 2);
    var (words, c3) := RawAt(buf, c2, 2);
    var (keyword, c4) := RawAt(buf, c3, 2);
    var (major, c5) := RawAt(buf, c4, 1);
    var (minor, c6) := RawAt(buf, c5, 1);
    var (patch, c7) := RawAt(buf, c6, 1);
    var (name, c8) := EntriesAt(buf, c7, BYTES);
    (Head(CountsOf(counts), From16(aliases, 0), From16(words, 0), From16(keyword, 0), major[0], minor[0], patch[0], name), c8)
  }

  function ParsingAt(buf: seq<Byte>, c: Cursor): (r: (Parsing, Cursor))
    ensures r.1.Fine() ==> c.Fine() && r.1.pos <= |buf|
  {
    var (parseTable, c1) := EntriesAt(buf, c, U16S);
    var (smallParseTable, c2) := EntriesAt(buf, c1, U16S);
    var (smallParseTableMap, c3) := EntriesAt(buf, c2, U32S);
    var (parseActions, c4) := EntriesAt(buf, c3, ACTIONS);
    var (symbolNames, c5) := ListsAt(buf, c4, BYTES);
    var (fieldNames, c6) := ListsAt(buf, c5, BYTES);
    var (fieldMapSlices, c7) := EntriesAt(buf, c6, SLICES);
    var (fieldMapEntries, c8) := EntriesAt(buf, c7, FIELDS);
    var (symbolMetadata, c9) := EntriesAt(buf, c8, METADATA);
    var (publicSymbolMap, c10) := EntriesAt(buf, c9, U16S);
    (Parsing(parseTable, smallParseTable, smallParseTableMap, parseActions, symbolNames, fieldNames,
             fieldMapSlices, fieldMapEntries, symbolMetadata, publicSymbolMap), c10)
  }

  function SymbolsAt(buf: seq<Byte>, c: Cursor): (r: (Symbols, Cursor))
    ensures r.1.Fine() ==> c.Fine() && r.1.pos <= |buf|
  {
    var (aliasMap, c1) := EntriesAt(buf, c, U16S);
    var (aliasSequences, c2) := EntriesAt(buf, c1, U16S);
    var (lexModes, c3) := EntriesAt(buf, c2, MODES);
    var (primaryStateIds, c4) := EntriesAt(buf, c3, U16S);
    var (reservedWords, c5) := EntriesAt(buf, c4, U16S);
    var (supertypeSymbols, c6) := EntriesAt(buf, c5, U16S);
    var (supertypeMapSlices, c7) := EntriesAt(buf, c6, SLICES);
    var (supertypeMapEntries, c8) := EntriesAt(buf, c7, U16S);
    var (externalScannerStates, c9) := EntriesAt(buf, c8, BOOLS);
    var (externalScannerSymbols, c10) := EntriesAt(buf, c9, U16S);
    (Symbols(aliasMap, aliasSequences, lexModes, primaryStateIds, reservedWords, supertypeSymbols,
             supertypeMapSlices, supertypeMapEntries, externalScannerStates, externalScannerSymbols), c10)
  }

  function TablesAt(buf: seq<Byte>, c: Cursor): (r: (Tables, Cursor))
    ensures r.1.Fine() ==> c.Fine() && r.1.pos <= |buf|
    ensures r.0.lex.Some? ==> r.0.lex.value.code != []
    ensures r.0.keywordLex.Some? ==> r.0.keywordLex.value.code != []
  {
    var (head, c1) := HeadAt(buf, c);
    var (parsing, c2) := ParsingAt(buf, c1);
    var (symbols, c3) := SymbolsAt(buf, c2);
    var (characterSets, c4) := ListsAt(buf, c3, RANGES);
    var (lex, c5) := ProgramAt(buf, c4);
    var (keywordLex, c6) := ProgramAt(buf, c5);
    (Tables(head, parsing, symbols, characterSets, lex, keywordLex), c6)
  }
}
