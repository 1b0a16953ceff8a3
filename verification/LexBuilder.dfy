/** The generator's program builder (cmd/ts-translate/lexprog.go:14-193): a lex function laid out as
    postfix conditions and forward jumps. */
module LexBuilder {
  import opened EditSpec
  import opened LexFunctions
  import opened LexProgram

  // ---------------------------------------------------------------- the layout

  function UnaryCode(op: UnaryOp): Op { match op case Not => OpNot case Neg => OpNeg }

  /** A condition in postfix. */
  function CondCode(e: Expr): seq<Instr> {
    match e
    case Lit(v) => [Instr(PushLit, Int32(v))]
    case Lookahead => [Instr(PushLookahead, 0)]
    case Eof => [Instr(PushEof, 0)]
    case InSet(s) => [Instr(PushSet, s)]
    case Unary(op, x) => CondCode(x) + [Instr(UnaryCode(op), 0)]
    case Binary(op, l, r) => CondCode(l) + CondCode(r) + [Instr(OpBinary, OpNumber(op))]
  }

  /** How many operands are on the stack at once while a condition is computed. */
  function Depth(e: Expr): nat {
    match e
    case Unary(_, x) => Depth(x)
    case Binary(_, l, r) => Max(Depth(l), 1 + Depth(r))
    case _ => 1
  }

  function Max(a: nat, b: nat): nat { if a < b then b else a }

  function Flat(pairs: seq<(int, int)>): seq<int> {
    if pairs == [] then [] else [Int32(pairs[0].0), Int32(pairs[0].1)] + Flat(pairs[1..])
  }

  /** The maps a statement adds. */
  function StmtMaps(s: Stmt): seq<seq<int>>
    decreases s
  {
    match s
    case If(_, body) => StmtsMaps(body)
    case AdvanceMap(pairs) => [Flat(pairs)]
    case _ => []
  }

  function StmtsMaps(ss: seq<Stmt>): seq<seq<int>>
    decreases ss
  {
    if ss == [] then [] else StmtMaps(ss[0]) + StmtsMaps(ss[1..])
  }

  predicate Bare(c: Expr) { c == Lit(1) }

  /** A statement laid out at `base`, after `k` maps. */
  function StmtCode(s: Stmt, base: nat, k: nat): seq<Instr>
    decreases s
  {
    match s
    case If(c, body) =>
      if Bare(c) then StmtsCode(body, base, k) else
      var start := base + |CondCode(c)| + 1;
      var code := StmtsCode(body, start, k);
      CondCode(c) + [Instr(JumpIfFalse, start + |code|)] + code
    case Advance(state, skip) => [Instr(if skip then OpSkip else OpAdvance, Int32(state))]
    case AdvanceMap(_) => [Instr(OpAdvanceMap, k)]
    case Accept(symbol) => [Instr(OpAccept, Int32(symbol))]
    case EndState => [Instr(OpEnd, 0)]
    case Return(ResultValue) => [Instr(OpEnd, 0)]
    case Return(FalseValue) => [Instr(OpReturn, 0)]
    case Return(TrueValue) => [Instr(OpReturn, 1)]
    case EofAssign => [Instr(OpReadEof, 0)]
  }

  function StmtsCode(ss: seq<Stmt>, base: nat, k: nat): seq<Instr>
    decreases ss
  {
    if ss == [] then [] else
    var first := StmtCode(ss[0], base, k);
    first + StmtsCode(ss[1..], base + |first|, k + |StmtMaps(ss[0])|)
  }

  function StmtDepth(s: Stmt): nat
    decreases s
  {
    match s
    case If(c, body) => Max(if Bare(c) then 0 else Depth(c), StmtsDepth(body))
    case _ => 0
  }

  function StmtsDepth(ss: seq<Stmt>): nat
    decreases ss
  {
    if ss == [] then 0 else Max(StmtDepth(ss[0]), StmtsDepth(ss[1..]))
  }

  datatype Layout = Layout(code: seq<Instr>, maps: seq<seq<int>>)

  predicate EndsRun(code: seq<Instr>) {
    |code| > 0 && code[|code| - 1].op in {OpEnd, OpReturn}
  }

  /** A case laid out after `b`; a case whose code does not end in an answer is given one. */
  function AddCase(b: Layout, c: Case): Layout {
    var code := b.code + StmtsCode(c.stmts, |b.code|, |b.maps|);
    Layout(if EndsRun(code) then code else code + [Instr(OpEnd, 0)], b.maps + StmtsMaps(c.stmts))
  }

  function AddCases(b: Layout, cases: seq<Case>): Layout {
    if cases == [] then b else AddCase(AddCases(b, cases[..|cases| - 1]), cases[|cases| - 1])
  }

  function Head(fn: LexFunc): Layout {
    Layout(StmtsCode(fn.prologue, 0, 0) + [Instr(Dispatch, 0)], StmtsMaps(fn.prologue))
  }

  /** Where case k begins. */
  function EntryOf(fn: LexFunc, k: nat): nat
    requires k <= |fn.cases|
  {
    |AddCases(Head(fn), fn.cases[..k]).code|
  }

  function CasesDepth(cases: seq<Case>): nat {
    if cases == [] then 0 else Max(CasesDepth(cases[..|cases| - 1]), StmtsDepth(cases[|cases| - 1].stmts))
  }

  function FuncDepth(fn: LexFunc): nat { Max(StmtsDepth(fn.prologue), CasesDepth(fn.cases)) }

  // ---------------------------------------------------------------- the state table

  /** The last case among the first n with a label, which is the one a map keeps. */
  function LastLabelled(cases: seq<Case>, n: nat, tag: nat): (k: int)
    requires n <= |cases|
    ensures -1 <= k < n
    ensures k >= 0 ==> HasLabel(cases[k], tag)
    ensures forall j :: k < j < n ==> !HasLabel(cases[j], tag)
  {
    if n == 0 then -1 else if HasLabel(cases[n - 1], tag) then n - 1 else LastLabelled(cases, n - 1, tag)
  }

  function LastDefault(cases: seq<Case>, n: nat): (k: int)
    requires n <= |cases|
    ensures -1 <= k < n
    ensures k >= 0 ==> cases[k].isDefault
    ensures forall j :: k < j < n ==> !cases[j].isDefault
  {
    if n == 0 then -1 else if cases[n - 1].isDefault then n - 1 else LastDefault(cases, n - 1)
  }

  /** Where a state is sent: its labelled case, the default case, or nowhere. */
  function Target(fn: LexFunc, state: nat): int {
    var k := LastLabelled(fn.cases, |fn.cases|, state);
    var d := LastDefault(fn.cases, |fn.cases|);
    if k >= 0 then EntryOf(fn, k) else if d >= 0 then EntryOf(fn, d) else -1
  }

  function HighestOf(labels: seq<nat>, h: int): (r: int)
    ensures r >= h
    ensures forall x :: x in labels ==> x <= r
    ensures r == h || r in labels
  {
    if labels == [] then h else
    assert labels == [labels[0]] + labels[1..];
    HighestOf(labels[1..], if labels[0] > h then labels[0] else h)
  }

  function Highest(cases: seq<Case>): (r: int)
    ensures r >= -1
    ensures forall c, x :: c in cases && x in c.labels ==> x <= r
  {
    if cases == [] then -1 else
    var n := |cases| - 1;
    assert cases == cases[..n] + [cases[n]];
    HighestOf(cases[n].labels, Highest(cases[..n]))
  }

  function States(fn: LexFunc): (s: seq<int>)
    ensures |s| == Highest(fn.cases) + 1
    ensures forall i :: 0 <= i < |s| ==> s[i] == Target(fn, i)
  {
    seq(Highest(fn.cases) + 1, i requires 0 <= i => Target(fn, i))
  }

  /** The whole program. */
  function Compiled(fn: LexFunc): Program {
    var b := AddCases(Head(fn), fn.cases);
    Program(b.code, States(fn), b.maps)
  }

  // ---------------------------------------------------------------- the builder

  lemma StmtsUnfold(ss: seq<Stmt>, base: nat, k: nat)
    ensures ss == [] ==> StmtsCode(ss, base, k) == [] && StmtsMaps(ss) == []
    ensures ss != [] ==> StmtsMaps(ss) == StmtMaps(ss[0]) + StmtsMaps(ss[1..])
    ensures ss != [] ==> StmtsCode(ss, base, k) == StmtCode(ss[0], base, k)
                           + StmtsCode(ss[1..], base + |StmtCode(ss[0], base, k)|, k + |StmtMaps(ss[0])|)
  {
    hide StmtCode, StmtMaps;
  }

  lemma StmtsCodeSnoc(ss: seq<Stmt>, s: Stmt, base: nat, k: nat)
    ensures StmtsCode(ss + [s], base, k)
         == StmtsCode(ss, base, k) + StmtCode(s, base + |StmtsCode(ss, base, k)|, k + |StmtsMaps(ss)|)
    decreases |ss|
  {
    hide *;
    var all := ss + [s];
    StmtsUnfold(ss, base, k);
    StmtsUnfold(all, base, k);
    if ss == [] {
      assert all[1..] == [] && all[0] == s;
      StmtsUnfold(all[1..], base + |StmtCode(s, base, k)|, k + |StmtMaps(s)|);
      assert StmtsCode(all, base, k) == StmtCode(s, base, k) + [];
    } else {
      assert all[1..] == ss[1..] + [s] && all[0] == ss[0];
      var first := StmtCode(ss[0], base, k);
      var base', k' := base + |first|, k + |StmtMaps(ss[0])|;
      StmtsCodeSnoc(ss[1..], s, base', k');
      assert base' + |StmtsCode(ss[1..], base', k')| == base + |StmtsCode(ss, base, k)|;
      assert k' + |StmtsMaps(ss[1..])| == k + |StmtsMaps(ss)|;
    }
  }

  lemma StmtsMapsSnoc(ss: seq<Stmt>, s: Stmt)
    ensures StmtsMaps(ss + [s]) == StmtsMaps(ss) + StmtMaps(s)
  {
    hide StmtMaps;
    var all := ss + [s];
    if ss == [] {
      assert all[1..] == [];
    } else {
      assert all[1..] == ss[1..] + [s] && all[0] == ss[0];
      StmtsMapsSnoc(ss[1..], s);
    }
  }

  lemma StmtsDepthSnoc(ss: seq<Stmt>, s: Stmt)
    ensures StmtsDepth(ss + [s]) == Max(StmtsDepth(ss), StmtDepth(s))
  {
    hide StmtDepth;
    var all := ss + [s];
    if ss == [] {
      assert all[1..] == [];
    } else {
      assert all[1..] == ss[1..] + [s] && all[0] == ss[0];
      StmtsDepthSnoc(ss[1..], s);
    }
  }

  method Flatten(pairs: seq<(int, int)>) returns (flat: seq<int>)
    ensures flat == Flat(pairs)
  {
    flat := [];
    var i := 0;
    while i < |pairs|
      invariant 0 <= i <= |pairs|
      invariant flat + Flat(pairs[i..]) == Flat(pairs)
    {
      assert pairs[i..][0] == pairs[i] && pairs[i..][1..] == pairs[i + 1..];
      flat := flat + [Int32(pairs[i].0), Int32(pairs[i].1)];
      i := i + 1;
    }
    assert pairs[i..] == [] && flat + [] == flat;
  }

  class ProgBuilder {
    var code: seq<Instr>
    var maps: seq<seq<int>>
    var depth: int
    var max: nat

    constructor ()
      ensures code == [] && maps == [] && depth == 0 && max == 0
    {
      code, maps, depth, max := [], [], 0, 0;
    }

    method Emit(op: Op, arg: int) returns (at: nat)
      modifies this`code
      ensures at == |old(code)| && code == old(code) + [Instr(op, arg)]
    {
      code := code + [Instr(op, arg)];
      at := |code| - 1;
    }

    method Push(op: Op, arg: int)
      modifies this`code, this`depth, this`max
      ensures code == old(code) + [Instr(op, arg)]
      ensures depth == old(depth) + 1 && max == (if old(max) < depth then depth else old(max))
    {
      var _ := Emit(op, arg);
      depth := depth + 1;
      if depth > max { max := depth; }
    }

    method Cond(x: Expr)
      requires depth >= 0
      modifies this`code, this`depth, this`max
      ensures code == old(code) + CondCode(x)
      ensures depth == old(depth) + 1 && max == Max(old(max), old(depth) + Depth(x))
      decreases x
    {
      match x {
        case Lit(v) => Push(PushLit, Int32(v));
        case Lookahead => Push(PushLookahead, 0);
        case Eof => Push(PushEof, 0);
        case InSet(s) => Push(PushSet, s);
        case Unary(op, y) =>
          Cond(y);
          var _ := Emit(UnaryCode(op), 0);
        case Binary(op, l, r) =>
          Cond(l);
          Cond(r);
          var _ := Emit(OpBinary, OpNumber(op));
          depth := depth - 1;
      }
    }

    /** The loop over a list of statements that every caller of stmt runs. */
    method StmtList(ss: seq<Stmt>)
      modifies this
      ensures code == old(code) + StmtsCode(ss, |old(code)|, |old(maps)|)
      ensures maps == old(maps) + StmtsMaps(ss) && max == Max(old(max), StmtsDepth(ss))
      decreases ss, 1
    {
      var i := 0;
      while i < |ss|
        invariant 0 <= i <= |ss|
        invariant code == old(code) + StmtsCode(ss[..i], |old(code)|, |old(maps)|)
        invariant maps == old(maps) + StmtsMaps(ss[..i]) && max == Max(old(max), StmtsDepth(ss[..i]))
      {
        assert ss[..i + 1] == ss[..i] + [ss[i]];
        StmtsCodeSnoc(ss[..i], ss[i], |old(code)|, |old(maps)|);
        StmtsMapsSnoc(ss[..i], ss[i]);
        StmtsDepthSnoc(ss[..i], ss[i]);
        StmtAt(ss[i]);
        i := i + 1;
      }
      assert ss[..i] == ss;
    }

    method StmtAt(s: Stmt)
      modifies this
      ensures code == old(code) + StmtCode(s, |old(code)|, |old(maps)|)
      ensures maps == old(maps) + StmtMaps(s) && max == Max(old(max), StmtDepth(s))
      decreases s, 0
    {
      hide CondCode, Depth, Flat, StmtsCode, StmtsMaps, StmtsDepth, Int32;
      match s {
        case If(c, body) =>
          if Bare(c) {
            StmtList(body);
            return;
          }
          depth := 0;
          Cond(c);
          var jump := Emit(JumpIfFalse, 0);
          StmtList(body);
          code := code[jump := code[jump].(arg := |code|)];
        case Advance(state, skip) =>
          var _ := Emit(if skip then OpSkip else OpAdvance, Int32(state));
        case AdvanceMap(pairs) =>
          var flat := Flatten(pairs);
          maps := maps + [flat];
          var _ := Emit(OpAdvanceMap, |maps| - 1);
        case Accept(symbol) =>
          var _ := Emit(OpAccept, Int32(symbol));
        case EndState =>
          var _ := Emit(OpEnd, 0);
        case Return(v) =>
          match v {
            case ResultValue => var _ := Emit(OpEnd, 0);
            case FalseValue => var _ := Emit(OpReturn, 0);
            case TrueValue => var _ := Emit(OpReturn, 1);
          }
        case EofAssign =>
          var _ := Emit(OpReadEof, 0);
      }
    }
  }

  /** The table of labels after the first n cases: a label of the last case that has it. */
  ghost predicate Entries(fn: LexFunc, n: nat, entry: map<nat, int>)
    requires n <= |fn.cases|
  {
    && (forall x :: x in entry <==> LastLabelled(fn.cases, n, x) >= 0)
    && (forall x :: x in entry ==> entry[x] == EntryOf(fn, LastLabelled(fn.cases, n, x)))
  }

  ghost function DefaultAt(fn: LexFunc, n: nat): int
    requires n <= |fn.cases|
  {
    var d := LastDefault(fn.cases, n);
    if d >= 0 then EntryOf(fn, d) else -1
  }

  ghost predicate Labelling(labels: seq<nat>, pc: int, before: map<nat, int>, after: map<nat, int>) {
    && (forall x :: x in after <==> x in before || x in labels)
    && (forall x :: x in after ==> after[x] == if x in labels then pc else before[x])
  }

  lemma EntriesStep(fn: LexFunc, n: nat, before: map<nat, int>, after: map<nat, int>)
    requires n < |fn.cases| && Entries(fn, n, before)
    requires Labelling(fn.cases[n].labels, EntryOf(fn, n), before, after)
    ensures Entries(fn, n + 1, after)
  {
    hide EntryOf;
  }

  /** One case of the label loop: each label enters at pc. */
  method EnterLabels(labels: seq<nat>, pc: int, before: map<nat, int>, above: int)
      returns (entry: map<nat, int>, highest: int)
    ensures Labelling(labels, pc, before, entry)
    ensures highest == HighestOf(labels, above)
  {
    entry, highest := before, above;
    var i := 0;
    while i < |labels|
      invariant 0 <= i <= |labels|
      invariant Labelling(labels[..i], pc, before, entry)
      invariant HighestOf(labels[i..], highest) == HighestOf(labels, above)
    {
      entry := entry[labels[i] := pc];
      if labels[i] > highest { highest := labels[i]; }
      assert labels[i..][1..] == labels[i + 1..];
      i := i + 1;
    }
    assert labels[..i] == labels;
  }

  /** The state table: every state at the default, then every label at its own case. */
  method StateTable(entry: map<nat, int>, deflt: int, highest: int) returns (states: seq<int>)
    requires highest >= -1 && forall x :: x in entry ==> x <= highest
    ensures |states| == highest + 1
    ensures forall k :: 0 <= k < |states| ==> states[k] == if k in entry then entry[k] else deflt
  {
    states := seq(highest + 1, _ => deflt);
    var left := entry.Keys;
    while left != {}
      invariant left <= entry.Keys && |states| == highest + 1
      invariant forall k :: 0 <= k < |states| ==>
        states[k] == if k in entry && k !in left then entry[k] else deflt
      decreases left
    {
      var tag :| tag in left;
      states := states[tag := entry[tag]];
      left := left - {tag};
    }
  }

  lemma TableIsStates(fn: LexFunc, entry: map<nat, int>, states: seq<int>)
    requires Entries(fn, |fn.cases|, entry) && |states| == Highest(fn.cases) + 1
    requires forall k :: 0 <= k < |states| ==>
      states[k] == if k in entry then entry[k] else DefaultAt(fn, |fn.cases|)
    ensures states == States(fn)
  {
    hide EntryOf, Highest;
  }

  lemma EntriesBelow(fn: LexFunc, entry: map<nat, int>)
    requires Entries(fn, |fn.cases|, entry)
    ensures forall x :: x in entry ==> x <= Highest(fn.cases)
  {
    hide EntryOf;
  }

  lemma CasesStep(fn: LexFunc, n: nat)
    requires n < |fn.cases|
    ensures AddCases(Head(fn), fn.cases[..n + 1]) == AddCase(AddCases(Head(fn), fn.cases[..n]), fn.cases[n])
    ensures CasesDepth(fn.cases[..n + 1]) == Max(CasesDepth(fn.cases[..n]), StmtsDepth(fn.cases[n].stmts))
    ensures Highest(fn.cases[..n + 1]) == HighestOf(fn.cases[n].labels, Highest(fn.cases[..n]))
    ensures DefaultAt(fn, n + 1) == if fn.cases[n].isDefault then EntryOf(fn, n) else DefaultAt(fn, n)
  {
    hide Head, StmtsDepth, AddCase, HighestOf;
    assert fn.cases[..n + 1][..n] == fn.cases[..n] && fn.cases[..n + 1][n] == fn.cases[n];
  }

  /** buildLexProgram.  None is the build's panic at a condition that nests too deep. */
  method BuildLexProgram(fn: LexFunc) returns (p: Option<Program>)
    ensures p.Some? <==> FuncDepth(fn) <= STACK_SLOTS
    ensures p.Some? ==> p.value == Compiled(fn)
  {
    hide Entries, Labelling, AddCases, CasesDepth, Highest, DefaultAt, StmtsCode, StmtsMaps, StmtsDepth, HighestOf;
    var b := new ProgBuilder();
    b.StmtList(fn.prologue);
    var _ := b.Emit(Dispatch, 0);
    var entry: map<nat, int>, deflt: int, highest: int := map[], -1, -1;
    BuildStart(fn);
    var n := 0;
    while n < |fn.cases|
      invariant 0 <= n <= |fn.cases|
      invariant Layout(b.code, b.maps) == AddCases(Head(fn), fn.cases[..n])
      invariant b.max == Max(StmtsDepth(fn.prologue), CasesDepth(fn.cases[..n]))
      invariant highest == Highest(fn.cases[..n]) && deflt == DefaultAt(fn, n) && Entries(fn, n, entry)
      invariant fresh(b)
    {
      var c := fn.cases[n];
      var pc := |b.code|;
      if c.isDefault { deflt := pc; }
      ghost var before := entry;
      entry, highest := EnterLabels(c.labels, pc, entry, highest);
      b.StmtList(c.stmts);
      if !EndsRun(b.code) { var _ := b.Emit(OpEnd, 0); }
      EntriesStep(fn, n, before, entry);
      CasesStep(fn, n);
      n := n + 1;
    }
    assert fn.cases[..n] == fn.cases;
    EntriesBelow(fn, entry);
    var states := StateTable(entry, deflt, highest);
    if b.max > STACK_SLOTS { return None; }
    TableIsStates(fn, entry, states);
    return Some(Program(b.code, states, b.maps));
  }

  lemma BuildStart(fn: LexFunc)
    ensures AddCases(Head(fn), fn.cases[..0]) == Head(fn) && CasesDepth(fn.cases[..0]) == 0
    ensures Highest(fn.cases[..0]) == -1 && DefaultAt(fn, 0) == -1 && Entries(fn, 0, map[])
  {
    hide Head;
  }
}
