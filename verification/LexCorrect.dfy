/** The program a lex function is built into does what the function does. */
module LexCorrect {
  import opened EditSpec
  import opened LexFunctions
  import opened LexProgram
  import opened LexBuilder

  // ---------------------------------------------------------------- what the builder takes for granted

  predicate FitsInt32(x: int) { -TWO_31 <= x < TWO_31 }

  /** A condition the program can hold: int32 literals and sets the tables have. */
  predicate CondFits(e: Expr, sets: nat) {
    match e
    case Lit(v) => FitsInt32(v)
    case InSet(s) => s < sets
    case Unary(_, x) => CondFits(x, sets)
    case Binary(_, l, r) => CondFits(l, sets) && CondFits(r, sets)
    case _ => true
  }

  predicate StmtFits(s: Stmt, sets: nat)
    decreases s
  {
    match s
    case If(c, body) => CondFits(c, sets) && StmtsFit(body, sets)
    case AdvanceMap(pairs) => forall i :: 0 <= i < |pairs| ==> FitsInt32(pairs[i].0)
    case _ => true
  }

  predicate StmtsFit(ss: seq<Stmt>, sets: nat)
    decreases ss
  {
    ss != [] ==> StmtFits(ss[0], sets) && StmtsFit(ss[1..], sets)
  }

  /** Control never runs past these statements. */
  predicate Leaves(s: Stmt)
    decreases s
  {
    match s
    case If(c, body) => Bare(c) && AllLeave(body)
    case Advance(_, _) => true
    case EndState => true
    case Return(_) => true
    case _ => false
  }

  predicate AllLeave(ss: seq<Stmt>)
    decreases ss
  {
    ss != [] && (Leaves(ss[0]) || AllLeave(ss[1..]))
  }

  predicate CondMentionsEof(e: Expr) {
    match e
    case Eof => true
    case Unary(_, x) => CondMentionsEof(x)
    case Binary(_, l, r) => CondMentionsEof(l) || CondMentionsEof(r)
    case _ => false
  }

  predicate MentionsEof(s: Stmt)
    decreases s
  {
    match s
    case If(c, body) => CondMentionsEof(c) || AnyMentionsEof(body)
    case EofAssign => true
    case _ => false
  }

  predicate AnyMentionsEof(ss: seq<Stmt>)
    decreases ss
  {
    ss != [] && (MentionsEof(ss[0]) || AnyMentionsEof(ss[1..]))
  }

  /** Each pass reads eof before anything else, or no pass ever asks for it. */
  predicate EofSettled(fn: LexFunc) {
    || (fn.prologue != [] && fn.prologue[0] == EofAssign)
    || (!AnyMentionsEof(fn.prologue) && forall c :: c in fn.cases ==> !AnyMentionsEof(c.stmts))
  }

  /** Every state these statements move to is at most h. */
  predicate Reaches(s: Stmt, h: int)
    decreases s
  {
    match s
    case If(_, body) => AllReach(body, h)
    case Advance(state, _) => UInt16(state) <= h
    case AdvanceMap(pairs) => forall i :: 0 <= i < |pairs| ==> UInt16(pairs[i].1) <= h
    case _ => true
  }

  predicate AllReach(ss: seq<Stmt>, h: int)
    decreases ss
  {
    ss != [] ==> Reaches(ss[0], h) && AllReach(ss[1..], h)
  }

  predicate HasDefault(fn: LexFunc) { exists c :: c in fn.cases && c.isDefault }

  /** A state the state table covers; without a default case an uncovered one does the same. */
  predicate Covered(fn: LexFunc, state: nat) { HasDefault(fn) ==> state <= Highest(fn.cases) }

  predicate OneCaseEach(cases: seq<Case>) {
    && (forall i, j, x :: 0 <= i < j < |cases| && x in cases[i].labels ==> !HasLabel(cases[j], x))
    && (forall i, j :: 0 <= i < j < |cases| && cases[i].isDefault ==> !cases[j].isDefault)
  }

  predicate StaysCovered(fn: LexFunc) {
    HasDefault(fn) ==>
      && AllReach(fn.prologue, Highest(fn.cases))
      && forall c :: c in fn.cases ==> AllReach(c.stmts, Highest(fn.cases))
  }

  predicate Admitted(fn: LexFunc, sets: nat) {
    && OneCaseEach(fn.cases) && EofSettled(fn) && StaysCovered(fn)
    && StmtsFit(fn.prologue, sets)
    && (forall c :: c in fn.cases ==> AllLeave(c.stmts) && StmtsFit(c.stmts, sets))
    && FuncDepth(fn) <= STACK_SLOTS
  }

  // ---------------------------------------------------------------- code in place

  predicate Has(code: seq<Instr>, pc: nat, seg: seq<Instr>) {
    pc + |seg| <= |code| && forall i :: 0 <= i < |seg| ==> code[pc + i] == seg[i]
  }

  lemma HasSplit(code: seq<Instr>, pc: nat, a: seq<Instr>, b: seq<Instr>)
    requires Has(code, pc, a + b)
    ensures Has(code, pc, a) && Has(code, pc + |a|, b)
  {
    assert forall i :: 0 <= i < |a| ==> a[i] == (a + b)[i];
    assert forall i :: 0 <= i < |b| ==> b[i] == (a + b)[|a| + i];
    forall i | 0 <= i < |b| ensures code[pc + |a| + i] == b[i] {
      assert code[pc + (|a| + i)] == (a + b)[|a| + i];
    }
  }

  predicate HasMaps(maps: seq<seq<int>>, k: nat, seg: seq<seq<int>>) {
    k + |seg| <= |maps| && maps[k..k + |seg|] == seg
  }

  lemma HasMapsSplit(maps: seq<seq<int>>, k: nat, a: seq<seq<int>>, b: seq<seq<int>>)
    requires HasMaps(maps, k, a + b)
    ensures HasMaps(maps, k, a) && HasMaps(maps, k + |a|, b)
  {
    assert maps[k..k + |a|] == maps[k..k + |a + b|][..|a|];
    assert maps[k + |a|..k + |a| + |b|] == maps[k..k + |a + b|][|a|..];
  }

  // ---------------------------------------------------------------- jumps

  /** Jumps stay ahead of themselves and inside their own segment (or land just after it). */
  predicate Jumps(seg: seq<Instr>, base: nat) {
    forall i :: 0 <= i < |seg| ==>
      && seg[i].op != Dispatch
      && (seg[i].op == JumpIfFalse ==> base + i < seg[i].arg <= base + |seg|)
  }

  lemma JumpsAppend(a: seq<Instr>, b: seq<Instr>, base: nat)
    requires Jumps(a, base) && Jumps(b, base + |a|)
    ensures Jumps(a + b, base)
  {
    forall i | 0 <= i < |a + b|
      ensures (a + b)[i].op != Dispatch
      ensures (a + b)[i].op == JumpIfFalse ==> base + i < (a + b)[i].arg <= base + |a + b|
    {
      if i >= |a| { assert (a + b)[i] == b[i - |a|]; }
    }
  }

  lemma {:induction false} CondJumps(e: Expr, base: nat)
    ensures forall i :: 0 <= i < |CondCode(e)| ==> OnStack(CondCode(e)[i].op)
    ensures Jumps(CondCode(e), base)
  {
    match e
    case Unary(_, x) => CondJumps(x, base);
    case Binary(_, l, r) =>
      CondJumps(l, base);
      CondJumps(r, base);
    case _ =>
  }

  lemma {:induction false} StmtJumps(s: Stmt, base: nat, k: nat)
    ensures Jumps(StmtCode(s, base, k), base)
    decreases s
  {
    if s.If? {
      if Bare(s.cond) {
        StmtsJumps(s.body, base, k);
      } else {
        var test := CondCode(s.cond);
        var start := base + |test| + 1;
        var code := StmtsCode(s.body, start, k);
        StmtsJumps(s.body, start, k);
        CondJumps(s.cond, base);
        var jump := Instr(JumpIfFalse, start + |code|);
        assert StmtCode(s, base, k) == test + [jump] + code;
        forall i | 0 <= i < |test + [jump] + code|
          ensures var ins := (test + [jump] + code)[i];
            ins.op != Dispatch && (ins.op == JumpIfFalse ==> base + i < ins.arg <= start + |code|)
        {
          if i > |test| { assert (test + [jump] + code)[i] == code[i - |test| - 1]; }
        }
      }
    }
  }

  lemma {:induction false} StmtsJumps(ss: seq<Stmt>, base: nat, k: nat)
    ensures Jumps(StmtsCode(ss, base, k), base)
    decreases ss
  {
    if ss != [] {
      var first := StmtCode(ss[0], base, k);
      StmtJumps(ss[0], base, k);
      StmtsJumps(ss[1..], base + |first|, k + |StmtMaps(ss[0])|);
      JumpsAppend(first, StmtsCode(ss[1..], base + |first|, k + |StmtMaps(ss[0])|), base);
    }
  }

  /** What laying cases out after b keeps of b, and adds to it. */
  predicate Grows(b: Layout, c: Layout) {
    && |b.code| <= |c.code| && c.code[..|b.code|] == b.code && Jumps(c.code[|b.code|..], |b.code|)
    && |b.maps| <= |c.maps| && c.maps[..|b.maps|] == b.maps
  }

  lemma GrowsOn(a: Layout, b: Layout, c: Layout)
    requires Grows(a, b) && Grows(b, c)
    ensures Grows(a, c)
  {
    var n := |a.code|;
    assert c.code[n..] == b.code[n..] + c.code[|b.code|..];
    JumpsAppend(b.code[n..], c.code[|b.code|..], n);
    assert c.code[..n] == c.code[..|b.code|][..n];
    assert c.maps[..|a.maps|] == c.maps[..|b.maps|][..|a.maps|];
  }

  lemma CaseGrows(b: Layout, c: Case)
    ensures Grows(b, AddCase(b, c))
  {
    hide StmtsCode, StmtsMaps;
    var seg := StmtsCode(c.stmts, |b.code|, |b.maps|);
    StmtsJumps(c.stmts, |b.code|, |b.maps|);
    var end := [Instr(OpEnd, 0)];
    JumpsAppend(seg, end, |b.code|);
    assert (b.code + seg)[|b.code|..] == seg && (b.code + seg + end)[|b.code|..] == seg + end;
  }

  lemma GrowsSelf(b: Layout)
    ensures Grows(b, b)
  {
  }

  lemma {:induction false} CasesJumps(b: Layout, cases: seq<Case>)
    ensures Grows(b, AddCases(b, cases))
  {
    hide Grows, AddCase;
    if cases != [] {
      var n := |cases| - 1;
      CasesJumps(b, cases[..n]);
      CaseGrows(AddCases(b, cases[..n]), cases[n]);
      GrowsOn(b, AddCases(b, cases[..n]), AddCases(b, cases));
    } else {
      GrowsSelf(b);
    }
  }

  lemma PrefixCases(b: Layout, cases: seq<Case>, n: nat)
    requires n <= |cases|
    ensures AddCases(b, cases) == AddCases(AddCases(b, cases[..n]), cases[n..])
  {
    hide AddCase;
    if n == |cases| {
      assert cases[..n] == cases && cases[n..] == [];
    } else {
      var m := |cases| - 1;
      PrefixCases(b, cases[..m], n);
      assert cases[..m][..n] == cases[..n] && cases[..m][n..] == cases[n..][..m - n];
      assert cases[n..][m - n] == cases[m];
    }
  }

  /** Every jump of a built program goes forward, and so does every case entry. */
  lemma CompiledForward(fn: LexFunc)
    ensures Forward(Compiled(fn))
  {
    hide StmtsCode, StmtsMaps, AddCases, Target, Highest;
    var h, p := Head(fn), Compiled(fn);
    StmtsJumps(fn.prologue, 0, 0);
    CasesJumps(h, fn.cases);
    forall k | 0 <= k < |p.states| ensures p.states[k] < 0 || |h.code| <= p.states[k] {
      TargetAhead(fn, k);
    }
    forall i | 0 <= i < |p.code|
      ensures p.code[i].op == JumpIfFalse ==> i < p.code[i].arg
      ensures p.code[i].op == Dispatch ==> i < |h.code|
    {
      if i < |h.code| {
        assert p.code[i] == p.code[..|h.code|][i];
      } else {
        assert p.code[i] == p.code[|h.code|..][i - |h.code|];
      }
    }
  }

  lemma TargetAhead(fn: LexFunc, state: nat)
    ensures Target(fn, state) == -1 || |Head(fn).code| <= Target(fn, state)
  {
    var k := LastLabelled(fn.cases, |fn.cases|, state);
    var d := LastDefault(fn.cases, |fn.cases|);
    if k >= 0 {
      CasesJumps(Head(fn), fn.cases[..k]);
    } else if d >= 0 {
      CasesJumps(Head(fn), fn.cases[..d]);
    }
  }

  // ---------------------------------------------------------------- conditions

  /** Where a pass goes on after an outcome. */
  function After<L>(p: Program, d: Device<L>, o: Outcome<L>, pc: int, state: nat): Outcome<L>
    requires Forward(p)
  {
    match o case Fall(m) => Walk(p, d, pc, [], state, m) case other => other
  }

  lemma CombineIs(op: BinaryOp, l: int, r: int)
    ensures Combine(OpNumber(op), l, r) == ApplyBinary(op, l, r)
  {
    hide ApplyBinary;
  }

  /** Postfix code pushes the value of its condition, within the depth the builder counted, and
      panics where strict evaluation does. */
  lemma {:induction false} CondRuns<L>(p: Program, d: Device<L>, e: Expr, pc: nat, stack: seq<int>, state: nat, m: Locals<L>)
    requires Forward(p) && Has(p.code, pc, CondCode(e))
    requires |stack| + Depth(e) <= STACK_SLOTS && CondFits(e, d.sets)
    ensures Walk(p, d, pc, stack, state, m)
         == match EvalStrict(d, e, m)
            case None => Panic
            case Some(v) => Walk(p, d, pc + |CondCode(e)|, stack + [v], state, m)
    decreases e
  {
    hide Combine, ApplyBinary, ApplyUnary, Walk, Forward;
    match e
    case Unary(op, x) =>
      HasSplit(p.code, pc, CondCode(x), [Instr(UnaryCode(op), 0)]);
      CondRuns(p, d, x, pc, stack, state, m);
      var v := EvalStrict(d, x, m);
      if v.Some? {
        UnaryStep(p, d, op, pc + |CondCode(x)|, stack, v.value, state, m);
      }
    case Binary(op, l, r) =>
      var tail := [Instr(OpBinary, OpNumber(op))];
      HasSplit(p.code, pc, CondCode(l) + CondCode(r), tail);
      HasSplit(p.code, pc, CondCode(l), CondCode(r));
      CondRuns(p, d, l, pc, stack, state, m);
      var a := EvalStrict(d, l, m);
      if a.Some? {
        CondRuns(p, d, r, pc + |CondCode(l)|, stack + [a.value], state, m);
        var b := EvalStrict(d, r, m);
        if b.Some? {
          BinaryStep(p, d, op, pc + |CondCode(l)| + |CondCode(r)|, stack, a.value, b.value, state, m);
        }
      }
    case _ => LeafRuns(p, d, e, pc, stack, state, m);
  }

  lemma LeafRuns<L>(p: Program, d: Device<L>, e: Expr, pc: nat, stack: seq<int>, state: nat, m: Locals<L>)
    requires !e.Unary? && !e.Binary?
    requires Forward(p) && Has(p.code, pc, CondCode(e)) && |stack| < STACK_SLOTS && CondFits(e, d.sets)
    ensures Walk(p, d, pc, stack, state, m) == Walk(p, d, pc + 1, stack + [EvalStrict(d, e, m).value], state, m)
  {
    assert p.code[pc] == CondCode(e)[0];
    if e.Lit? { Int32Keeps(e.v); }
  }

  lemma UnaryStep<L>(p: Program, d: Device<L>, op: UnaryOp, pc: nat, stack: seq<int>, v: int, state: nat, m: Locals<L>)
    requires Forward(p) && Has(p.code, pc, [Instr(UnaryCode(op), 0)])
    ensures Walk(p, d, pc, stack + [v], state, m) == Walk(p, d, pc + 1, stack + [ApplyUnary(op, v)], state, m)
  {
    assert p.code[pc] == [Instr(UnaryCode(op), 0)][0];
    assert (stack + [v])[..|stack|] == stack;
  }

  lemma BinaryStep<L>(p: Program, d: Device<L>, op: BinaryOp, pc: nat, stack: seq<int>, a: int, b: int, state: nat,
                      m: Locals<L>)
    requires Forward(p) && Has(p.code, pc, [Instr(OpBinary, OpNumber(op))])
    ensures Walk(p, d, pc, stack + [a] + [b], state, m)
         == match ApplyBinary(op, a, b)
            case None => Panic
            case Some(v) => Walk(p, d, pc + 1, stack + [v], state, m)
  {
    hide Combine, ApplyBinary;
    assert p.code[pc] == [Instr(OpBinary, OpNumber(op))][0];
    CombineIs(op, a, b);
    var full := stack + [a] + [b];
    assert full[..|full| - 2] == stack;
  }

  // ---------------------------------------------------------------- statements

  lemma Int32Keeps(x: int)
    ensures UInt16(Int32(x)) == UInt16(x)
    ensures FitsInt32(x) ==> Int32(x) == x
  {
    var q := (x + TWO_31) / TWO_32;
    assert Int32(x) == x - q * TWO_32;
    assert x - q * TWO_32 == x + (-q * 0x1_0000) * 0x1_0000;
  }

  /** The flat map answers the first pair with the lookahead's key. */
  lemma {:induction false} FlatMatches(pairs: seq<(int, int)>, pre: seq<int>, lookahead: int)
    requires forall i :: 0 <= i < |pairs| ==> FitsInt32(pairs[i].0)
    ensures Looked(pre + Flat(pairs), |pre|, lookahead)
         == match Match(pairs, lookahead) case None => Some(None) case Some(t) => Some(Some(Int32(t)))
    decreases |pairs|
  {
    if pairs != [] {
      Int32Keeps(pairs[0].0);
      var head := [Int32(pairs[0].0), Int32(pairs[0].1)];
      assert pre + Flat(pairs) == (pre + head) + Flat(pairs[1..]);
      FlatMatches(pairs[1..], pre + head, lookahead);
    } else {
      assert pre + Flat(pairs) == pre;
    }
  }

  lemma MapRuns<L>(p: Program, d: Device<L>, pairs: seq<(int, int)>, pc: nat, k: nat, state: nat, m: Locals<L>)
    requires Forward(p) && Has(p.code, pc, [Instr(OpAdvanceMap, k)]) && HasMaps(p.maps, k, [Flat(pairs)])
    requires forall i :: 0 <= i < |pairs| ==> FitsInt32(pairs[i].0)
    ensures Walk(p, d, pc, [], state, m) == After(p, d, Exec(Strict, d, AdvanceMap(pairs), m), pc + 1, state)
  {
    assert p.code[pc] == [Instr(OpAdvanceMap, k)][0];
    assert p.maps[k] == p.maps[k..k + 1][0];
    FlatMatches(pairs, [], m.lookahead);
    assert [] + Flat(pairs) == Flat(pairs);
    var t := Match(pairs, m.lookahead);
    if t.Some? { Int32Keeps(t.value); }
  }

  /** A statement's code does what the statement does: it falls through to the code after it with
      an empty operand stack, or leaves with the same outcome. */
  lemma {:induction false} StmtRuns<L>(p: Program, d: Device<L>, s: Stmt, pc: nat, k: nat, state: nat, m: Locals<L>)
    requires Forward(p) && Has(p.code, pc, StmtCode(s, pc, k)) && HasMaps(p.maps, k, StmtMaps(s))
    requires StmtDepth(s) <= STACK_SLOTS && StmtFits(s, d.sets)
    ensures Walk(p, d, pc, [], state, m) == After(p, d, Exec(Strict, d, s, m), pc + |StmtCode(s, pc, k)|, state)
    decreases s
  {
    hide Walk, Forward, ExecAll, EvalStrict, CondCode, Depth;
    match s
    case If(c, body) =>
      if Bare(c) {
        BareIf(Strict, d, body, m);
        StmtsRun(p, d, body, pc, k, state, m);
      } else {
        var start := pc + |CondCode(c)| + 1;
        var code := StmtsCode(body, start, k);
        var jump := Instr(JumpIfFalse, start + |code|);
        HasSplit(p.code, pc, CondCode(c) + [jump], code);
        HasSplit(p.code, pc, CondCode(c), [jump]);
        CondRuns(p, d, c, pc, [], state, m);
        var v := EvalStrict(d, c, m);
        if v.Some? {
          JumpStep(p, d, jump, start - 1, v.value, state, m);
          if v.value != 0 {
            StmtsRun(p, d, body, start, k, state, m);
          }
        }
      }
    case AdvanceMap(pairs) => MapRuns(p, d, pairs, pc, k, state, m);
    case _ => PlainRuns(p, d, s, pc, k, state, m);
  }

  lemma BareIf<L>(how: Evaluation, d: Device<L>, body: seq<Stmt>, m: Locals<L>)
    ensures Exec(how, d, If(Lit(1), body), m) == ExecAll(how, d, body, m)
  {
  }

  lemma PlainRuns<L>(p: Program, d: Device<L>, s: Stmt, pc: nat, k: nat, state: nat, m: Locals<L>)
    requires !s.If? && !s.AdvanceMap?
    requires Forward(p) && Has(p.code, pc, StmtCode(s, pc, k))
    ensures Walk(p, d, pc, [], state, m) == After(p, d, Exec(Strict, d, s, m), pc + 1, state)
  {
    assert p.code[pc] == StmtCode(s, pc, k)[0];
    match s
    case Advance(target, _) => Int32Keeps(target);
    case Accept(symbol) => Int32Keeps(symbol);
    case _ =>
  }

  lemma JumpStep<L>(p: Program, d: Device<L>, jump: Instr, pc: nat, v: int, state: nat, m: Locals<L>)
    requires Forward(p) && Has(p.code, pc, [jump]) && jump.op == JumpIfFalse
    ensures Walk(p, d, pc, [] + [v], state, m) == Walk(p, d, if v == 0 then jump.arg else pc + 1, [], state, m)
  {
    assert p.code[pc] == [jump][0];
    assert [v][..0] == [];
    assert [] + [v] == [v];
  }

  lemma {:induction false} StmtsRun<L>(p: Program, d: Device<L>, ss: seq<Stmt>, pc: nat, k: nat, state: nat, m: Locals<L>)
    requires Forward(p) && Has(p.code, pc, StmtsCode(ss, pc, k)) && HasMaps(p.maps, k, StmtsMaps(ss))
    requires StmtsDepth(ss) <= STACK_SLOTS && StmtsFit(ss, d.sets)
    ensures Walk(p, d, pc, [], state, m) == After(p, d, ExecAll(Strict, d, ss, m), pc + |StmtsCode(ss, pc, k)|, state)
    decreases ss
  {
    hide StmtCode, StmtMaps, StmtDepth, StmtFits, Exec, Walk;
    if ss != [] {
      var first := StmtCode(ss[0], pc, k);
      var k' := k + |StmtMaps(ss[0])|;
      HasSplit(p.code, pc, first, StmtsCode(ss[1..], pc + |first|, k'));
      HasMapsSplit(p.maps, k, StmtMaps(ss[0]), StmtsMaps(ss[1..]));
      StmtRuns(p, d, ss[0], pc, k, state, m);
      var o := Exec(Strict, d, ss[0], m);
      if o.Fall? {
        StmtsRun(p, d, ss[1..], pc + |first|, k', state, o.locals);
      }
    }
  }

  // ---------------------------------------------------------------- one pass

  lemma {:induction false} NeverFallsPast<L>(how: Evaluation, d: Device<L>, ss: seq<Stmt>, m: Locals<L>)
    requires AllLeave(ss)
    ensures !ExecAll(how, d, ss, m).Fall?
    decreases ss
  {
    if Leaves(ss[0]) {
      if ss[0].If? {
        BareIf(how, d, ss[0].body, m);
        NeverFallsPast(how, d, ss[0].body, m);
      }
    } else {
      var o := Exec(how, d, ss[0], m);
      if o.Fall? { NeverFallsPast(how, d, ss[1..], o.locals); }
    }
  }

  lemma {:induction false} ExecAppend<L>(how: Evaluation, d: Device<L>, a: seq<Stmt>, b: seq<Stmt>, m: Locals<L>)
    ensures ExecAll(how, d, a + b, m) == match ExecAll(how, d, a, m) case Fall(m') => ExecAll(how, d, b, m') case other => other
    decreases a
  {
    hide Exec;
    if a == [] {
      assert a + b == b;
    } else {
      assert (a + b)[1..] == a[1..] + b && (a + b)[0] == a[0];
      var o := Exec(how, d, a[0], m);
      if o.Fall? { ExecAppend(how, d, a[1..], b, o.locals); }
    }
  }

  function MapsBefore(fn: LexFunc, k: nat): nat
    requires k <= |fn.cases|
  {
    |AddCases(Head(fn), fn.cases[..k]).maps|
  }

  lemma CasePlaced(fn: LexFunc, k: nat)
    requires k < |fn.cases|
    ensures Has(Compiled(fn).code, EntryOf(fn, k), StmtsCode(fn.cases[k].stmts, EntryOf(fn, k), MapsBefore(fn, k)))
    ensures HasMaps(Compiled(fn).maps, MapsBefore(fn, k), StmtsMaps(fn.cases[k].stmts))
  {
    hide StmtsCode, StmtsMaps, Head, States, EndsRun, Jumps;
    var c := fn.cases[k];
    var before := AddCases(Head(fn), fn.cases[..k]);
    var mid := AddCase(before, c);
    var seg := StmtsCode(c.stmts, |before.code|, |before.maps|);
    assert fn.cases[..k + 1][..k] == fn.cases[..k] && fn.cases[..k + 1][k] == c;
    assert AddCases(Head(fn), fn.cases[..k + 1]) == mid;
    PrefixCases(Head(fn), fn.cases, k + 1);
    CasesJumps(mid, fn.cases[k + 1..]);
    var p := Compiled(fn);
    assert p.code[..|mid.code|] == mid.code && p.maps[..|mid.maps|] == mid.maps;
    forall i | 0 <= i < |seg| ensures p.code[|before.code| + i] == seg[i] {
      assert (before.code + seg)[|before.code| + i] == seg[i];
      assert p.code[|before.code| + i] == mid.code[|before.code| + i];
    }
    assert p.maps[|before.maps|..|mid.maps|] == mid.maps[|before.maps|..];
  }

  lemma ProloguePlaced(fn: LexFunc)
    ensures Has(Compiled(fn).code, 0, StmtsCode(fn.prologue, 0, 0))
    ensures HasMaps(Compiled(fn).maps, 0, StmtsMaps(fn.prologue))
    ensures Has(Compiled(fn).code, |StmtsCode(fn.prologue, 0, 0)|, [Instr(Dispatch, 0)])
  {
    hide StmtsCode, StmtsMaps, States, Jumps;
    CasesJumps(Head(fn), fn.cases);
    var p, h := Compiled(fn), Head(fn);
    var pre := StmtsCode(fn.prologue, 0, 0);
    forall i | 0 <= i < |h.code| ensures p.code[i] == h.code[i] {
      assert p.code[i] == p.code[..|h.code|][i];
    }
    assert p.maps[0..0 + |h.maps|] == p.maps[..|h.maps|];
    HasSplit(p.code, 0, pre, [Instr(Dispatch, 0)]);
  }

  /** The switch and the state table pick the same case. */
  lemma SameCase(fn: LexFunc, state: nat)
    requires OneCaseEach(fn.cases) && Covered(fn, state)
    ensures var k := Selected(fn.cases, state);
      var target := if state < |States(fn)| then States(fn)[state] else -1;
      k <= |fn.cases| && target == if k < |fn.cases| then EntryOf(fn, k) else -1
  {
    hide EntryOf, Highest;
    var n := |fn.cases|;
    var first, last := Labelled(fn.cases, state), LastLabelled(fn.cases, n, state);
    var firstDefault, lastDefault := Default(fn.cases), LastDefault(fn.cases, n);
    if first < n {
      assert HasLabel(fn.cases[first], state) && fn.cases[first] in fn.cases;
      assert last == first;
      LabelBelow(fn.cases, fn.cases[first], state);
    } else {
      assert last == -1;
      if firstDefault < n {
        assert fn.cases[firstDefault] in fn.cases;
        assert lastDefault == firstDefault;
      }
    }
  }

  lemma LabelBelow(cases: seq<Case>, c: Case, x: nat)
    requires c in cases && HasLabel(c, x)
    ensures x <= Highest(cases)
  {
    assert x in c.labels;
  }

  lemma CaseDepths(cases: seq<Case>, k: nat)
    requires k < |cases|
    ensures StmtsDepth(cases[k].stmts) <= CasesDepth(cases)
  {
    hide StmtsDepth;
    if k < |cases| - 1 { CaseDepths(cases[..|cases| - 1], k); }
  }

  /** One pass of the built program is one pass of the function. */
  lemma PassRuns<L>(fn: LexFunc, d: Device<L>, state: nat, m: Locals<L>)
    requires Admitted(fn, d.sets) && Covered(fn, state)
    requires Forward(Compiled(fn))
    ensures Walk(Compiled(fn), d, 0, [], state, m) == Pass(Strict, d, fn, state, m)
  {
    hide Forward, Walk, ExecAll, Compiled, Has, HasMaps, EntryOf, MapsBefore, Selected, States, StmtsFit, StmtsDepth,
      CasesDepth, OneCaseEach, Covered, EofSettled, StaysCovered, AllLeave, Highest;
    var p := Compiled(fn);
    ProloguePlaced(fn);
    StmtsRun(p, d, fn.prologue, 0, 0, state, m);
    var o := ExecAll(Strict, d, fn.prologue, m);
    if o.Fall? {
      var at := |StmtsCode(fn.prologue, 0, 0)|;
      DispatchStep(fn, d, at, state, o.locals);
      SameCase(fn, state);
      var k := Selected(fn.cases, state);
      if k < |fn.cases| {
        var c := fn.cases[k];
        assert c in fn.cases;
        CasePlaced(fn, k);
        CaseDepths(fn.cases, k);
        StmtsRun(p, d, c.stmts, EntryOf(fn, k), MapsBefore(fn, k), state, o.locals);
        NeverFallsPast(Strict, d, c.stmts, o.locals);
        ExecAppend(Strict, d, c.stmts, Body(fn.cases, k + 1), o.locals);
      } else {
        NothingRuns(Strict, d, o.locals);
      }
    }
  }

  lemma NothingRuns<L>(how: Evaluation, d: Device<L>, m: Locals<L>)
    ensures ExecAll(how, d, [], m) == Fall(m)
  {
  }

  lemma DispatchStep<L>(fn: LexFunc, d: Device<L>, at: nat, state: nat, m: Locals<L>)
    requires Forward(Compiled(fn)) && Has(Compiled(fn).code, at, [Instr(Dispatch, 0)])
    ensures var target := if state < |States(fn)| then States(fn)[state] else -1;
      Walk(Compiled(fn), d, at, [], state, m)
      == if target < 0 then Done(m.result, m.lexer) else Walk(Compiled(fn), d, target, [], state, m)
  {
    hide AddCases, States, Forward;
    assert Compiled(fn).code[at] == [Instr(Dispatch, 0)][0];
  }

  // ---------------------------------------------------------------- eof between passes

  function WithEof<L>(o: Outcome<L>, e: bool): Outcome<L> {
    match o
    case Fall(m) => Fall(m.(eof := e))
    case Goto(next, skip, m) => Goto(next, skip, m.(eof := e))
    case _ => o
  }

  lemma {:induction false} EvalEof<L>(how: Evaluation, d: Device<L>, c: Expr, m: Locals<L>, e: bool)
    requires !CondMentionsEof(c)
    ensures Value(how, d, c, m.(eof := e)) == Value(how, d, c, m)
  {
    hide ApplyBinary, ApplyUnary;
    match c
    case Unary(_, x) => EvalEof(how, d, x, m, e);
    case Binary(_, l, r) =>
      EvalEof(how, d, l, m, e);
      EvalEof(how, d, r, m, e);
    case _ =>
  }

  lemma {:induction false} ExecEof<L>(how: Evaluation, d: Device<L>, s: Stmt, m: Locals<L>, e: bool)
    requires !MentionsEof(s)
    ensures Exec(how, d, s, m.(eof := e)) == WithEof(Exec(how, d, s, m), e)
    decreases s
  {
    if s.If? {
      hide ExecAll, Value;
      EvalEof(how, d, s.cond, m, e);
      ExecAllEof(how, d, s.body, m, e);
    }
  }

  lemma {:induction false} ExecAllEof<L>(how: Evaluation, d: Device<L>, ss: seq<Stmt>, m: Locals<L>, e: bool)
    requires !AnyMentionsEof(ss)
    ensures ExecAll(how, d, ss, m.(eof := e)) == WithEof(ExecAll(how, d, ss, m), e)
    decreases ss
  {
    hide Exec;
    if ss != [] {
      ExecEof(how, d, ss[0], m, e);
      var o := Exec(how, d, ss[0], m);
      if o.Fall? { ExecAllEof(how, d, ss[1..], o.locals, e); }
    }
  }

  lemma {:induction false} BodyEof(cases: seq<Case>, k: nat)
    requires forall c :: c in cases ==> !AnyMentionsEof(c.stmts)
    ensures !AnyMentionsEof(Body(cases, k))
    decreases |cases| - k
  {
    if k < |cases| {
      assert cases[k] in cases;
      BodyEof(cases, k + 1);
      EofAppend(cases[k].stmts, Body(cases, k + 1));
    }
  }

  lemma {:induction false} EofAppend(a: seq<Stmt>, b: seq<Stmt>)
    requires !AnyMentionsEof(a) && !AnyMentionsEof(b)
    ensures !AnyMentionsEof(a + b)
    decreases a
  {
    hide MentionsEof;
    if a == [] {
      assert a + b == b;
    } else {
      assert (a + b)[1..] == a[1..] + b && (a + b)[0] == a[0];
      EofAppend(a[1..], b);
    }
  }

  /** A pass never depends on the eof flag the last pass left behind. */
  lemma PassIgnoresEof<L>(how: Evaluation, d: Device<L>, fn: LexFunc, state: nat, m: Locals<L>, e: bool)
    requires EofSettled(fn)
    ensures WithEof(Pass(how, d, fn, state, m.(eof := e)), true) == WithEof(Pass(how, d, fn, state, m), true)
  {
    hide Selected;
    var pre := fn.prologue;
    if pre != [] && pre[0] == EofAssign {
      assert Exec(how, d, pre[0], m.(eof := e)) == Exec(how, d, pre[0], m);
      assert ExecAll(how, d, pre, m.(eof := e)) == ExecAll(how, d, pre, m);
    } else {
      hide ExecAll;
      ExecAllEof(how, d, pre, m, e);
      var o := ExecAll(how, d, pre, m);
      if o.Fall? {
        var k := Selected(fn.cases, state);
        BodyEof(fn.cases, k);
        ExecAllEof(how, d, Body(fn.cases, k), o.locals, e);
      }
    }
  }

  // ---------------------------------------------------------------- states stay covered

  lemma {:induction false} GoesBelow<L>(how: Evaluation, d: Device<L>, s: Stmt, m: Locals<L>, h: int)
    requires Reaches(s, h)
    ensures Exec(how, d, s, m).Goto? ==> Exec(how, d, s, m).next <= h
    decreases s
  {
    match s
    case If(c, body) =>
      hide ExecAll, Value;
      AllGoBelow(how, d, body, m, h);
    case AdvanceMap(pairs) => MatchFrom(pairs, m.lookahead);
    case _ =>
  }

  lemma {:induction false} MatchFrom(pairs: seq<(int, int)>, lookahead: int)
    ensures Match(pairs, lookahead).Some? ==> exists i :: 0 <= i < |pairs| && pairs[i].1 == Match(pairs, lookahead).value
  {
    if pairs != [] && pairs[0].0 != lookahead {
      MatchFrom(pairs[1..], lookahead);
      if Match(pairs[1..], lookahead).Some? {
        var i :| 0 <= i < |pairs[1..]| && pairs[1..][i].1 == Match(pairs, lookahead).value;
        assert pairs[i + 1].1 == Match(pairs, lookahead).value;
      }
    }
  }

  lemma {:induction false} AllGoBelow<L>(how: Evaluation, d: Device<L>, ss: seq<Stmt>, m: Locals<L>, h: int)
    requires AllReach(ss, h)
    ensures ExecAll(how, d, ss, m).Goto? ==> ExecAll(how, d, ss, m).next <= h
    decreases ss
  {
    hide Exec, Reaches;
    if ss != [] {
      GoesBelow(how, d, ss[0], m, h);
      var o := Exec(how, d, ss[0], m);
      if o.Fall? { AllGoBelow(how, d, ss[1..], o.locals, h); }
    }
  }

  lemma {:induction false} BodyReaches(cases: seq<Case>, k: nat, h: int)
    requires forall c :: c in cases ==> AllReach(c.stmts, h)
    ensures AllReach(Body(cases, k), h)
    decreases |cases| - k
  {
    if k < |cases| {
      assert cases[k] in cases;
      BodyReaches(cases, k + 1, h);
      ReachAppend(cases[k].stmts, Body(cases, k + 1), h);
    }
  }

  lemma {:induction false} ReachAppend(a: seq<Stmt>, b: seq<Stmt>, h: int)
    requires AllReach(a, h) && AllReach(b, h)
    ensures AllReach(a + b, h)
    decreases a
  {
    hide Reaches;
    if a == [] {
      assert a + b == b;
    } else {
      assert (a + b)[1..] == a[1..] + b && (a + b)[0] == a[0];
      ReachAppend(a[1..], b, h);
    }
  }

  lemma PassStaysCovered<L>(how: Evaluation, d: Device<L>, fn: LexFunc, state: nat, m: Locals<L>)
    requires StaysCovered(fn)
    ensures var o := Pass(how, d, fn, state, m); o.Goto? ==> Covered(fn, o.next)
  {
    hide Selected, ExecAll, Highest, HasDefault;
    if HasDefault(fn) {
      var h := Highest(fn.cases);
      AllGoBelow(how, d, fn.prologue, m, h);
      var o := ExecAll(how, d, fn.prologue, m);
      if o.Fall? {
        var k := Selected(fn.cases, state);
        BodyReaches(fn.cases, k, h);
        AllGoBelow(how, d, Body(fn.cases, k), o.locals, h);
      }
    }
  }

  // ---------------------------------------------------------------- whole runs, as the machine evaluates

  /** The built program and the lex function evaluated strictly answer alike from every start, for any
      number of passes. */
  lemma {:induction false} MachineMeans<L>(fn: LexFunc, d: Device<L>, fuel: nat, state: nat, lexer: L, result: bool,
                                           eof: bool)
    requires Admitted(fn, d.sets) && Covered(fn, state)
    ensures Forward(Compiled(fn))
    ensures RunFrom(Compiled(fn), d, fuel, state, lexer, result) == Interpret(Strict, d, fn, fuel, state, lexer, result, eof)
    decreases fuel
  {
    hide Compiled, Forward, Walk, Pass, Covered, EofSettled, StaysCovered, Highest, OneCaseEach;
    CompiledForward(fn);
    if fuel > 0 {
      var m := Enter(d, lexer, result, false);
      PassRuns(fn, d, state, m);
      PassIgnoresEof(Strict, d, fn, state, m, eof);
      PassStaysCovered(Strict, d, fn, state, Enter(d, lexer, result, eof));
      assert m.(eof := eof) == Enter(d, lexer, result, eof);
      var o := Pass(Strict, d, fn, state, Enter(d, lexer, result, eof));
      if o.Goto? {
        MachineMeans(fn, d, fuel - 1, o.next, d.advance(o.at.lexer, o.skip), o.at.result, o.at.eof);
      }
    }
  }

  // ---------------------------------------------------------------- where the machine divides and C does not

  /** Some condition C comes to on its way through the statement trips the machine. */
  predicate ExecTrips<L>(d: Device<L>, s: Stmt, m: Locals<L>)
    decreases s
  {
    match s
    case If(c, body) => Trips(d, c, m) || (Eval(d, c, m).Some? && Eval(d, c, m).value != 0 && AllTrip(d, body, m))
    case _ => false
  }

  predicate AllTrip<L>(d: Device<L>, ss: seq<Stmt>, m: Locals<L>)
    decreases ss
  {
    ss != [] && (ExecTrips(d, ss[0], m) ||
      match Exec(Lazy, d, ss[0], m) case Fall(m') => AllTrip(d, ss[1..], m') case _ => false)
  }

  predicate PassTrips<L>(d: Device<L>, fn: LexFunc, state: nat, m: Locals<L>) {
    AllTrip(d, fn.prologue, m) ||
    match ExecAll(Lazy, d, fn.prologue, m)
    case Fall(m') => AllTrip(d, Body(fn.cases, Selected(fn.cases, state)), m')
    case _ => false
  }

  /** Some condition C comes to within that many passes trips the machine. */
  predicate RunTrips<L>(d: Device<L>, fn: LexFunc, fuel: nat, state: nat, lexer: L, result: bool, eof: bool)
    decreases fuel
  {
    fuel > 0 && (
      PassTrips(d, fn, state, Enter(d, lexer, result, eof)) ||
      match Pass(Lazy, d, fn, state, Enter(d, lexer, result, eof))
      case Goto(next, skip, m) => RunTrips(d, fn, fuel - 1, next, d.advance(m.lexer, skip), m.result, m.eof)
      case _ => false)
  }

  lemma {:induction false} ExecStrictly<L>(d: Device<L>, s: Stmt, m: Locals<L>)
    ensures Exec(Strict, d, s, m) == if ExecTrips(d, s, m) then Panic else Exec(Lazy, d, s, m)
    decreases s
  {
    if s.If? {
      hide ExecAll, Eval, EvalStrict, DividesByZero, ReachesZeroDivisor, AllTrip;
      StrictExactly(d, s.cond, m);
      ExecAllStrictly(d, s.body, m);
    }
  }

  lemma {:induction false} ExecAllStrictly<L>(d: Device<L>, ss: seq<Stmt>, m: Locals<L>)
    ensures ExecAll(Strict, d, ss, m) == if AllTrip(d, ss, m) then Panic else ExecAll(Lazy, d, ss, m)
    decreases ss
  {
    hide Exec, ExecTrips;
    if ss != [] {
      ExecStrictly(d, ss[0], m);
      var o := Exec(Lazy, d, ss[0], m);
      if o.Fall? { ExecAllStrictly(d, ss[1..], o.locals); }
    }
  }

  lemma PassStrictly<L>(d: Device<L>, fn: LexFunc, state: nat, m: Locals<L>)
    ensures Pass(Strict, d, fn, state, m) == if PassTrips(d, fn, state, m) then Panic else Pass(Lazy, d, fn, state, m)
  {
    hide ExecAll, AllTrip, Selected;
    ExecAllStrictly(d, fn.prologue, m);
    var o := ExecAll(Lazy, d, fn.prologue, m);
    if o.Fall? { ExecAllStrictly(d, Body(fn.cases, Selected(fn.cases, state)), o.locals); }
  }

  lemma {:induction false} RunStrictly<L>(d: Device<L>, fn: LexFunc, fuel: nat, state: nat, lexer: L, result: bool, eof: bool)
    ensures Interpret(Strict, d, fn, fuel, state, lexer, result, eof)
         == if RunTrips(d, fn, fuel, state, lexer, result, eof) then Crashed
            else Interpret(Lazy, d, fn, fuel, state, lexer, result, eof)
    decreases fuel
  {
    hide Pass, PassTrips;
    if fuel > 0 {
      var m := Enter(d, lexer, result, eof);
      PassStrictly(d, fn, state, m);
      var o := Pass(Lazy, d, fn, state, m);
      if o.Goto? {
        RunStrictly(d, fn, fuel - 1, o.next, d.advance(o.at.lexer, o.skip), o.at.result, o.at.eof);
      }
    }
  }

  /** The built program and the lex function it came from, from every start and for any number of passes.
      The program crashes when a condition on the way trips it; otherwise it gives C's result and C's
      lexer, so the same symbol, mark and position.  Hence they agree exactly when nothing on the way trips
      the machine or C goes on to crash too. */
  lemma CompiledMeans<L>(fn: LexFunc, d: Device<L>, fuel: nat, state: nat, lexer: L, result: bool, eof: bool)
    requires Admitted(fn, d.sets) && Covered(fn, state)
    ensures Forward(Compiled(fn))
    ensures var run := RunFrom(Compiled(fn), d, fuel, state, lexer, result);
      var meant := Interpret(Lazy, d, fn, fuel, state, lexer, result, eof);
      && (if RunTrips(d, fn, fuel, state, lexer, result, eof) then run == Crashed else run == meant)
      && (run == meant <==> (RunTrips(d, fn, fuel, state, lexer, result, eof) ==> meant == Crashed))
  {
    hide Compiled, Forward, RunFrom, Interpret, Covered, Admitted, RunTrips;
    MachineMeans(fn, d, fuel, state, lexer, result, eof);
    RunStrictly(d, fn, fuel, state, lexer, result, eof);
  }

  /** Building and running: the generator and the run time together. */
  method BuildAndRun<L>(fn: LexFunc, d: Device<L>, fuel: nat, state: nat, lexer: L) returns (v: Verdict<L>)
    requires Admitted(fn, d.sets) && Covered(fn, state)
    ensures v == if RunTrips(d, fn, fuel, state, lexer, false, false) then Crashed
                 else Interpret(Lazy, d, fn, fuel, state, lexer, false, false)
  {
    hide Compiled, Forward, RunFrom, Interpret, Covered, EofSettled, StaysCovered, OneCaseEach, RunTrips;
    var p := BuildLexProgram(fn);
    CompiledMeans(fn, d, fuel, state, lexer, false, false);
    v := Run(p.value, d, fuel, state, lexer);
  }

  // ---------------------------------------------------------------- no panic

  /** Every divisor is a literal other than zero, as a caller can read off the condition. */
  predicate SafeDivisions(e: Expr) {
    match e
    case Unary(_, x) => SafeDivisions(x)
    case Binary(op, l, r) =>
      SafeDivisions(l) && SafeDivisions(r) && (op == Div || op == Mod ==> r.Lit? && r.v != 0)
    case _ => true
  }

  predicate StmtSafe(s: Stmt)
    decreases s
  {
    s.If? ==> SafeDivisions(s.cond) && StmtsSafe(s.body)
  }

  predicate StmtsSafe(ss: seq<Stmt>)
    decreases ss
  {
    ss != [] ==> StmtSafe(ss[0]) && StmtsSafe(ss[1..])
  }

  predicate Safe(fn: LexFunc) { StmtsSafe(fn.prologue) && forall c :: c in fn.cases ==> StmtsSafe(c.stmts) }

  lemma {:induction false} NoZeroDivisor<L>(d: Device<L>, e: Expr, m: Locals<L>)
    requires SafeDivisions(e)
    ensures !DividesByZero(d, e, m)
  {
    match e
    case Unary(_, x) => NoZeroDivisor(d, x, m);
    case Binary(op, l, r) =>
      NoZeroDivisor(d, l, m);
      NoZeroDivisor(d, r, m);
    case _ =>
  }

  lemma {:induction false} StmtNeverPanics<L>(d: Device<L>, s: Stmt, m: Locals<L>)
    requires StmtSafe(s)
    ensures Exec(Strict, d, s, m) != Panic
    decreases s
  {
    if s.If? {
      hide ExecAll, EvalStrict;
      StrictExactly(d, s.cond, m);
      NoZeroDivisor(d, s.cond, m);
      StmtsNeverPanic(d, s.body, m);
    }
  }

  lemma {:induction false} StmtsNeverPanic<L>(d: Device<L>, ss: seq<Stmt>, m: Locals<L>)
    requires StmtsSafe(ss)
    ensures ExecAll(Strict, d, ss, m) != Panic
    decreases ss
  {
    hide Exec, StmtSafe;
    if ss != [] {
      StmtNeverPanics(d, ss[0], m);
      var o := Exec(Strict, d, ss[0], m);
      if o.Fall? { StmtsNeverPanic(d, ss[1..], o.locals); }
    }
  }

  lemma {:induction false} BodySafe(cases: seq<Case>, k: nat)
    requires forall c :: c in cases ==> StmtsSafe(c.stmts)
    ensures StmtsSafe(Body(cases, k))
    decreases |cases| - k
  {
    if k < |cases| {
      assert cases[k] in cases;
      BodySafe(cases, k + 1);
      SafeAppend(cases[k].stmts, Body(cases, k + 1));
    }
  }

  lemma {:induction false} SafeAppend(a: seq<Stmt>, b: seq<Stmt>)
    requires StmtsSafe(a) && StmtsSafe(b)
    ensures StmtsSafe(a + b)
    decreases a
  {
    hide StmtSafe;
    if a == [] {
      assert a + b == b;
    } else {
      assert (a + b)[1..] == a[1..] + b && (a + b)[0] == a[0];
      SafeAppend(a[1..], b);
    }
  }

  lemma PassNeverPanics<L>(fn: LexFunc, d: Device<L>, state: nat, m: Locals<L>)
    requires Safe(fn)
    ensures Pass(Strict, d, fn, state, m) != Panic
  {
    hide ExecAll, Selected, StmtsSafe;
    StmtsNeverPanic(d, fn.prologue, m);
    var o := ExecAll(Strict, d, fn.prologue, m);
    if o.Fall? {
      BodySafe(fn.cases, Selected(fn.cases, state));
      StmtsNeverPanic(d, Body(fn.cases, Selected(fn.cases, state)), o.locals);
    }
  }

  lemma {:induction false} RunNeverPanics<L>(fn: LexFunc, d: Device<L>, fuel: nat, state: nat, lexer: L, result: bool, eof: bool)
    requires Safe(fn)
    ensures Interpret(Strict, d, fn, fuel, state, lexer, result, eof) != Crashed
    decreases fuel
  {
    hide Pass, Safe;
    if fuel > 0 {
      PassNeverPanics(fn, d, state, Enter(d, lexer, result, eof));
      var o := Pass(Strict, d, fn, state, Enter(d, lexer, result, eof));
      if o.Goto? {
        RunNeverPanics(fn, d, fuel - 1, o.next, d.advance(o.at.lexer, o.skip), o.at.result, o.at.eof);
      }
    }
  }

  /** When every divisor is a literal other than zero, a built program never leaves its code, its stack,
      its sets or its maps, never divides by zero, and always means what the lex function means. */
  lemma CompiledNeverPanics<L>(fn: LexFunc, d: Device<L>, fuel: nat, state: nat, lexer: L, result: bool, eof: bool)
    requires Admitted(fn, d.sets) && Covered(fn, state) && Safe(fn)
    ensures Forward(Compiled(fn)) && RunFrom(Compiled(fn), d, fuel, state, lexer, result) != Crashed
    ensures RunFrom(Compiled(fn), d, fuel, state, lexer, result) == Interpret(Lazy, d, fn, fuel, state, lexer, result, eof)
  {
    hide Compiled, Forward, RunFrom, Interpret, Covered, Admitted, RunTrips, Safe;
    MachineMeans(fn, d, fuel, state, lexer, result, eof);
    RunNeverPanics(fn, d, fuel, state, lexer, result, eof);
    CompiledMeans(fn, d, fuel, state, lexer, result, eof);
  }

  // ---------------------------------------------------------------- why each condition is asked for

  /** Statements that, from a given result on, answer that result or fall through, whatever they test:
      nothing in them moves or marks, and every return says the same. */
  predicate Harmless(ss: seq<Stmt>, result: bool)
    decreases ss
  {
    ss == [] ||
    match ss[0]
    case EofAssign => Harmless(ss[1..], result)
    case EndState => true
    case Return(v) => v == ResultValue || (v == TrueValue) == result
    case If(c, body) => SafeDivisions(c) && Harmless(body, result) && Harmless(ss[1..], result)
    case _ => false
  }

  /** Statements that come to their first move or answer without a test, a map or a mark. */
  predicate Straight(ss: seq<Stmt>)
    decreases ss
  {
    ss == [] ||
    match ss[0]
    case EofAssign => Straight(ss[1..])
    case Advance(_, _) => true
    case EndState => true
    case Return(_) => true
    case _ => false
  }

  /** The pass answers what it had. */
  predicate Unmoved<L(==)>(o: Outcome<L>, m: Locals<L>) {
    o == Done(m.result, m.lexer) || (o.Fall? && o.locals.result == m.result && o.locals.lexer == m.lexer)
  }

  lemma {:induction false} HarmlessStays<L>(d: Device<L>, ss: seq<Stmt>, m: Locals<L>)
    requires Harmless(ss, m.result)
    ensures Unmoved(ExecAll(Lazy, d, ss, m), m)
    decreases ss
  {
    if ss != [] {
      var o := Exec(Lazy, d, ss[0], m);
      if ss[0].If? {
        hide EvalStrict, Eval, SafeDivisions, ReachesZeroDivisor, DividesByZero;
        StrictExactly(d, ss[0].cond, m);
        NoZeroDivisor(d, ss[0].cond, m);
        HarmlessStays(d, ss[0].body, m);
        assert Unmoved(o, m);
      }
      if o.Fall? { HarmlessStays(d, ss[1..], o.locals); }
    }
  }

  lemma {:induction false} StraightExactly<L>(d: Device<L>, ss: seq<Stmt>, m: Locals<L>)
    requires Straight(ss)
    ensures Unmoved(ExecAll(Lazy, d, ss, m), m) <==> Harmless(ss, m.result)
    decreases ss
  {
    if ss != [] && ss[0].EofAssign? {
      StraightExactly(d, ss[1..], Exec(Lazy, d, ss[0], m).locals);
    }
  }

  /** A state above every label skips the default case: the program answers with what it has.  It agrees with
      the function when the default case is harmless (a function without one has nothing to skip), and, where
      that case comes straight to a move or an answer, only then. */
  lemma UncoveredState<L>(fn: LexFunc, d: Device<L>, state: nat, m: Locals<L>)
    requires Forward(Compiled(fn)) && StmtsFit(fn.prologue, d.sets) && FuncDepth(fn) <= STACK_SLOTS
    requires state > Highest(fn.cases) && ExecAll(Lazy, d, fn.prologue, m).Fall? && !AllTrip(d, fn.prologue, m)
    ensures var at := ExecAll(Lazy, d, fn.prologue, m).locals;
      var skipped := Body(fn.cases, Default(fn.cases));
      var agree := Walk(Compiled(fn), d, 0, [], state, m) == Pass(Lazy, d, fn, state, m);
      && Walk(Compiled(fn), d, 0, [], state, m) == Done(at.result, at.lexer)
      && (Harmless(skipped, at.result) ==> agree)
      && (Straight(skipped) ==> (agree <==> Harmless(skipped, at.result)))
  {
    hide Forward, Walk, ExecAll, Compiled, Has, HasMaps, StmtsFit, StmtsDepth, CasesDepth, AllTrip, Harmless, Straight;
    ProloguePlaced(fn);
    ExecAllStrictly(d, fn.prologue, m);
    StmtsRun(Compiled(fn), d, fn.prologue, 0, 0, state, m);
    var at := ExecAll(Lazy, d, fn.prologue, m).locals;
    DispatchStep(fn, d, |StmtsCode(fn.prologue, 0, 0)|, state, at);
    AboveSelects(fn, state);
    var skipped := Body(fn.cases, Default(fn.cases));
    if Harmless(skipped, at.result) { HarmlessStays(d, skipped, at); }
    if Straight(skipped) { StraightExactly(d, skipped, at); }
  }

  lemma AboveSelects(fn: LexFunc, state: nat)
    requires state > Highest(fn.cases)
    ensures Selected(fn.cases, state) == Default(fn.cases) && state >= |States(fn)|
  {
    var k := Labelled(fn.cases, state);
    if k < |fn.cases| {
      hide Highest;
      LabelBelow(fn.cases, fn.cases[k], state);
    }
  }

  lemma AnsweringCases(a: Case, b: Case)
    requires a == Case([0], false, [EndState]) && b == Case([], true, [Return(TrueValue)])
    ensures Highest([a, b]) == 0 && FuncDepth(LexFunc([], [a, b])) == 0
    ensures Default([a, b]) == 1 && Body([a, b], 1) == [Return(TrueValue)]
  {
    assert [a, b][..1] == [a] && [a][..0] == [] && [a, b][1..] == [b];
    assert Default([b]) == 0 && Body([a, b], 1) == b.stmts + Body([a, b], 2);
    assert Highest([]) == -1 && Highest([a]) == HighestOf([0], -1) == 0;
    assert StmtsDepth([EndState]) == 0 && StmtsDepth([Return(TrueValue)]) == 0;
    assert CasesDepth([a]) == 0;
  }

  /** A default case that answers true: from state 1 the program answers false. */
  lemma UncoveredExample<L>(d: Device<L>, lexer: L)
    ensures var fn := LexFunc([], [Case([0], false, [EndState]), Case([], true, [Return(TrueValue)])]);
      var m := Enter(d, lexer, false, false);
      && Forward(Compiled(fn)) && Walk(Compiled(fn), d, 0, [], 1, m) == Done(false, lexer)
      && Pass(Lazy, d, fn, 1, m) == Done(true, lexer)
  {
    var cases := [Case([0], false, [EndState]), Case([], true, [Return(TrueValue)])];
    var fn := LexFunc([], cases);
    var m := Enter(d, lexer, false, false);
    CompiledForward(fn);
    AnsweringCases(cases[0], cases[1]);
    AnswersTrue(d, m);
    AboveSelects(fn, 1);
    hide Compiled, Forward, Walk, States, FuncDepth, Highest, Default, Body, Selected, ExecAll, AllTrip, StmtsFit;
    UncoveredState(fn, d, 1, m);
  }

  lemma AnswersTrue<L>(d: Device<L>, m: Locals<L>)
    ensures ExecAll(Lazy, d, [], m) == Fall(m) && !AllTrip(d, [], m) && StmtsFit([], d.sets)
    ensures ExecAll(Lazy, d, [Return(TrueValue)], m) == Done(true, m.lexer)
  {
  }

  /** The code up to the end of case k ends in an answer, so the case is not given one. */
  predicate Answers(fn: LexFunc, k: nat)
    requires k < |fn.cases|
  {
    var before := AddCases(Head(fn), fn.cases[..k]);
    EndsRun(before.code + StmtsCode(fn.cases[k].stmts, |before.code|, |before.maps|))
  }

  lemma CaseClosed(fn: LexFunc, k: nat)
    requires k < |fn.cases| && !Answers(fn, k)
    ensures var seg := StmtsCode(fn.cases[k].stmts, EntryOf(fn, k), MapsBefore(fn, k));
      Has(Compiled(fn).code, EntryOf(fn, k) + |seg|, [Instr(OpEnd, 0)])
  {
    hide StmtsCode, StmtsMaps, Head, States, EndsRun, Jumps;
    var c := fn.cases[k];
    var before := AddCases(Head(fn), fn.cases[..k]);
    var mid := AddCase(before, c);
    assert fn.cases[..k + 1][..k] == fn.cases[..k] && fn.cases[..k + 1][k] == c;
    PrefixCases(Head(fn), fn.cases, k + 1);
    CasesJumps(mid, fn.cases[k + 1..]);
    var p := Compiled(fn);
    var last := |mid.code| - 1;
    assert p.code[last] == p.code[..|mid.code|][last] == mid.code[last];
  }

  /** Case k runs off its end without tripping the machine. */
  predicate Falls<L>(fn: LexFunc, d: Device<L>, k: nat, m: Locals<L>)
    requires k < |fn.cases|
  {
    StmtsFit(fn.cases[k].stmts, d.sets) && ExecAll(Lazy, d, fn.cases[k].stmts, m).Fall? && !AllTrip(d, fn.cases[k].stmts, m)
  }

  lemma CaseOpen(fn: LexFunc, k: nat)
    requires k < |fn.cases| && Answers(fn, k)
    ensures EntryOf(fn, k + 1) == EntryOf(fn, k) + |StmtsCode(fn.cases[k].stmts, EntryOf(fn, k), MapsBefore(fn, k))|
  {
    hide StmtsCode, StmtsMaps, Head, EndsRun;
    assert fn.cases[..k + 1][..k] == fn.cases[..k] && fn.cases[..k + 1][k] == fn.cases[k];
  }

  /** What the program does from the start of case k: it runs the case, and where that falls off its end it answers,
      or, when the code there ends in an answer already, runs on into the next case. */
  lemma CaseStep<L>(fn: LexFunc, d: Device<L>, k: nat, state: nat, m: Locals<L>)
    requires Forward(Compiled(fn)) && FuncDepth(fn) <= STACK_SLOTS && k < |fn.cases| && StmtsFit(fn.cases[k].stmts, d.sets)
    ensures Walk(Compiled(fn), d, EntryOf(fn, k), [], state, m)
         == match ExecAll(Strict, d, fn.cases[k].stmts, m)
            case Fall(at) =>
              if Answers(fn, k) then Walk(Compiled(fn), d, EntryOf(fn, k + 1), [], state, at) else Done(at.result, at.lexer)
            case other => other
  {
    hide Forward, ExecAll, Compiled, HasMaps, StmtsFit, StmtsDepth, CasesDepth, StmtsCode, AddCases, Head, EndsRun, Answers,
      EntryOf;
    var p := Compiled(fn);
    var o := ExecAll(Strict, d, fn.cases[k].stmts, m);
    var seg := StmtsCode(fn.cases[k].stmts, EntryOf(fn, k), MapsBefore(fn, k));
    assert Walk(p, d, EntryOf(fn, k), [], state, m) == After(p, d, o, EntryOf(fn, k) + |seg|, state) by {
      hide Walk;
      CasePlaced(fn, k);
      CaseDepths(fn.cases, k);
      StmtsRun(p, d, fn.cases[k].stmts, EntryOf(fn, k), MapsBefore(fn, k), state, m);
    }
    if o.Fall? {
      if Answers(fn, k) {
        CaseOpen(fn, k);
      } else {
        CaseClosed(fn, k);
        assert p.code[EntryOf(fn, k) + |seg|] == [Instr(OpEnd, 0)][0];
      }
    }
  }

  /** Behind the last case there is no code. */
  lemma NoMoreCode<L>(fn: LexFunc, d: Device<L>, state: nat, m: Locals<L>)
    requires Forward(Compiled(fn))
    ensures Walk(Compiled(fn), d, EntryOf(fn, |fn.cases|), [], state, m) == Panic
  {
    hide Forward, AddCases, Head, States;
    assert fn.cases[..|fn.cases|] == fn.cases;
  }

  /** The prologue, when it neither leaves nor trips, and the way to the selected case. */
  lemma EntersCase<L>(fn: LexFunc, d: Device<L>, state: nat, m: Locals<L>)
    requires Forward(Compiled(fn)) && StmtsFit(fn.prologue, d.sets) && FuncDepth(fn) <= STACK_SLOTS
    requires OneCaseEach(fn.cases) && Covered(fn, state) && Selected(fn.cases, state) < |fn.cases|
    requires ExecAll(Lazy, d, fn.prologue, m).Fall? && !AllTrip(d, fn.prologue, m)
    ensures Walk(Compiled(fn), d, 0, [], state, m)
         == Walk(Compiled(fn), d, EntryOf(fn, Selected(fn.cases, state)), [], state, ExecAll(Lazy, d, fn.prologue, m).locals)
  {
    hide Forward, ExecAll, Compiled, HasMaps, Selected, States, StmtsFit, StmtsDepth, AllTrip, CasesDepth, OneCaseEach,
      Covered, Highest, StmtsCode, EndsRun, Walk, EntryOf;
    ProloguePlaced(fn);
    ExecAllStrictly(d, fn.prologue, m);
    StmtsRun(Compiled(fn), d, fn.prologue, 0, 0, state, m);
    DispatchStep(fn, d, |StmtsCode(fn.prologue, 0, 0)|, state, ExecAll(Lazy, d, fn.prologue, m).locals);
    SameCase(fn, state);
  }

  /** A case that can be left by falling off its end, and whose code does not already end in an answer, is
      given one: the program answers there, where C goes on into the next case.  It agrees with the function
      when what follows is harmless, and, where that comes straight to a move or an answer, only then. */
  lemma FallingCase<L>(fn: LexFunc, d: Device<L>, state: nat, m: Locals<L>)
    requires Forward(Compiled(fn)) && StmtsFit(fn.prologue, d.sets) && FuncDepth(fn) <= STACK_SLOTS
    requires OneCaseEach(fn.cases) && Covered(fn, state) && Selected(fn.cases, state) < |fn.cases|
    requires ExecAll(Lazy, d, fn.prologue, m).Fall? && !AllTrip(d, fn.prologue, m)
    requires var k := Selected(fn.cases, state);
      Falls(fn, d, k, ExecAll(Lazy, d, fn.prologue, m).locals) && !Answers(fn, k)
    ensures var k := Selected(fn.cases, state);
      var at := ExecAll(Lazy, d, fn.cases[k].stmts, ExecAll(Lazy, d, fn.prologue, m).locals).locals;
      var skipped := Body(fn.cases, k + 1);
      var agree := Walk(Compiled(fn), d, 0, [], state, m) == Pass(Lazy, d, fn, state, m);
      && Walk(Compiled(fn), d, 0, [], state, m) == Done(at.result, at.lexer)
      && (Harmless(skipped, at.result) ==> agree)
      && (Straight(skipped) ==> (agree <==> Harmless(skipped, at.result)))
  {
    hide Forward, ExecAll, Compiled, HasMaps, Selected, States, StmtsFit, StmtsDepth, AllTrip, Harmless, Straight,
      CasesDepth, OneCaseEach, Covered, Highest, StmtsCode, EndsRun;
    var entered := ExecAll(Lazy, d, fn.prologue, m).locals;
    var k := Selected(fn.cases, state);
    EntersCase(fn, d, state, m);
    hide Walk, EntryOf, Answers;
    CaseStep(fn, d, k, state, entered);
    ExecAllStrictly(d, fn.cases[k].stmts, entered);
    ExecAppend(Lazy, d, fn.cases[k].stmts, Body(fn.cases, k + 1), entered);
    var at := ExecAll(Lazy, d, fn.cases[k].stmts, entered).locals;
    var skipped := Body(fn.cases, k + 1);
    if Harmless(skipped, at.result) { HarmlessStays(d, skipped, at); }
    if Straight(skipped) { StraightExactly(d, skipped, at); }
  }

  lemma AcceptingCases(a: Case, b: Case)
    requires a == Case([0], false, [Accept(1)]) && b == Case([1], false, [Return(FalseValue)])
    ensures var fn := LexFunc([], [a, b]);
      && OneCaseEach(fn.cases) && Covered(fn, 0) && FuncDepth(fn) == 0 && Selected(fn.cases, 0) == 0
      && !EndsRun(AddCases(Head(fn), fn.cases[..0]).code + [Instr(OpAccept, 1)])
      && Body(fn.cases, 1) == [Return(FalseValue)] && Body(fn.cases, 0) == [Accept(1), Return(FalseValue)]
  {
    var cases := [a, b];
    assert cases[..0] == [] && cases[..1] == [a] && [a][..0] == [];
    assert StmtsDepth([Accept(1)]) == 0 && StmtsDepth([Return(FalseValue)]) == 0;
    assert CasesDepth([a]) == 0;
    assert Body(cases, 1) == b.stmts + [] && Body(cases, 0) == a.stmts + Body(cases, 1);
    assert HasLabel(cases[0], 0);
    hide Highest;
  }

  lemma AcceptThenFalse<L>(d: Device<L>, m: Locals<L>)
    ensures ExecAll(Lazy, d, [], m) == Fall(m) && ExecAll(Lazy, d, [Accept(1)], m) == Fall(m.(result := true, lexer := d.accept(m.lexer, 1)))
    ensures ExecAll(Lazy, d, [Accept(1), Return(FalseValue)], m) == Done(false, d.accept(m.lexer, 1))
    ensures !AllTrip(d, [], m) && !AllTrip(d, [Accept(1)], m) && StmtsFit([], d.sets) && StmtsFit([Accept(1)], d.sets)
  {
    assert [Accept(1), Return(FalseValue)][1..] == [Return(FalseValue)];
  }

  lemma AcceptCode(base: nat, k: nat)
    ensures StmtsCode([Accept(1)], base, k) == [Instr(OpAccept, 1)]
  {
    assert Int32(1) == 1;
  }

  /** A case that accepts and falls off its end into one that answers false: the program answers true. */
  lemma FallingExample<L>(d: Device<L>, lexer: L)
    ensures var fn := LexFunc([], [Case([0], false, [Accept(1)]), Case([1], false, [Return(FalseValue)])]);
      var m := Enter(d, lexer, false, false);
      && Forward(Compiled(fn)) && Walk(Compiled(fn), d, 0, [], 0, m) == Done(true, d.accept(lexer, 1))
      && Pass(Lazy, d, fn, 0, m) == Done(false, d.accept(lexer, 1))
  {
    var cases := [Case([0], false, [Accept(1)]), Case([1], false, [Return(FalseValue)])];
    var fn := LexFunc([], cases);
    var m := Enter(d, lexer, false, false);
    CompiledForward(fn);
    AcceptingCases(cases[0], cases[1]);
    AcceptThenFalse(d, m);
    hide Compiled, Forward, Walk, AddCases, Head, Body, EndsRun, StmtsCode, Selected, OneCaseEach, Covered, FuncDepth, ExecAll,
      StmtsFit, AllTrip, Highest;
    var before := AddCases(Head(fn), cases[..0]);
    AcceptCode(|before.code|, |before.maps|);
    FallingCase(fn, d, 0, m);
  }

  /** A case that falls off its end although its code ends in an answer is not given one.  As the last case it leads
      out of the code and the program crashes, where C leaves the switch with what it has; before another case it runs
      on into that one, as C does, and agrees with the function when that one is left. */
  lemma FallingOn<L>(fn: LexFunc, d: Device<L>, state: nat, m: Locals<L>)
    requires Forward(Compiled(fn)) && StmtsFit(fn.prologue, d.sets) && FuncDepth(fn) <= STACK_SLOTS
    requires OneCaseEach(fn.cases) && Covered(fn, state) && Selected(fn.cases, state) < |fn.cases|
    requires ExecAll(Lazy, d, fn.prologue, m).Fall? && !AllTrip(d, fn.prologue, m)
    requires var k := Selected(fn.cases, state);
      Falls(fn, d, k, ExecAll(Lazy, d, fn.prologue, m).locals) && Answers(fn, k)
    ensures var k := Selected(fn.cases, state);
      var at := ExecAll(Lazy, d, fn.cases[k].stmts, ExecAll(Lazy, d, fn.prologue, m).locals).locals;
      var run, meant := Walk(Compiled(fn), d, 0, [], state, m), Pass(Lazy, d, fn, state, m);
      if k + 1 == |fn.cases| then run == Panic && meant == Done(at.result, at.lexer)
      else
        var next := fn.cases[k + 1].stmts;
        StmtsFit(next, d.sets) && !AllTrip(d, next, at) && !ExecAll(Lazy, d, next, at).Fall? ==> run == meant
  {
    hide Forward, ExecAll, Compiled, HasMaps, Selected, States, StmtsFit, StmtsDepth, AllTrip, CasesDepth, OneCaseEach,
      Covered, Highest, StmtsCode, EndsRun, Walk, EntryOf, Answers, Body, Pass;
    var entered := ExecAll(Lazy, d, fn.prologue, m).locals;
    var k := Selected(fn.cases, state);
    var stmts := fn.cases[k].stmts;
    EntersCase(fn, d, state, m);
    CaseStep(fn, d, k, state, entered);
    ExecAllStrictly(d, stmts, entered);
    var at := ExecAll(Lazy, d, stmts, entered).locals;
    BodyPass(fn, d, state, m);
    BodyUnfold(fn.cases, k);
    ExecAppend(Lazy, d, stmts, Body(fn.cases, k + 1), entered);
    if k + 1 == |fn.cases| {
      NoMoreCode(fn, d, state, at);
      NothingLeft(d, fn.cases, k + 1, at);
    } else {
      var next := fn.cases[k + 1].stmts;
      if StmtsFit(next, d.sets) && !AllTrip(d, next, at) && !ExecAll(Lazy, d, next, at).Fall? {
        CaseStep(fn, d, k + 1, state, at);
        ExecAllStrictly(d, next, at);
        BodyUnfold(fn.cases, k + 1);
        ExecAppend(Lazy, d, next, Body(fn.cases, k + 2), at);
      }
    }
  }

  lemma BodyPass<L>(fn: LexFunc, d: Device<L>, state: nat, m: Locals<L>)
    requires ExecAll(Lazy, d, fn.prologue, m).Fall?
    ensures Pass(Lazy, d, fn, state, m)
         == match ExecAll(Lazy, d, Body(fn.cases, Selected(fn.cases, state)), ExecAll(Lazy, d, fn.prologue, m).locals)
            case Fall(at) => Done(at.result, at.lexer)
            case other => other
  {
    hide ExecAll, Body, Selected;
  }

  lemma BodyUnfold(cases: seq<Case>, k: nat)
    requires k < |cases|
    ensures Body(cases, k) == cases[k].stmts + Body(cases, k + 1)
  {
  }

  lemma NothingLeft<L>(d: Device<L>, cases: seq<Case>, k: nat, m: Locals<L>)
    requires k >= |cases|
    ensures ExecAll(Lazy, d, Body(cases, k), m) == Fall(m)
  {
  }

  lemma TestingCase(c: Case)
    requires c == Case([0], false, [If(Lookahead, [Return(TrueValue)])])
    ensures var fn := LexFunc([], [c]);
      && OneCaseEach(fn.cases) && Covered(fn, 0) && FuncDepth(fn) <= STACK_SLOTS && Selected(fn.cases, 0) == 0 && Answers(fn, 0)
  {
    var cases := [c];
    assert cases[..0] == [] && HasLabel(cases[0], 0);
    assert [Return(TrueValue)][1..] == [] && c.stmts[1..] == [];
    assert StmtsDepth([Return(TrueValue)]) == 0 && StmtsDepth(c.stmts) <= 1;
    assert CasesDepth(cases) == StmtsDepth(c.stmts);
    var k := |AddCases(Head(LexFunc([], cases)), []).code|;
    TestingCode(k, 0);
    hide Highest, StmtsCode;
  }

  lemma TestingCode(base: nat, k: nat)
    ensures var code := StmtsCode([If(Lookahead, [Return(TrueValue)])], base, k);
      code != [] && code[|code| - 1] == Instr(OpReturn, 1)
  {
    var s := If(Lookahead, [Return(TrueValue)]);
    assert [s][1..] == [] && [Return(TrueValue)][1..] == [];
    assert StmtsCode([Return(TrueValue)], base + 2, k) == [Instr(OpReturn, 1)];
  }

  /** A case that answers only when the lookahead is not zero, alone in its switch: at lookahead zero the program
      crashes and C answers false. */
  lemma FallingOnExample<L>(d: Device<L>, lexer: L)
    requires d.lookahead(lexer) == 0
    ensures var fn := LexFunc([], [Case([0], false, [If(Lookahead, [Return(TrueValue)])])]);
      var m := Enter(d, lexer, false, false);
      && Forward(Compiled(fn)) && Walk(Compiled(fn), d, 0, [], 0, m) == Panic
      && Pass(Lazy, d, fn, 0, m) == Done(false, lexer)
  {
    var c := Case([0], false, [If(Lookahead, [Return(TrueValue)])]);
    var fn := LexFunc([], [c]);
    var m := Enter(d, lexer, false, false);
    CompiledForward(fn);
    TestingCase(c);
    TestingFalls(d, m);
    hide Compiled, Forward, Walk, AddCases, Head, Body, EndsRun, StmtsCode, Selected, OneCaseEach, Covered, FuncDepth, ExecAll,
      StmtsFit, AllTrip, Highest, Answers, Pass;
    FallingOn(fn, d, 0, m);
  }

  lemma TestingFalls<L>(d: Device<L>, m: Locals<L>)
    requires m.lookahead == 0
    ensures var ss := [If(Lookahead, [Return(TrueValue)])];
      StmtsFit(ss, d.sets) && ExecAll(Lazy, d, ss, m) == Fall(m) && !AllTrip(d, ss, m)
    ensures ExecAll(Lazy, d, [], m) == Fall(m) && !AllTrip(d, [], m) && StmtsFit([], d.sets)
  {
    var ss := [If(Lookahead, [Return(TrueValue)])];
    assert ss[1..] == [];
  }
}
