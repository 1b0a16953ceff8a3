/** The run time's lexer machine: a program of one-argument instructions over a 16-slot operand
    stack (lexprog.go:6-153). */
module LexProgram {
  import opened EditSpec
  import opened LexFunctions

  const STACK_SLOTS := 16

  datatype Op =
    | PushLit | PushLookahead | PushEof | PushSet | OpNot | OpNeg | OpBinary | JumpIfFalse | Dispatch
    | OpAdvance | OpSkip | OpAdvanceMap | OpAccept | OpEnd | OpReturn | OpReadEof

  datatype Instr = Instr(op: Op, arg: int)

  datatype Program = Program(code: seq<Instr>, states: seq<int>, maps: seq<seq<int>>)

  function OpNumber(op: BinaryOp): nat {
    match op
    case Or => 0 case And => 1 case BitOr => 2 case Xor => 3 case BitAnd => 4 case Eq => 5 case Ne => 6
    case Lt => 7 case Gt => 8 case Le => 9 case Ge => 10 case Shl => 11 case Shr => 12
    case Plus => 13 case Minus => 14 case Times => 15 case Div => 16 case Mod => 17
  }

  const OPERATORS := [Or, And, BitOr, Xor, BitAnd, Eq, Ne, Lt, Gt, Le, Ge, Shl, Shr, Plus, Minus, Times, Div, Mod]

  /** An operator number outside the table answers zero. */
  function Combine(n: int, l: int, r: int): Option<int> {
    if 0 <= n < |OPERATORS| then ApplyBinary(OPERATORS[n], l, r) else Some(0)
  }

  /** Every jump, and every case entry, lies ahead of the instruction that takes it. */
  predicate Forward(p: Program) {
    forall i :: 0 <= i < |p.code| ==>
      && (p.code[i].op == JumpIfFalse ==> i < p.code[i].arg)
      && (p.code[i].op == Dispatch ==> forall k :: 0 <= k < |p.states| ==> p.states[k] < 0 || i < p.states[k])
  }

  predicate OnStack(op: Op) {
    op in {PushLit, PushLookahead, PushEof, PushSet, OpNot, OpNeg, OpBinary}
  }

  /** What an instruction that only works on the operand stack leaves there; None is an index
      panic or a division by zero. */
  function Stacked<L>(d: Device<L>, ins: Instr, stack: seq<int>, m: Locals<L>): Option<seq<int>>
    requires OnStack(ins.op)
  {
    var n := |stack|;
    match ins.op
    case OpNot => if n == 0 then None else Some(stack[..n - 1] + [BoolInt(stack[n - 1] == 0)])
    case OpNeg => if n == 0 then None else Some(stack[..n - 1] + [Int64(-stack[n - 1])])
    case OpBinary =>
      if n < 2 then None else
      (match Combine(ins.arg, stack[n - 2], stack[n - 1])
       case None => None
       case Some(v) => Some(stack[..n - 2] + [v]))
    case _ =>
      if n >= STACK_SLOTS || (ins.op == PushSet && !(0 <= ins.arg < d.sets)) then None
      else Some(stack + [Pushed(d, ins, m)])
  }

  function Pushed<L>(d: Device<L>, ins: Instr, m: Locals<L>): int {
    match ins.op
    case PushLit => ins.arg
    case PushLookahead => m.lookahead
    case PushEof => BoolInt(m.eof)
    case PushSet => BoolInt(0 <= ins.arg < d.sets && d.inSet(ins.arg, m.lookahead))
    case _ => 0
  }

  /** A map is a flat list of lookahead, target pairs; None is a match without a target. */
  function Looked(pairs: seq<int>, i: nat, lookahead: int): Option<Option<int>>
    decreases |pairs| - i
  {
    if i >= |pairs| then Some(None)
    else if pairs[i] == lookahead then (if i + 1 < |pairs| then Some(Some(pairs[i + 1])) else None)
    else Looked(pairs, i + 2, lookahead)
  }

  /** One pass of the machine from instruction `pc`. */
  function Walk<L>(p: Program, d: Device<L>, pc: int, stack: seq<int>, state: nat, m: Locals<L>): Outcome<L>
    requires Forward(p)
    decreases |p.code| - pc
  {
    if pc < 0 || pc >= |p.code| then Panic else
    var ins := p.code[pc];
    if OnStack(ins.op) then
      (match Stacked(d, ins, stack, m)
       case None => Panic
       case Some(st) => Walk(p, d, pc + 1, st, state, m))
    else
    match ins.op
    case JumpIfFalse =>
      if stack == [] then Panic
      else Walk(p, d, if stack[|stack| - 1] == 0 then ins.arg else pc + 1, stack[..|stack| - 1], state, m)
    case Dispatch =>
      var target := if state < |p.states| then p.states[state] else -1;
      if target < 0 then Done(m.result, m.lexer) else Walk(p, d, target, stack, state, m)
    case OpAdvance => Goto(UInt16(ins.arg), false, m)
    case OpSkip => Goto(UInt16(ins.arg), true, m)
    case OpAdvanceMap =>
      if !(0 <= ins.arg < |p.maps|) then Panic else
      (match Looked(p.maps[ins.arg], 0, m.lookahead)
       case None => Panic
       case Some(None) => Walk(p, d, pc + 1, stack, state, m)
       case Some(Some(next)) => Goto(UInt16(next), false, m))
    case OpAccept =>
      Walk(p, d, pc + 1, stack, state, m.(result := true, lexer := d.accept(m.lexer, UInt16(ins.arg))))
    case OpEnd => Done(m.result, m.lexer)
    case OpReturn => Done(ins.arg != 0, m.lexer)
    case OpReadEof => Walk(p, d, pc + 1, stack, state, m.(eof := d.eof(m.lexer)))
    case _ => Panic
  }

  /** The machine run for at most `fuel` passes.  Each pass starts with eof false. */
  function RunFrom<L>(p: Program, d: Device<L>, fuel: nat, state: nat, lexer: L, result: bool): Verdict<L>
    requires Forward(p)
    decreases fuel
  {
    if fuel == 0 then OutOfFuel else
    match Walk(p, d, 0, [], state, Enter(d, lexer, result, false))
    case Done(b, l) => Answered(b, l)
    case Goto(next, skip, m) => RunFrom(p, d, fuel - 1, next, d.advance(m.lexer, skip), m.result)
    case _ => Crashed
  }

  /** The switch arms that only touch the operand stack; the answer is the new sp. */
  method StepStack<L>(d: Device<L>, ins: Instr, stack: array<int>, sp: nat, m: Locals<L>) returns (r: Option<nat>)
    requires OnStack(ins.op) && stack.Length == STACK_SLOTS && sp <= STACK_SLOTS
    modifies stack
    ensures r.None? <==> Stacked(d, ins, old(stack[..sp]), m).None?
    ensures r.Some? ==> r.value <= STACK_SLOTS && Stacked(d, ins, old(stack[..sp]), m) == Some(stack[..r.value])
  {
    ghost var before := stack[..sp];
    if ins.op == OpNot || ins.op == OpNeg {
      if sp == 0 { return None; }
      stack[sp - 1] := if ins.op == OpNot then BoolInt(stack[sp - 1] == 0) else Int64(-stack[sp - 1]);
      assert stack[..sp] == before[..sp - 1] + [stack[sp - 1]];
      return Some(sp);
    }
    if ins.op == OpBinary {
      if sp < 2 { return None; }
      match Combine(ins.arg, stack[sp - 2], stack[sp - 1]) {
        case None => return None;
        case Some(w) =>
          stack[sp - 2] := w;
          assert stack[..sp - 1] == before[..sp - 2] + [stack[sp - 2]];
          return Some(sp - 1);
      }
    }
    if sp >= STACK_SLOTS || (ins.op == PushSet && !(0 <= ins.arg < d.sets)) { return None; }
    stack[sp] := Pushed(d, ins, m);
    assert stack[..sp + 1] == before + [stack[sp]];
    return Some(sp + 1);
  }

  /** The scan of a map, in steps of two; None is the panic of reading past a last lone key. */
  method LookUp(pairs: seq<int>, lookahead: int) returns (r: Option<Option<int>>)
    ensures r == Looked(pairs, 0, lookahead)
  {
    var i := 0;
    while i < |pairs|
      invariant 0 <= i && Looked(pairs, i, lookahead) == Looked(pairs, 0, lookahead)
    {
      if pairs[i] == lookahead {
        return if i + 1 < |pairs| then Some(Some(pairs[i + 1])) else None;
      }
      i := i + 2;
    }
    return Some(None);
  }

  /** LexProgram.Run, stopped after `fuel` passes. */
  method Run<L>(p: Program, d: Device<L>, fuel: nat, start: nat, from: L) returns (v: Verdict<L>)
    requires Forward(p)
    ensures v == RunFrom(p, d, fuel, start, from, false)
  {
    hide Stacked, Looked;
    var result, lexer := false, from;
    var state: nat := start;
    var stack := new int[STACK_SLOTS];
    var passes := 0;
    while passes < fuel
      invariant passes <= fuel
      invariant RunFrom(p, d, fuel - passes, state, lexer, result) == RunFrom(p, d, fuel, start, from, false)
    {
      passes := passes + 1;
      var sp, eof, lookahead, pc := 0, false, d.lookahead(lexer), 0;
      ghost var pass := Walk(p, d, 0, [], state, Enter(d, lexer, result, false));
      var restart := false;
      while !restart
        invariant 0 <= sp <= STACK_SLOTS
        invariant !restart ==> Walk(p, d, pc, stack[..sp], state, Locals(lexer, lookahead, result, eof)) == pass
        invariant restart ==> pass.Goto? && state == pass.next
        invariant restart ==> lexer == d.advance(pass.at.lexer, pass.skip) && result == pass.at.result
        decreases !restart, |p.code| - pc
      {
        if pc < 0 || pc >= |p.code| { return Crashed; }
        var ins := p.code[pc];
        ghost var before := stack[..sp];
        pc := pc + 1;
        if OnStack(ins.op) {
          var r := StepStack(d, ins, stack, sp, Locals(lexer, lookahead, result, eof));
          if r.None? { return Crashed; }
          sp := r.value;
          continue;
        }
        match ins.op {
          case JumpIfFalse =>
            if sp == 0 { return Crashed; }
            sp := sp - 1;
            assert stack[..sp] == before[..sp];
            if stack[sp] == 0 { pc := ins.arg; }
          case Dispatch =>
            var target := -1;
            if state < |p.states| { target := p.states[state]; }
            if target < 0 { return Answered(result, lexer); }
            pc := target;
          case OpAdvance =>
            state, lexer, restart := UInt16(ins.arg), d.advance(lexer, false), true;
          case OpSkip =>
            state, lexer, restart := UInt16(ins.arg), d.advance(lexer, true), true;
          case OpAdvanceMap =>
            if !(0 <= ins.arg < |p.maps|) { return Crashed; }
            var found := LookUp(p.maps[ins.arg], lookahead);
            match found {
              case None => return Crashed;
              case Some(None) =>
              case Some(Some(next)) =>
                state, lexer, restart := UInt16(next), d.advance(lexer, false), true;
            }
          case OpAccept =>
            result, lexer := true, d.accept(lexer, UInt16(ins.arg));
          case OpEnd => return Answered(result, lexer);
          case OpReturn => return Answered(ins.arg != 0, lexer);
          case _ => eof := d.eof(lexer);
        }
      }
    }
    return OutOfFuel;
  }
}
