/** Generated lex functions as the generator parses them (cmd/ts-translate/cparse.go:51-99),
    and what running one in C means. */
module LexFunctions {
  import opened EditSpec
  import opened Powers

  datatype BinaryOp =
    | Or | And | BitOr | Xor | BitAnd | Eq | Ne | Lt | Gt | Le | Ge | Shl | Shr | Plus | Minus | Times | Div | Mod

  datatype UnaryOp = Not | Neg

  /** Sets are named by their index in the tables. */
  datatype Expr =
    | Lit(v: int)
    | Lookahead
    | Eof
    | InSet(index: nat)
    | Unary(uop: UnaryOp, x: Expr)
    | Binary(op: BinaryOp, l: Expr, r: Expr)

  datatype Returned = ResultValue | TrueValue | FalseValue

  datatype Stmt =
    | If(cond: Expr, body: seq<Stmt>)
    | Advance(state: int, skip: bool)
    | AdvanceMap(pairs: seq<(int, int)>)
    | Accept(symbol: int)
    | EndState
    | Return(value: Returned)
    | EofAssign

  datatype Case = Case(labels: seq<nat>, isDefault: bool, stmts: seq<Stmt>)

  datatype LexFunc = LexFunc(prologue: seq<Stmt>, cases: seq<Case>)

  // ---------------------------------------------------------------- 64-bit arithmetic

  const TWO_31 := 0x8000_0000
  const TWO_32 := 0x1_0000_0000
  const TWO_63 := 0x8000_0000_0000_0000
  const TWO_64 := 0x1_0000_0000_0000_0000

  function Int32(x: int): int { (x + TWO_31) % TWO_32 - TWO_31 }

  function Int64(x: int): int { (x + TWO_63) % TWO_64 - TWO_63 }

  function UInt16(x: int): nat { x % 0x1_0000 }

  function BoolInt(b: bool): int { if b then 1 else 0 }

  function Bits(x: int): bv64 { (x % TWO_64) as bv64 }

  function FromBits(b: bv64): int { Int64(b as int) }

  /** Division rounds toward zero, and the remainder keeps the sign of the dividend. */
  function Quotient(l: int, r: int): int
    requires r != 0
  {
    if l >= 0 then (if r > 0 then l / r else -(l / -r))
    else (if r > 0 then -(-l / r) else -l / -r)
  }

  /** A shift count is taken as unsigned, so a negative one shifts everything out. */
  function ShiftCount(r: int): nat { r % TWO_64 }

  /** applyBinary; None is the run-time panic of a division by zero. */
  function ApplyBinary(op: BinaryOp, l: int, r: int): Option<int> {
    match op
    case Or => Some(BoolInt(l != 0 || r != 0))
    case And => Some(BoolInt(l != 0 && r != 0))
    case BitOr => Some(FromBits(Bits(l) | Bits(r)))
    case Xor => Some(FromBits(Bits(l) ^ Bits(r)))
    case BitAnd => Some(FromBits(Bits(l) & Bits(r)))
    case Eq => Some(BoolInt(l == r))
    case Ne => Some(BoolInt(l != r))
    case Lt => Some(BoolInt(l < r))
    case Gt => Some(BoolInt(l > r))
    case Le => Some(BoolInt(l <= r))
    case Ge => Some(BoolInt(l >= r))
    case Shl => Some(if ShiftCount(r) >= 64 then 0 else Int64(l * Pow2(ShiftCount(r))))
    case Shr => Some(if ShiftCount(r) >= 64 then (if l < 0 then -1 else 0) else l / Pow2(ShiftCount(r)))
    case Plus => Some(Int64(l + r))
    case Minus => Some(Int64(l - r))
    case Times => Some(Int64(l * r))
    case Div => if r == 0 then None else Some(Int64(Quotient(l, r)))
    case Mod => if r == 0 then None else Some(l - r * Quotient(l, r))
  }

  function ApplyUnary(op: UnaryOp, x: int): int {
    match op
    case Not => BoolInt(x == 0)
    case Neg => Int64(-x)
  }

  // ---------------------------------------------------------------- meaning

  /** What a lex function can ask of its lexer. */
  datatype Device<!L> = Device(lookahead: L -> int, eof: L -> bool, advance: (L, bool) -> L,
                               accept: (L, nat) -> L, sets: nat, inSet: (nat, int) -> bool)

  /** The locals of a lex function during one pass over its body. */
  datatype Locals<L> = Locals(lexer: L, lookahead: int, result: bool, eof: bool)

  datatype Outcome<L> =
    | Fall(locals: Locals<L>)
    | Goto(next: nat, skip: bool, at: Locals<L>)
    | Done(answer: bool, lexer: L)
    | Panic

  /** A condition in C: && and || evaluate their right operand only when they must. */
  function Eval<L>(d: Device<L>, e: Expr, m: Locals<L>): Option<int> {
    match e
    case Lit(v) => Some(v)
    case Lookahead => Some(m.lookahead)
    case Eof => Some(BoolInt(m.eof))
    case InSet(s) => Some(BoolInt(d.inSet(s, m.lookahead)))
    case Unary(op, x) =>
      (match Eval(d, x, m)
       case None => None
       case Some(v) => Some(ApplyUnary(op, v)))
    case Binary(op, l, r) =>
      match Eval(d, l, m)
      case None => None
      case Some(a) =>
        if op == And && a == 0 then Some(0)
        else if op == Or && a != 0 then Some(1)
        else
          match Eval(d, r, m)
          case None => None
          case Some(b) => ApplyBinary(op, a, b)
  }

  /** The same condition with both operands always evaluated, as a postfix machine must. */
  function EvalStrict<L>(d: Device<L>, e: Expr, m: Locals<L>): Option<int> {
    match e
    case Lit(v) => Some(v)
    case Lookahead => Some(m.lookahead)
    case Eof => Some(BoolInt(m.eof))
    case InSet(s) => Some(BoolInt(d.inSet(s, m.lookahead)))
    case Unary(op, x) =>
      (match EvalStrict(d, x, m)
       case None => None
       case Some(v) => Some(ApplyUnary(op, v)))
    case Binary(op, l, r) =>
      match EvalStrict(d, l, m)
      case None => None
      case Some(a) =>
        match EvalStrict(d, r, m)
        case None => None
        case Some(b) => ApplyBinary(op, a, b)
  }

  /** Only a division by zero can fail, and a decided && or || does not look at its right operand. */
  lemma ApplyBinaryFacts(op: BinaryOp, a: int, b: int)
    ensures op != Div && op != Mod ==> ApplyBinary(op, a, b).Some?
    ensures op == And && a == 0 ==> ApplyBinary(op, a, b) == Some(0)
    ensures op == Or && a != 0 ==> ApplyBinary(op, a, b) == Some(1)
    ensures op == Div || op == Mod ==> (ApplyBinary(op, a, b).None? <==> b == 0)
  {
    hide FromBits, Bits, Pow2, Int64, ShiftCount;
  }

  /** Some division anywhere in the condition has a zero divisor. */
  predicate DividesByZero<L>(d: Device<L>, e: Expr, m: Locals<L>) {
    match e
    case Unary(_, x) => DividesByZero(d, x, m)
    case Binary(op, l, r) =>
      DividesByZero(d, l, m) || DividesByZero(d, r, m) || ((op == Div || op == Mod) && EvalStrict(d, r, m) == Some(0))
    case _ => false
  }

  /** Some division C comes to has a zero divisor: one under no operand that && or || has decided to skip. */
  predicate ReachesZeroDivisor<L>(d: Device<L>, e: Expr, m: Locals<L>) {
    match e
    case Unary(_, x) => ReachesZeroDivisor(d, x, m)
    case Binary(op, l, r) =>
      ReachesZeroDivisor(d, l, m)
      || (!Decided(op, Eval(d, l, m))
          && (ReachesZeroDivisor(d, r, m) || ((op == Div || op == Mod) && Eval(d, r, m) == Some(0))))
    case _ => false
  }

  /** The left operand alone gives the answer. */
  predicate Decided(op: BinaryOp, left: Option<int>) {
    left.Some? && ((op == And && left.value == 0) || (op == Or && left.value != 0))
  }

  /** The machine divides by zero where C would have skipped the division. */
  predicate Trips<L>(d: Device<L>, e: Expr, m: Locals<L>) { DividesByZero(d, e, m) && !ReachesZeroDivisor(d, e, m) }

  /** The machine evaluates what C would skip: the two agree on a condition exactly when the machine does
      not trip, that is when no division C skips has a zero divisor or one it comes to has. */
  lemma {:induction false} StrictExactly<L>(d: Device<L>, e: Expr, m: Locals<L>)
    ensures EvalStrict(d, e, m).None? <==> DividesByZero(d, e, m)
    ensures Eval(d, e, m).None? <==> ReachesZeroDivisor(d, e, m)
    ensures EvalStrict(d, e, m) == Eval(d, e, m) <==> !Trips(d, e, m)
  {
    hide ApplyUnary, ApplyBinary;
    match e
    case Unary(_, x) => StrictExactly(d, x, m);
    case Binary(op, l, r) =>
      StrictExactly(d, l, m);
      StrictExactly(d, r, m);
      if Eval(d, l, m).Some? && Eval(d, r, m).Some? {
        ApplyBinaryFacts(op, Eval(d, l, m).value, Eval(d, r, m).value);
      }
      if EvalStrict(d, l, m).Some? && EvalStrict(d, r, m).Some? {
        ApplyBinaryFacts(op, EvalStrict(d, l, m).value, EvalStrict(d, r, m).value);
      }
    case _ =>
  }

  /** A division C never reaches, which the machine does. */
  lemma GuardedDivision<L>(d: Device<L>, m: Locals<L>)
    ensures var e := Binary(And, Lit(0), Binary(Div, Lit(1), Lit(0)));
      Eval(d, e, m) == Some(0) && EvalStrict(d, e, m) == None
  {
  }

  /** How conditions are evaluated: as C does, or as the machine does. */
  datatype Evaluation = Lazy | Strict

  function Value<L>(how: Evaluation, d: Device<L>, e: Expr, m: Locals<L>): Option<int> {
    if how.Lazy? then Eval(d, e, m) else EvalStrict(d, e, m)
  }

  function Match(pairs: seq<(int, int)>, lookahead: int): Option<int> {
    if pairs == [] then None
    else if pairs[0].0 == lookahead then Some(pairs[0].1)
    else Match(pairs[1..], lookahead)
  }

  function ExecAll<L>(how: Evaluation, d: Device<L>, ss: seq<Stmt>, m: Locals<L>): Outcome<L>
    decreases ss
  {
    if ss == [] then Fall(m) else
    match Exec(how, d, ss[0], m)
    case Fall(m') => ExecAll(how, d, ss[1..], m')
    case other => other
  }

  function Exec<L>(how: Evaluation, d: Device<L>, s: Stmt, m: Locals<L>): Outcome<L>
    decreases s
  {
    match s
    case If(c, body) =>
      (match Value(how, d, c, m)
       case None => Panic
       case Some(v) => if v != 0 then ExecAll(how, d, body, m) else Fall(m))
    case Advance(state, skip) => Goto(UInt16(state), skip, m)
    case AdvanceMap(pairs) =>
      (match Match(pairs, m.lookahead)
       case None => Fall(m)
       case Some(state) => Goto(UInt16(state), false, m))
    case Accept(symbol) => Fall(m.(result := true, lexer := d.accept(m.lexer, UInt16(symbol))))
    case EndState => Done(m.result, m.lexer)
    case Return(v) => Done(match v case ResultValue => m.result case TrueValue => true case FalseValue => false, m.lexer)
    case EofAssign => Fall(m.(eof := d.eof(m.lexer)))
  }

  /** The case a switch on `state` enters: the one with that label, or the default. */
  predicate HasLabel(c: Case, state: nat) { state in c.labels }

  function Labelled(cases: seq<Case>, state: nat): (k: nat)
    ensures k <= |cases|
    ensures k < |cases| ==> HasLabel(cases[k], state)
    ensures forall j :: 0 <= j < k ==> !HasLabel(cases[j], state)
  {
    if cases == [] then 0 else if HasLabel(cases[0], state) then 0 else 1 + Labelled(cases[1..], state)
  }

  function Default(cases: seq<Case>): (k: nat)
    ensures k <= |cases|
    ensures k < |cases| ==> cases[k].isDefault
    ensures forall j :: 0 <= j < k ==> !cases[j].isDefault
  {
    if cases == [] then 0 else if cases[0].isDefault then 0 else 1 + Default(cases[1..])
  }

  function Selected(cases: seq<Case>, state: nat): nat {
    if Labelled(cases, state) < |cases| then Labelled(cases, state) else Default(cases)
  }

  /** The body of a switch from its case k on: a case that does not leave falls into the next. */
  function Body(cases: seq<Case>, k: nat): seq<Stmt>
    decreases |cases| - k
  {
    if k >= |cases| then [] else cases[k].stmts + Body(cases, k + 1)
  }

  datatype Verdict<L> = Answered(answer: bool, lexer: L) | Crashed | OutOfFuel

  function Enter<L>(d: Device<L>, lexer: L, result: bool, eof: bool): Locals<L> {
    Locals(lexer, d.lookahead(lexer), result, eof)
  }

  /** One pass: the prologue, then the selected case. */
  function Pass<L>(how: Evaluation, d: Device<L>, fn: LexFunc, state: nat, m: Locals<L>): (o: Outcome<L>)
    ensures !o.Fall?
  {
    match ExecAll(how, d, fn.prologue, m)
    case Fall(m') =>
      (match ExecAll(how, d, Body(fn.cases, Selected(fn.cases, state)), m')
       case Fall(m'') => Done(m''.result, m''.lexer)
       case other => other)
    case other => other
  }

  /** The lex function run from `state` for at most `fuel` passes.  ADVANCE and SKIP move the
      lexer and start the next pass; result and eof survive between passes. */
  function Interpret<L>(how: Evaluation, d: Device<L>, fn: LexFunc, fuel: nat, state: nat, lexer: L, result: bool, eof: bool): Verdict<L>
    decreases fuel
  {
    if fuel == 0 then OutOfFuel else
    match Pass(how, d, fn, state, Enter(d, lexer, result, eof))
    case Done(b, l) => Answered(b, l)
    case Goto(next, skip, m) => Interpret(how, d, fn, fuel - 1, next, d.advance(m.lexer, skip), m.result, m.eof)
    case _ => Crashed
  }
}
