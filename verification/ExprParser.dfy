/** The generator's two expression parsers: one builds the tree of a lex condition
    (cmd/ts-translate/clexfn.go:158-234), its twin computes a constant (cmd/ts-translate/cexpr.go:23-184). */
module ExprParser {
  import opened EditSpec
  import opened Powers
  import opened LexFunctions

  datatype Token =
    | TNumber(val: int)
    | TChar(val: int)
    | TOp(op: BinaryOp)
    | TNot
    | TTilde
    | TOpen
    | TClose
    | TComma
    | TQuestion
    | TColon
    | TPunct(text: string)
    | TIdent(text: string)
    | TEnd

  /** The named constants of the file, and the index of each character set. */
  datatype Names = Names(consts: map<string, int>, sets: map<string, nat>)

  datatype Parse<T> = Fail | Got(value: T, pos: nat)

  /** A token list ends with its end mark, so a position inside it always has a token. */
  predicate Tokens(toks: seq<Token>) { |toks| > 0 && toks[|toks| - 1] == TEnd }

  function Precedence(op: BinaryOp): nat {
    match op
    case Or => 1
    case And => 2
    case BitOr => 3
    case Xor => 4
    case BitAnd => 5
    case Eq => 6 case Ne => 6
    case Lt => 7 case Gt => 7 case Le => 7 case Ge => 7
    case Shl => 8 case Shr => 8
    case Plus => 9 case Minus => 9
    case Times => 10 case Div => 10 case Mod => 10
  }

  const ATOM := 11

  function CastTypes(): set<string> {
    {"uint8_t", "uint16_t", "uint32_t", "uint64_t", "int8_t", "int16_t", "int32_t", "int64_t", "unsigned", "int",
     "short", "long", "char", "TSSymbol", "TSStateId", "TSFieldId", "size_t", "bool", "void"}
  }

  function CastWidth(name: string): Option<nat> {
    if name in {"uint8_t"} then Some(8)
    else if name in {"uint16_t", "TSSymbol", "TSStateId", "TSFieldId"} then Some(16)
    else if name in {"uint32_t"} then Some(32)
    else None
  }

  /** A cast to a type of known width keeps the low bits. */
  function Narrow(name: string, v: int): int {
    match CastWidth(name) case Some(w) => v % Pow2(w) case None => v
  }

  function Text(t: Token): string {
    match t case TIdent(s) => s case TPunct(s) => s case _ => ""
  }

  function Named<V>(m: map<string, V>, name: string, otherwise: V): V {
    if name in m then m[name] else otherwise
  }

  // ---------------------------------------------------------------- grammar

  function SkipStars(toks: seq<Token>, pos: nat): (r: nat)
    requires Tokens(toks) && pos < |toks|
    ensures pos <= r < |toks|
    decreases |toks| - pos
  {
    if toks[pos] == TOp(Times) then SkipStars(toks, pos + 1) else pos
  }

  /** A cast `(type **)` at pos: the type, and the position after it. */
  function Cast(toks: seq<Token>, pos: nat): (r: Parse<string>)
    requires Tokens(toks) && pos < |toks|
    ensures r.Got? ==> pos < r.pos < |toks|
  {
    if toks[pos] != TOpen || !toks[pos + 1].TIdent? || toks[pos + 1].text !in CastTypes() then Fail else
    var close := SkipStars(toks, pos + 2);
    if toks[close] == TClose then Got(toks[pos + 1].text, close + 1) else Fail
  }

  function Expect<T>(toks: seq<Token>, r: Parse<T>, t: Token): (s: Parse<T>)
    requires Tokens(toks) && t != TEnd && (r.Got? ==> r.pos < |toks|)
    ensures s.Got? ==> r.Got? && s == Got(r.value, r.pos + 1) && s.pos < |toks|
  {
    if r.Got? && toks[r.pos] == t then Got(r.value, r.pos + 1) else Fail
  }

  // The constant parser.

  function ConstTernary(env: Names, toks: seq<Token>, pos: nat): (r: Parse<int>)
    requires Tokens(toks) && pos < |toks|
    ensures r.Got? ==> pos < r.pos < |toks|
    decreases |toks| - pos, 3
  {
    match ConstExpr(env, toks, pos, 0)
    case Fail => Fail
    case Got(c, p) =>
      if toks[p] != TQuestion then Got(c, p) else
      match Expect(toks, ConstTernary(env, toks, p + 1), TColon)
      case Fail => Fail
      case Got(a, p2) =>
        match ConstTernary(env, toks, p2)
        case Fail => Fail
        case Got(b, p3) => Got(if c != 0 then a else b, p3)
  }

  function ConstExpr(env: Names, toks: seq<Token>, pos: nat, min: nat): (r: Parse<int>)
    requires Tokens(toks) && pos < |toks|
    ensures r.Got? ==> pos < r.pos < |toks|
    decreases |toks| - pos, 2
  {
    match ConstUnary(env, toks, pos)
    case Fail => Fail
    case Got(v, p) => ConstClimb(env, toks, v, p, min)
  }

  function ConstClimb(env: Names, toks: seq<Token>, left: int, pos: nat, min: nat): (r: Parse<int>)
    requires Tokens(toks) && pos < |toks|
    ensures r.Got? ==> pos <= r.pos < |toks|
    decreases |toks| - pos, 2
  {
    if !toks[pos].TOp? || Precedence(toks[pos].op) < min then Got(left, pos) else
    match ConstExpr(env, toks, pos + 1, Precedence(toks[pos].op) + 1)
    case Fail => Fail
    case Got(right, p) =>
      match ApplyBinary(toks[pos].op, left, right)
      case None => Fail
      case Some(v) => ConstClimb(env, toks, v, p, min)
  }

  function ConstUnary(env: Names, toks: seq<Token>, pos: nat): (r: Parse<int>)
    requires Tokens(toks) && pos < |toks|
    ensures r.Got? ==> pos < r.pos < |toks|
    decreases |toks| - pos, 1
  {
    match toks[pos]
    case TOp(Minus) => Mapped(ConstUnary(env, toks, pos + 1), v => Int64(-v))
    case TOp(Plus) => ConstUnary(env, toks, pos + 1)
    case TNot => Mapped(ConstUnary(env, toks, pos + 1), v => BoolInt(v == 0))
    case TTilde => Mapped(ConstUnary(env, toks, pos + 1), v => -1 - v)
    case _ => ConstPrimary(env, toks, pos)
  }

  function Mapped<T, U>(r: Parse<T>, f: T -> U): Parse<U> {
    match r case Fail => Fail case Got(v, p) => Got(f(v), p)
  }

  function ConstPrimary(env: Names, toks: seq<Token>, pos: nat): (r: Parse<int>)
    requires Tokens(toks) && pos < |toks|
    ensures r.Got? ==> pos < r.pos < |toks|
    decreases |toks| - pos, 0
  {
    match toks[pos]
    case TNumber(v) => Got(v, pos + 1)
    case TChar(v) => Got(v, pos + 1)
    case TOpen =>
      (match Cast(toks, pos)
       case Got(name, p) => Mapped(ConstUnary(env, toks, p), v => Narrow(name, v))
       case Fail => Expect(toks, ConstTernary(env, toks, pos + 1), TClose))
    case TIdent(name) =>
      if toks[pos + 1] == TOpen then
        (match Expect(toks, ConstArgs(env, toks, pos + 2), TClose)
         case Fail => Fail
         case Got(args, p) => match Macro(env, name, args) case None => Fail case Some(v) => Got(v, p))
      else if name in env.consts then Got(env.consts[name], pos + 1)
      else Fail
    case _ => Fail
  }

  function ConstArgs(env: Names, toks: seq<Token>, pos: nat): (r: Parse<seq<int>>)
    requires Tokens(toks) && pos < |toks|
    ensures r.Got? ==> pos <= r.pos < |toks|
    decreases |toks| - pos, 4
  {
    if toks[pos] == TClose then Got([], pos) else
    match ConstTernary(env, toks, pos)
    case Fail => Fail
    case Got(v, p) =>
      if toks[p] != TComma then Got([v], p) else Prepend([v], ConstArgs(env, toks, p + 1))
  }

  function Prepend(out: seq<int>, r: Parse<seq<int>>): Parse<seq<int>> {
    match r case Fail => Fail case Got(rest, p) => Got(out + rest, p)
  }

  lemma PrependTwice(a: seq<int>, b: seq<int>, r: Parse<seq<int>>)
    ensures Prepend(a, Prepend(b, r)) == Prepend(a + b, r) && Prepend([], r) == r
  {
    if r.Got? { assert a + (b + r.value) == a + b + r.value && [] + r.value == r.value; }
  }

  /** ACTIONS and STATE are their argument; a macro without one indexes past its arguments. */
  function Macro(env: Names, name: string, args: seq<int>): Option<int> {
    if args == [] then None
    else if name == "ACTIONS" || name == "STATE" then Some(args[0])
    else if name == "SMALL_STATE" then Some(Int64(args[0] - Named(env.consts, "LARGE_STATE_COUNT", 0)))
    else None
  }

  // The condition parser.

  function CondExpr(env: Names, toks: seq<Token>, pos: nat, min: nat): (r: Parse<Expr>)
    requires Tokens(toks) && pos < |toks|
    ensures r.Got? ==> pos < r.pos < |toks|
    decreases |toks| - pos, 2
  {
    match CondUnary(env, toks, pos)
    case Fail => Fail
    case Got(x, p) => CondClimb(env, toks, x, p, min)
  }

  function CondClimb(env: Names, toks: seq<Token>, left: Expr, pos: nat, min: nat): (r: Parse<Expr>)
    requires Tokens(toks) && pos < |toks|
    ensures r.Got? ==> pos <= r.pos < |toks|
    decreases |toks| - pos, 2
  {
    if !toks[pos].TOp? || Precedence(toks[pos].op) < min then Got(left, pos) else
    match CondExpr(env, toks, pos + 1, Precedence(toks[pos].op) + 1)
    case Fail => Fail
    case Got(right, p) => CondClimb(env, toks, Binary(toks[pos].op, left, right), p, min)
  }

  function CondUnary(env: Names, toks: seq<Token>, pos: nat): (r: Parse<Expr>)
    requires Tokens(toks) && pos < |toks|
    ensures r.Got? ==> pos < r.pos < |toks|
    decreases |toks| - pos, 1
  {
    match toks[pos]
    case TNot => Mapped(CondUnary(env, toks, pos + 1), x => Unary(Not, x))
    case TOp(Minus) => Mapped(CondUnary(env, toks, pos + 1), x => Unary(Neg, x))
    case TOp(Plus) => CondUnary(env, toks, pos + 1)
    case _ => CondPrimary(env, toks, pos)
  }

  function CondPrimary(env: Names, toks: seq<Token>, pos: nat): (r: Parse<Expr>)
    requires Tokens(toks) && pos < |toks|
    ensures r.Got? ==> pos < r.pos < |toks|
    decreases |toks| - pos, 0
  {
    match toks[pos]
    case TNumber(v) => Got(Lit(v), pos + 1)
    case TChar(v) => Got(Lit(v), pos + 1)
    case TOpen =>
      (match Cast(toks, pos)
       case Got(_, p) => CondUnary(env, toks, p)
       case Fail => Expect(toks, CondExpr(env, toks, pos + 1, 0), TClose))
    case TIdent(name) =>
      if name == "lookahead" then Got(Lookahead, pos + 1)
      else if name == "eof" then Got(Eof, pos + 1)
      else if name == "set_contains" then SetTest(env, toks, pos + 1)
      else if name in env.consts then Got(Lit(env.consts[name]), pos + 1)
      else Fail
    case _ => Fail
  }

  /** The arguments of set_contains: a set, its size, and the lookahead. */
  function SetTest(env: Names, toks: seq<Token>, pos: nat): (r: Parse<Expr>)
    requires Tokens(toks) && pos < |toks|
    ensures r.Got? ==> pos < r.pos < |toks|
    decreases |toks| - pos, 5
  {
    if toks[pos] != TOpen || toks[pos + 1] == TEnd || toks[pos + 2] != TComma then Fail else
    match Expect(toks, ConstTernary(env, toks, pos + 3), TComma)
    case Fail => Fail
    case Got(_, p) =>
      if toks[p] == TIdent("lookahead") && toks[p + 1] == TClose
      then Got(InSet(Named(env.sets, Text(toks[pos + 1]), 0)), p + 2)
      else Fail
  }

  // ---------------------------------------------------------------- the parser

  /** cParser: the token list and a position that only moves forward.  None is a panic. */
  class CParser {
    const toks: seq<Token>
    const names: Names
    var pos: nat

    ghost predicate Valid()
      reads this
    {
      Tokens(toks) && pos < |toks|
    }

    constructor (toks: seq<Token>, names: Names)
      requires Tokens(toks)
      ensures Valid() && this.toks == toks && this.names == names && pos == 0
    {
      this.toks, this.names, pos := toks, names, 0;
    }

    method Advance() returns (t: Token)
      requires Valid()
      modifies this
      ensures Valid() && t == toks[old(pos)] && pos == if t == TEnd then old(pos) else old(pos) + 1
    {
      t := toks[pos];
      if t != TEnd { pos := pos + 1; }
    }

    method Accept(t: Token) returns (found: bool)
      requires Valid() && t != TEnd
      modifies this
      ensures Valid() && found == (toks[old(pos)] == t) && pos == if found then old(pos) + 1 else old(pos)
    {
      found := toks[pos] == t;
      if found { var _ := Advance(); }
    }

    /** `(type **)`: on anything else the position is put back. */
    method AcceptCast() returns (name: Option<string>)
      requires Valid()
      modifies this
      ensures Valid()
      ensures name == match Cast(toks, old(pos)) case Fail => None case Got(n, _) => Some(n)
      ensures pos == match Cast(toks, old(pos)) case Fail => old(pos) case Got(_, p) => p
    {
      var save := pos;
      var open := Accept(TOpen);
      if !open { return None; }
      var t := toks[pos];
      if t.TIdent? && t.text in CastTypes() {
        var _ := Advance();
        while toks[pos] == TOp(Times)
          invariant Valid() && pos >= save + 2 && SkipStars(toks, pos) == SkipStars(toks, save + 2)
          decreases |toks| - pos
        {
          var _ := Advance();
        }
        var closed := Accept(TClose);
        if closed { return Some(t.text); }
      }
      pos := save;
      return None;
    }

    method ParseLexExpr(min: nat) returns (e: Option<Expr>)
      requires Valid()
      modifies this
      ensures Valid() && pos >= old(pos)
      ensures Agrees(e, CondExpr(names, toks, old(pos), min), pos)
      decreases |toks| - pos, 2
    {
      e := ParseLexUnary();
      if e.None? { return; }
      ghost var whole := CondExpr(names, toks, old(pos), min);
      var left := e.value;
      while toks[pos].TOp? && Precedence(toks[pos].op) >= min
        invariant Valid() && pos > old(pos) && whole == CondClimb(names, toks, left, pos, min)
        decreases |toks| - pos
      {
        var t := Advance();
        var right := ParseLexExpr(Precedence(t.op) + 1);
        if right.None? { return None; }
        left := Binary(t.op, left, right.value);
      }
      return Some(left);
    }

    method ParseLexUnary() returns (e: Option<Expr>)
      requires Valid()
      modifies this
      ensures Valid() && pos >= old(pos)
      ensures Agrees(e, CondUnary(names, toks, old(pos)), pos)
      decreases |toks| - pos, 1
    {
      match toks[pos] {
        case TNot =>
          var _ := Advance();
          var x := ParseLexUnary();
          return if x.Some? then Some(Unary(Not, x.value)) else None;
        case TOp(Minus) =>
          var _ := Advance();
          var x := ParseLexUnary();
          return if x.Some? then Some(Unary(Neg, x.value)) else None;
        case TOp(Plus) =>
          var _ := Advance();
          e := ParseLexUnary();
        case _ =>
          e := ParseLexPrimary();
      }
    }

    method ParseLexPrimary() returns (e: Option<Expr>)
      requires Valid()
      modifies this
      ensures Valid() && pos >= old(pos)
      ensures Agrees(e, CondPrimary(names, toks, old(pos)), pos)
      decreases |toks| - pos, 0
    {
      match toks[pos] {
        case TNumber(v) =>
          var _ := Advance();
          return Some(Lit(v));
        case TChar(v) =>
          var _ := Advance();
          return Some(Lit(v));
        case TOpen =>
          var cast := AcceptCast();
          if cast.Some? {
            e := ParseLexUnary();
            return;
          }
          var _ := Advance();
          e := ParseLexExpr(0);
          if e.Some? {
            var closed := Accept(TClose);
            if !closed { return None; }
          }
        case TIdent(name) =>
          var _ := Advance();
          if name == "lookahead" { return Some(Lookahead); }
          if name == "eof" { return Some(Eof); }
          if name == "set_contains" {
            e := ParseSetTest();
            return;
          }
          return if name in names.consts then Some(Lit(names.consts[name])) else None;
        case _ => return None;
      }
    }

    method ParseSetTest() returns (e: Option<Expr>)
      requires Valid()
      modifies this
      ensures Valid() && pos >= old(pos)
      ensures Agrees(e, SetTest(names, toks, old(pos)), pos)
      decreases |toks| - pos, 5
    {
      var ok := Accept(TOpen);
      if !ok { return None; }
      var set_ := Advance();
      ok := Accept(TComma);
      if !ok { return None; }
      var n := ParseTernary();
      if n.None? { return None; }
      ok := Accept(TComma);
      if !ok { return None; }
      ok := Accept(TIdent("lookahead"));
      if !ok { return None; }
      ok := Accept(TClose);
      if !ok { return None; }
      return Some(InSet(Named(names.sets, Text(set_), 0)));
    }

    method ParseTernary() returns (v: Option<int>)
      requires Valid()
      modifies this
      ensures Valid() && pos >= old(pos)
      ensures Agrees(v, ConstTernary(names, toks, old(pos)), pos)
      decreases |toks| - pos, 3
    {
      var cond := ParseBinaryExpr(0);
      if cond.None? { return None; }
      var asked := Accept(TQuestion);
      if !asked { return cond; }
      var a := ParseTernary();
      if a.None? { return None; }
      var ok := Accept(TColon);
      if !ok { return None; }
      var b := ParseTernary();
      if b.None? { return None; }
      return if cond.value != 0 then a else b;
    }

    method ParseBinaryExpr(min: nat) returns (v: Option<int>)
      requires Valid()
      modifies this
      ensures Valid() && pos >= old(pos)
      ensures Agrees(v, ConstExpr(names, toks, old(pos), min), pos)
      decreases |toks| - pos, 2
    {
      hide ApplyBinary;
      v := ParseUnaryExpr();
      if v.None? { return; }
      ghost var whole := ConstExpr(names, toks, old(pos), min);
      var left := v.value;
      while toks[pos].TOp? && Precedence(toks[pos].op) >= min
        invariant Valid() && pos > old(pos) && whole == ConstClimb(names, toks, left, pos, min)
        decreases |toks| - pos
      {
        var t := Advance();
        var right := ParseBinaryExpr(Precedence(t.op) + 1);
        if right.None? { return None; }
        var w := ApplyBinary(t.op, left, right.value);
        if w.None? { return None; }
        left := w.value;
      }
      return Some(left);
    }

    method ParseUnaryExpr() returns (v: Option<int>)
      requires Valid()
      modifies this
      ensures Valid() && pos >= old(pos)
      ensures Agrees(v, ConstUnary(names, toks, old(pos)), pos)
      decreases |toks| - pos, 1
    {
      hide ConstPrimary, Int64;
      match toks[pos] {
        case TOp(Minus) =>
          var _ := Advance();
          var x := ParseUnaryExpr();
          return if x.Some? then Some(Int64(-x.value)) else None;
        case TOp(Plus) =>
          var _ := Advance();
          v := ParseUnaryExpr();
        case TNot =>
          var _ := Advance();
          var x := ParseUnaryExpr();
          return if x.Some? then Some(BoolInt(x.value == 0)) else None;
        case TTilde =>
          var _ := Advance();
          var x := ParseUnaryExpr();
          return if x.Some? then Some(-1 - x.value) else None;
        case _ =>
          v := ParsePrimary();
      }
    }

    method ParsePrimary() returns (v: Option<int>)
      requires Valid()
      modifies this
      ensures Valid() && pos >= old(pos)
      ensures Agrees(v, ConstPrimary(names, toks, old(pos)), pos)
      decreases |toks| - pos, 0
    {
      match toks[pos] {
        case TNumber(n) =>
          var _ := Advance();
          return Some(n);
        case TChar(n) =>
          var _ := Advance();
          return Some(n);
        case TOpen =>
          var cast := AcceptCast();
          if cast.Some? {
            var x := ParseUnaryExpr();
            return if x.Some? then Some(Narrow(cast.value, x.value)) else None;
          }
          var _ := Advance();
          v := ParseTernary();
          if v.Some? {
            var closed := Accept(TClose);
            if !closed { return None; }
          }
        case TIdent(name) =>
          var _ := Advance();
          var call := Accept(TOpen);
          if call {
            var args := ParseArgs();
            if args.None? { return None; }
            var closed := Accept(TClose);
            return if closed then Macro(names, name, args.value) else None;
          }
          return if name in names.consts then Some(names.consts[name]) else None;
        case _ => return None;
      }
    }

    method ParseArgs() returns (args: Option<seq<int>>)
      requires Valid()
      modifies this
      ensures Valid() && pos >= old(pos)
      ensures Agrees(args, ConstArgs(names, toks, old(pos)), pos)
      decreases |toks| - pos, 4
    {
      hide ConstTernary, Tokens;
      var out: seq<int> := [];
      ghost var whole := ConstArgs(names, toks, pos);
      PrependTwice([], [], whole);
      while toks[pos] != TClose
        invariant Valid() && pos >= old(pos)
        invariant whole == Prepend(out, ConstArgs(names, toks, pos))
        decreases |toks| - pos
      {
        ghost var before := out;
        var v := ParseTernary();
        if v.None? { return None; }
        out := out + [v.value];
        var more := Accept(TComma);
        if !more { return Some(out); }
        PrependTwice(before, [v.value], ConstArgs(names, toks, pos));
      }
      assert out + [] == out;
      return Some(out);
    }
  }

  /** A method's answer and final position against the grammar's. */
  ghost predicate Agrees<T(!new)>(v: Option<T>, r: Parse<T>, pos: nat) {
    match r case Fail => v == None case Got(w, p) => v == Some(w) && pos == p
  }
}
