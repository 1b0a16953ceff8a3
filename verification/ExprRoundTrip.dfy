/** Printing a condition with as few parentheses as C's precedence allows (section 6.5 of C11) and
    parsing it back gives the same condition, and the constant parser computes its value. */
module ExprRoundTrip {
  import opened EditSpec
  import opened LexFunctions
  import opened ExprParser

  /** How tightly a condition holds together at its outermost operator. */
  function Outer(e: Expr): nat {
    match e case Binary(op, _, _) => Precedence(op) case _ => ATOM
  }

  /** A name for every set: set_contains is printed with it. */
  datatype Printing = Printing(name: nat -> string, size: nat -> int)

  function Tok(op: UnaryOp): Token { match op case Not => TNot case Neg => TOp(Minus) }

  /** The tokens of a condition where only operators at least as tight as q may stand bare. */
  function Shown(pr: Printing, e: Expr, q: nat): seq<Token>
    decreases e, 1
  {
    if Outer(e) < q then [TOpen] + Plain(pr, e) + [TClose] else Plain(pr, e)
  }

  function Plain(pr: Printing, e: Expr): seq<Token>
    decreases e, 0
  {
    match e
    case Lit(v) => [TNumber(v)]
    case Lookahead => [TIdent("lookahead")]
    case Eof => [TIdent("eof")]
    case InSet(s) =>
      [TIdent("set_contains"), TOpen, TIdent(pr.name(s)), TComma, TNumber(pr.size(s)), TComma, TIdent("lookahead"), TClose]
    case Unary(op, x) => [Tok(op)] + Shown(pr, x, ATOM)
    case Binary(op, l, r) => Shown(pr, l, Precedence(op)) + [TOp(op)] + Shown(pr, r, Precedence(op) + 1)
  }

  /** The file knows every set of the condition by the name it is printed with. */
  predicate Resolves(env: Names, pr: Printing, e: Expr) {
    match e
    case InSet(s) => pr.name(s) in env.sets && env.sets[pr.name(s)] == s
    case Unary(_, x) => Resolves(env, pr, x)
    case Binary(_, l, r) => Resolves(env, pr, l) && Resolves(env, pr, r)
    case _ => true
  }

  predicate At(toks: seq<Token>, pos: nat, seg: seq<Token>) {
    pos + |seg| <= |toks| && forall i :: 0 <= i < |seg| ==> toks[pos + i] == seg[i]
  }

  lemma AtSplit(toks: seq<Token>, pos: nat, a: seq<Token>, b: seq<Token>)
    requires At(toks, pos, a + b)
    ensures At(toks, pos, a) && At(toks, pos + |a|, b)
  {
    assert forall i :: 0 <= i < |a| ==> a[i] == (a + b)[i];
    forall i | 0 <= i < |b| ensures toks[pos + |a| + i] == b[i] {
      assert toks[pos + (|a| + i)] == (a + b)[|a| + i] == b[i];
    }
  }

  /** What follows does not pull the last operand of e away. */
  predicate Separate(t: Token, e: Expr, q: nat) {
    t.TOp? && q <= Outer(e) ==> Precedence(t.op) <= Outer(e)
  }

  lemma {:induction false} NotEnd(pr: Printing, e: Expr)
    ensures |Plain(pr, e)| > 0 && Plain(pr, e)[0] != TEnd
    ensures Plain(pr, e)[0].TIdent? ==> Plain(pr, e)[0].text !in CastTypes()
  {
    match e
    case Binary(op, l, r) =>
      if Outer(l) >= Precedence(op) { NotEnd(pr, l); }
    case _ =>
  }

  /** Parsing a bare condition leaves the parser where it would stand with that condition as its
      left operand, whatever looser minimum it was asked for. */
  lemma {:induction false} PlainParses(env: Names, pr: Printing, toks: seq<Token>, pos: nat, e: Expr, min: nat)
    requires Tokens(toks) && Resolves(env, pr, e) && min <= Outer(e)
    requires At(toks, pos, Plain(pr, e)) && pos + |Plain(pr, e)| < |toks|
    requires Separate(toks[pos + |Plain(pr, e)|], e, 0)
    ensures CondExpr(env, toks, pos, min) == CondClimb(env, toks, e, pos + |Plain(pr, e)|, min)
    decreases e, 2
  {
    hide CondExpr, CondClimb, CondUnary, CastTypes, At;
    if e.Binary? {
      var op, l, r := e.op, e.l, e.r;
      var p := Precedence(op);
      var left, right := Shown(pr, l, p), Shown(pr, r, p + 1);
      AtSplit(toks, pos, left + [TOp(op)], right);
      AtSplit(toks, pos, left, [TOp(op)]);
      var at := pos + |left|;
      AtOne(toks, at, TOp(op));
      ShownParses(env, pr, toks, pos, l, p, min);
      ShownParses(env, pr, toks, at + 1, r, p + 1, p + 1);
      ClimbStops(env, toks, r, at + 1 + |right|, p + 1);
      ClimbStep(env, toks, l, at, min, r, at + 1 + |right|);
    } else {
      UnaryPlain(env, pr, toks, pos, e);
      ExprFromUnary(env, toks, pos, e, pos + |Plain(pr, e)|, min);
    }
  }

  lemma AtOne(toks: seq<Token>, pos: nat, t: Token)
    requires At(toks, pos, [t])
    ensures pos < |toks| && toks[pos] == t
  {
    assert toks[pos + 0] == [t][0];
  }

  lemma ClimbStep(env: Names, toks: seq<Token>, left: Expr, pos: nat, min: nat, right: Expr, end: nat)
    requires Tokens(toks) && pos < |toks| && toks[pos].TOp? && Precedence(toks[pos].op) >= min
    requires CondExpr(env, toks, pos + 1, Precedence(toks[pos].op) + 1) == Got(right, end)
    ensures end < |toks|
    ensures CondClimb(env, toks, left, pos, min) == CondClimb(env, toks, Binary(toks[pos].op, left, right), end, min)
  {
    hide CondExpr;
  }

  lemma ExprFromUnary(env: Names, toks: seq<Token>, pos: nat, e: Expr, end: nat, min: nat)
    requires Tokens(toks) && pos < |toks| && CondUnary(env, toks, pos) == Got(e, end)
    ensures end < |toks| && CondExpr(env, toks, pos, min) == CondClimb(env, toks, e, end, min)
  {
    hide CondUnary, CondClimb;
  }

  lemma ParenStep(env: Names, toks: seq<Token>, pos: nat, e: Expr, close: nat)
    requires Tokens(toks) && pos < close < |toks| - 1 && toks[pos] == TOpen && toks[close] == TClose
    requires Cast(toks, pos) == Fail && CondExpr(env, toks, pos + 1, 0) == Got(e, close)
    ensures CondUnary(env, toks, pos) == Got(e, close + 1)
  {
    hide CondExpr, Cast;
  }

  lemma UnaryNext(env: Names, toks: seq<Token>, pos: nat, op: UnaryOp, x: Expr, end: nat)
    requires Tokens(toks) && pos + 1 < |toks| && toks[pos] == Tok(op) && CondUnary(env, toks, pos + 1) == Got(x, end)
    ensures CondUnary(env, toks, pos) == Got(Unary(op, x), end)
  {
    hide CondPrimary;
  }

  lemma ClimbStops(env: Names, toks: seq<Token>, e: Expr, pos: nat, min: nat)
    requires Tokens(toks) && pos < |toks| && (toks[pos].TOp? ==> Precedence(toks[pos].op) < min)
    ensures CondClimb(env, toks, e, pos, min) == Got(e, pos)
  {
  }

  lemma LeafParses(env: Names, pr: Printing, toks: seq<Token>, pos: nat, e: Expr)
    requires Tokens(toks) && Resolves(env, pr, e) && !e.Unary? && !e.Binary?
    requires At(toks, pos, Plain(pr, e)) && pos + |Plain(pr, e)| < |toks|
    ensures CondUnary(env, toks, pos) == Got(e, pos + |Plain(pr, e)|)
  {
    var seg := Plain(pr, e);
    assert toks[pos + 0] == seg[0];
    if e.InSet? {
      assert toks[pos + 1] == seg[1] && toks[pos + 2] == seg[2] && toks[pos + 3] == seg[3] && toks[pos + 4] == seg[4];
      assert toks[pos + 5] == seg[5] && toks[pos + 6] == seg[6] && toks[pos + 7] == seg[7];
      var v := pr.size(e.index);
      assert ConstPrimary(env, toks, pos + 4) == Got(v, pos + 5);
      assert ConstUnary(env, toks, pos + 4) == Got(v, pos + 5);
      assert ConstClimb(env, toks, v, pos + 5, 0) == Got(v, pos + 5);
      assert ConstTernary(env, toks, pos + 4) == Got(v, pos + 5);
      assert SetTest(env, toks, pos + 1) == Got(e, pos + 8);
    }
  }

  /** Inside parentheses anything parses back; the parentheses are no cast. */
  lemma {:induction false} Parenthesised(env: Names, pr: Printing, toks: seq<Token>, pos: nat, e: Expr)
    requires Tokens(toks) && Resolves(env, pr, e)
    requires At(toks, pos, [TOpen] + Plain(pr, e) + [TClose])
    requires pos + |Plain(pr, e)| + 2 < |toks|
    ensures CondUnary(env, toks, pos) == Got(e, pos + |Plain(pr, e)| + 2)
    decreases e, 3
  {
    hide CondExpr, CondClimb, CondUnary, CastTypes, Plain;
    AtSplit(toks, pos, [TOpen] + Plain(pr, e), [TClose]);
    AtSplit(toks, pos, [TOpen], Plain(pr, e));
    AtOne(toks, pos, TOpen);
    NotEnd(pr, e);
    assert toks[pos + 1 + 0] == Plain(pr, e)[0];
    assert Cast(toks, pos) == Fail;
    var close := pos + 1 + |Plain(pr, e)|;
    AtOne(toks, close, TClose);
    PlainParses(env, pr, toks, pos + 1, e, 0);
    ClimbStops(env, toks, e, close, 0);
    ParenStep(env, toks, pos, e, close);
  }

  lemma {:induction false} ShownParses(env: Names, pr: Printing, toks: seq<Token>, pos: nat, e: Expr, q: nat, min: nat)
    requires Tokens(toks) && Resolves(env, pr, e) && min <= q
    requires At(toks, pos, Shown(pr, e, q)) && pos + |Shown(pr, e, q)| < |toks|
    requires Separate(toks[pos + |Shown(pr, e, q)|], e, q)
    ensures CondExpr(env, toks, pos, min) == CondClimb(env, toks, e, pos + |Shown(pr, e, q)|, min)
    decreases e, 4
  {
    hide CondExpr, CondClimb, CondUnary, At, Plain;
    if Outer(e) < q {
      Parenthesised(env, pr, toks, pos, e);
      ExprFromUnary(env, toks, pos, e, pos + |Shown(pr, e, q)|, min);
    } else {
      PlainParses(env, pr, toks, pos, e, min);
    }
  }

  lemma {:induction false} ShownUnary(env: Names, pr: Printing, toks: seq<Token>, pos: nat, e: Expr)
    requires Tokens(toks) && Resolves(env, pr, e)
    requires At(toks, pos, Shown(pr, e, ATOM)) && pos + |Shown(pr, e, ATOM)| < |toks|
    ensures CondUnary(env, toks, pos) == Got(e, pos + |Shown(pr, e, ATOM)|)
    decreases e, 4
  {
    hide CondUnary, At, Plain;
    if Outer(e) < ATOM {
      Parenthesised(env, pr, toks, pos, e);
    } else {
      UnaryPlain(env, pr, toks, pos, e);
    }
  }

  lemma {:induction false} UnaryPlain(env: Names, pr: Printing, toks: seq<Token>, pos: nat, e: Expr)
    requires Tokens(toks) && Resolves(env, pr, e) && !e.Binary?
    requires At(toks, pos, Plain(pr, e)) && pos + |Plain(pr, e)| < |toks|
    ensures CondUnary(env, toks, pos) == Got(e, pos + |Plain(pr, e)|)
    decreases e, 1
  {
    hide CondUnary, At;
    if e.Unary? {
      AtSplit(toks, pos, [Tok(e.uop)], Shown(pr, e.x, ATOM));
      AtOne(toks, pos, Tok(e.uop));
      ShownUnary(env, pr, toks, pos + 1, e.x);
      UnaryNext(env, toks, pos, e.uop, e.x, pos + |Plain(pr, e)|);
    } else {
      LeafParses(env, pr, toks, pos, e);
    }
  }

  /** The round trip: a printed condition followed by the end, or by anything that is no operator,
      is parsed back to itself and to its own end. */
  lemma PrintedParsesBack(env: Names, pr: Printing, e: Expr, pre: seq<Token>, rest: seq<Token>)
    requires Resolves(env, pr, e) && Tokens(rest) && !rest[0].TOp?
    ensures Tokens(pre + Plain(pr, e) + rest)
    ensures CondExpr(env, pre + Plain(pr, e) + rest, |pre|, 0) == Got(e, |pre| + |Plain(pr, e)|)
  {
    hide CondExpr, CondClimb, Plain;
    var toks := pre + Plain(pr, e) + rest;
    var end := |pre| + |Plain(pr, e)|;
    assert toks[end] == rest[0];
    assert toks[|toks| - 1] == rest[|rest| - 1];
    PlainParses(env, pr, toks, |pre|, e, 0);
    ClimbStops(env, toks, e, end, 0);
  }

  const SET_TEST: Expr := Binary(And, InSet(0), Unary(Not, Eof))
  const SET_TEST_TOKENS: seq<Token> := [TIdent("set_contains"), TOpen, TIdent("a"), TComma, TNumber(3), TComma,
                                        TIdent("lookahead"), TClose, TOp(And), TNot, TIdent("eof")]

  lemma SetTestTokens(pr: Printing)
    requires pr.name(0) == "a" && pr.size(0) == 3
    ensures Plain(pr, SET_TEST) == SET_TEST_TOKENS
  {
    assert Shown(pr, Eof, ATOM) == [TIdent("eof")];
    assert Shown(pr, Unary(Not, Eof), Precedence(And) + 1) == [TNot] + [TIdent("eof")];
    assert Shown(pr, InSet(0), Precedence(And)) == Plain(pr, InSet(0));
  }

  /** For instance `set_contains(a, 3, lookahead) && !eof`, in a file whose set a is set 0. */
  lemma SetTestParsesBack(rest: seq<Token>)
    requires Tokens(rest) && !rest[0].TOp?
    ensures Tokens(SET_TEST_TOKENS + rest)
    ensures CondExpr(Names(map[], map["a" := 0]), SET_TEST_TOKENS + rest, 0, 0) == Got(SET_TEST, |SET_TEST_TOKENS|)
  {
    var env := Names(map[], map["a" := 0]);
    var pr := Printing((s: nat) => "a", (s: nat) => 3);
    SetTestTokens(pr);
    assert Resolves(env, pr, SET_TEST);
    hide CondExpr, Plain, Resolves;
    PrintedParsesBack(env, pr, SET_TEST, [], rest);
    assert [] + Plain(pr, SET_TEST) + rest == SET_TEST_TOKENS + rest;
  }

  // ---------------------------------------------------------------- the twin

  /** Tokens the two parsers treat alike: no name, no `~`, no `?`. */
  predicate Shared(toks: seq<Token>) {
    forall t :: t in toks ==> !t.TIdent? && t != TTilde && t != TQuestion
  }

  /** The value of a parsed condition, when it has one. */
  function ValueOf<L>(d: Device<L>, m: Locals<L>, r: Parse<Expr>): Parse<int> {
    match r
    case Fail => Fail
    case Got(e, p) => match EvalStrict(d, e, m) case None => Fail case Some(v) => Got(v, p)
  }

  /** On any such tokens, at any position and minimum, the constant parser answers the value of the
      condition the other parser builds, and fails when that parser fails or the value divides by zero. */
  lemma {:induction false} ParsersAgree<L>(env: Names, toks: seq<Token>, pos: nat, min: nat, d: Device<L>, m: Locals<L>)
    requires Tokens(toks) && Shared(toks) && pos < |toks|
    ensures ConstExpr(env, toks, pos, min) == ValueOf(d, m, CondExpr(env, toks, pos, min))
    decreases |toks| - pos, 2
  {
    UnaryAgrees(env, toks, pos, d, m);
    var r := CondUnary(env, toks, pos);
    if r.Got? {
      ClimbAgrees(env, toks, r.value, r.pos, min, d, m);
    }
  }

  lemma {:induction false} ClimbAgrees<L>(env: Names, toks: seq<Token>, left: Expr, pos: nat, min: nat, d: Device<L>,
                                          m: Locals<L>)
    requires Tokens(toks) && Shared(toks) && pos < |toks|
    ensures var v := EvalStrict(d, left, m);
      ValueOf(d, m, CondClimb(env, toks, left, pos, min))
      == if v.Some? then ConstClimb(env, toks, v.value, pos, min) else Fail
    decreases |toks| - pos, 2
  {
    hide ApplyBinary;
    if toks[pos].TOp? && Precedence(toks[pos].op) >= min {
      var op := toks[pos].op;
      ParsersAgree(env, toks, pos + 1, Precedence(op) + 1, d, m);
      var r := CondExpr(env, toks, pos + 1, Precedence(op) + 1);
      if r.Got? {
        ClimbAgrees(env, toks, Binary(op, left, r.value), r.pos, min, d, m);
      }
    }
  }

  lemma {:induction false} UnaryAgrees<L>(env: Names, toks: seq<Token>, pos: nat, d: Device<L>, m: Locals<L>)
    requires Tokens(toks) && Shared(toks) && pos < |toks|
    ensures ConstUnary(env, toks, pos) == ValueOf(d, m, CondUnary(env, toks, pos))
    decreases |toks| - pos, 1
  {
    assert toks[pos] in toks;
    if toks[pos] in {TNot, TOp(Minus), TOp(Plus)} {
      UnaryAgrees(env, toks, pos + 1, d, m);
    } else {
      PrimaryAgrees(env, toks, pos, d, m);
    }
  }

  lemma {:induction false} PrimaryAgrees<L>(env: Names, toks: seq<Token>, pos: nat, d: Device<L>, m: Locals<L>)
    requires Tokens(toks) && Shared(toks) && pos < |toks|
    ensures ConstPrimary(env, toks, pos) == ValueOf(d, m, CondPrimary(env, toks, pos))
    decreases |toks| - pos, 0
  {
    assert toks[pos] in toks;
    if toks[pos] == TOpen {
      assert toks[pos + 1] in toks;
      assert Cast(toks, pos) == Fail;
      ParsersAgree(env, toks, pos + 1, 0, d, m);
      var r := ConstExpr(env, toks, pos + 1, 0);
      if r.Got? { assert toks[r.pos] in toks; }
    }
  }

  predicate LiteralsOnly(e: Expr) {
    match e
    case Lit(_) => true
    case Unary(_, x) => LiteralsOnly(x)
    case Binary(_, l, r) => LiteralsOnly(l) && LiteralsOnly(r)
    case _ => false
  }

  lemma {:induction false} LiteralsShared(pr: Printing, e: Expr)
    requires LiteralsOnly(e)
    ensures Shared(Plain(pr, e))
    ensures forall env :: Resolves(env, pr, e)
  {
    match e
    case Unary(op, x) => LiteralsShared(pr, x);
    case Binary(op, l, r) =>
      LiteralsShared(pr, l);
      LiteralsShared(pr, r);
    case _ =>
  }

  /** The constant parser on a printed literal-only condition gives the condition's value. */
  lemma PrintedValue<L>(env: Names, pr: Printing, e: Expr, rest: seq<Token>, d: Device<L>, m: Locals<L>)
    requires LiteralsOnly(e) && Tokens(rest) && !rest[0].TOp? && Shared(rest)
    ensures Tokens(Plain(pr, e) + rest)
    ensures ConstExpr(env, Plain(pr, e) + rest, 0, 0)
         == match EvalStrict(d, e, m) case None => Fail case Some(v) => Got(v, |Plain(pr, e)|)
  {
    hide ConstExpr, CondExpr, Plain;
    LiteralsShared(pr, e);
    PrintedParsesBack(env, pr, e, [], rest);
    var toks := Plain(pr, e) + rest;
    assert [] + Plain(pr, e) + rest == toks;
    ParsersAgree(env, toks, 0, 0, d, m);
  }
}
