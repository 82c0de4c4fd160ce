/**
  Kconfig expressions in tools/kconfiglib.py: their value, `expr_str`, the recursive-descent parser,
  the simplifying constructors, and the escaping of strings.

  Printing works on tokens here.  The theorem is that parsing what was printed gives an expression that
  has the same value under every assignment, and the very same tree if chains of the same operator are
  nested to the right, as the parser nests them.
 */
module KconfigExprSpec {
  import opened Kconfig

  // The tokens of an expression; `End` is the None that ends every token list.
  datatype Token = Sym(id: Id) | T_AND | T_OR | T_NOT | T_REL(rel: Rel) | OPEN | CLOSE | End

  // ----- values

  // The value of an expression whose symbols have the values `v`; `compare` orders two symbols.
  function Sem(e: Expr, v: Id -> int, compare: (Id, Id) -> int): int {
    match e
    case Leaf(id) => v(id)
    case And(l, r) => Min(Sem(l, v, compare), Sem(r, v, compare))
    case Or(l, r) => Max(Sem(l, v, compare), Sem(r, v, compare))
    case Not(x) => Y - Sem(x, v, compare)
    case Relation(rel, a, b) => if RelHolds(rel, compare(a, b)) then Y else N
  }

  ghost predicate Tristate(v: Id -> int) { forall id :: N <= v(id) <= Y }

  lemma {:induction false} SemRange(e: Expr, v: Id -> int, compare: (Id, Id) -> int)
    requires Tristate(v)
    ensures N <= Sem(e, v, compare) <= Y
    decreases e
  {
    match e
    case And(l, r) => SemRange(l, v, compare); SemRange(r, v, compare);
    case Or(l, r) => SemRange(l, v, compare); SemRange(r, v, compare);
    case Not(x) => SemRange(x, v, compare);
    case _ =>
  }

  // expr_value, which does not look at the second operand when the first decides.
  function ExprValue(e: Expr, v: Id -> int, compare: (Id, Id) -> int): int {
    match e
    case Leaf(id) => v(id)
    case And(l, r) => var v1 := ExprValue(l, v, compare); if v1 == N then N else Min(v1, ExprValue(r, v, compare))
    case Or(l, r) => var v1 := ExprValue(l, v, compare); if v1 == Y then Y else Max(v1, ExprValue(r, v, compare))
    case Not(x) => Y - ExprValue(x, v, compare)
    case Relation(rel, a, b) => if RelHolds(rel, compare(a, b)) then Y else N
  }

  lemma {:induction false} ShortCircuitsAreRight(e: Expr, v: Id -> int, compare: (Id, Id) -> int)
    requires Tristate(v)
    ensures ExprValue(e, v, compare) == Sem(e, v, compare)
    decreases e
  {
    match e
    case And(l, r) =>
      ShortCircuitsAreRight(l, v, compare);
      ShortCircuitsAreRight(r, v, compare);
      SemRange(r, v, compare);
    case Or(l, r) =>
      ShortCircuitsAreRight(l, v, compare);
      ShortCircuitsAreRight(r, v, compare);
      SemRange(r, v, compare);
    case Not(x) => ShortCircuitsAreRight(x, v, compare);
    case _ =>
  }

  // _make_and and _make_or; `y` and `n` are the constant symbols.
  function MakeAnd(y: Id, n: Id, a: Expr, b: Expr): Expr {
    if a == Leaf(y) then b else if b == Leaf(y) then a else if a == Leaf(n) || b == Leaf(n) then Leaf(n) else And(a, b)
  }

  function MakeOr(y: Id, n: Id, a: Expr, b: Expr): Expr {
    if a == Leaf(n) then b else if b == Leaf(n) then a else if a == Leaf(y) || b == Leaf(y) then Leaf(y) else Or(a, b)
  }

  // The simplifications never change a value.
  lemma MakeKeepsValue(y: Id, n: Id, a: Expr, b: Expr, v: Id -> int, compare: (Id, Id) -> int)
    requires Tristate(v) && v(y) == Y && v(n) == N
    ensures Sem(MakeAnd(y, n, a, b), v, compare) == Sem(And(a, b), v, compare)
    ensures Sem(MakeOr(y, n, a, b), v, compare) == Sem(Or(a, b), v, compare)
  {
    SemRange(a, v, compare);
    SemRange(b, v, compare);
  }

  // A constant operand never stays.
  lemma MakeSimplifies(y: Id, n: Id, a: Expr, b: Expr)
    requires y != n
    ensures var e := MakeAnd(y, n, a, b);
      && (a == Leaf(n) || b == Leaf(n) ==> e == Leaf(n)) && (a == Leaf(y) ==> e == b) && (b == Leaf(y) ==> e == a)
      && (a !in {Leaf(y), Leaf(n)} && b !in {Leaf(y), Leaf(n)} ==> e == And(a, b))
    ensures var e := MakeOr(y, n, a, b);
      && (a == Leaf(y) || b == Leaf(y) ==> e == Leaf(y)) && (a == Leaf(n) ==> e == b) && (b == Leaf(n) ==> e == a)
      && (a !in {Leaf(y), Leaf(n)} && b !in {Leaf(y), Leaf(n)} ==> e == Or(a, b))
  {
  }

  // ----- printing

  // expr_str
  function Print(e: Expr): seq<Token>
    decreases e, 0
  {
    match e
    case Leaf(id) => [Sym(id)]
    case And(l, r) => Parenthesize(l, l.Or?) + [T_AND] + Parenthesize(r, r.Or?)
    case Or(l, r) => Parenthesize(l, l.And?) + [T_OR] + Parenthesize(r, r.And?)
    case Not(x) => [T_NOT] + Parenthesize(x, !x.Leaf?)
    case Relation(rel, a, b) => [Sym(a), T_REL(rel), Sym(b)]
  }

  // _parenthesize
  function Parenthesize(e: Expr, paren: bool): seq<Token>
    decreases e, 1
  {
    if paren then [OPEN] + Print(e) + [CLOSE] else Print(e)
  }

  // ----- parsing

  datatype Parsed = Fail | Done(e: Expr, rest: seq<Token>)

  // Whether `m` is rewritten to `m && MODULES`, and the two symbols.
  datatype Rewriting = Plain | RewriteM(m: Id, modules: Id)

  function SymbolExpr(id: Id, w: Rewriting): Expr {
    if w.RewriteM? && id == w.m then And(Leaf(w.m), Leaf(w.modules)) else Leaf(id)
  }

  // expr: and_expr ['||' expr]
  function ParseExpr(ts: seq<Token>, w: Rewriting): (p: Parsed)
    ensures p.Done? ==> |p.rest| < |ts|
    decreases |ts|, 2
  {
    match ParseAnd(ts, w)
    case Fail => Fail
    case Done(a, rest) =>
      if rest != [] && rest[0] == T_OR then
        match ParseExpr(rest[1..], w)
        case Fail => Fail
        case Done(b, rest2) => Done(Or(a, b), rest2)
      else Done(a, rest)
  }

  // and_expr: factor ['&&' and_expr]
  function ParseAnd(ts: seq<Token>, w: Rewriting): (p: Parsed)
    ensures p.Done? ==> |p.rest| < |ts|
    decreases |ts|, 1
  {
    match ParseFactor(ts, w)
    case Fail => Fail
    case Done(a, rest) =>
      if rest != [] && rest[0] == T_AND then
        match ParseAnd(rest[1..], w)
        case Fail => Fail
        case Done(b, rest2) => Done(And(a, b), rest2)
      else Done(a, rest)
  }

  // factor: <symbol> [relation <symbol>] | '!' factor | '(' expr ')'
  function ParseFactor(ts: seq<Token>, w: Rewriting): (p: Parsed)
    ensures p.Done? ==> |p.rest| < |ts|
    decreases |ts|, 0
  {
    if ts == [] then Fail
    else
      match ts[0]
      case Sym(a) =>
        if |ts| > 1 && ts[1].T_REL? then
          (if |ts| > 2 && ts[2].Sym? then Done(Relation(ts[1].rel, a, ts[2].id), ts[3..]) else Fail)
        else Done(SymbolExpr(a, w), ts[1..])
      case T_NOT =>
        (match ParseFactor(ts[1..], w)
         case Fail => Fail
         case Done(x, rest) => Done(Not(x), rest))
      case OPEN =>
        (match ParseExpr(ts[1..], w)
         case Fail => Fail
         case Done(x, rest) => if rest != [] && rest[0] == CLOSE then Done(x, rest[1..]) else Fail)
      case _ => Fail
  }

  // ----- what parsing makes of a printed expression: chains nested to the right

  function Norm(e: Expr, w: Rewriting): Expr
    decreases e, 1
  {
    match e
    case Leaf(id) => SymbolExpr(id, w)
    case And(l, r) => AndThen(l, Norm(r, w), w)
    case Or(l, r) => OrThen(l, Norm(r, w), w)
    case Not(x) => Not(Norm(x, w))
    case Relation(_, _, _) => e
  }

  // The factors of the and-chain e, and then `tail`.
  function AndThen(e: Expr, tail: Expr, w: Rewriting): Expr
    decreases e, 2
  {
    match e
    case And(l, r) => AndThen(l, AndThen(r, tail, w), w)
    case _ => And(Norm(e, w), tail)
  }

  function OrThen(e: Expr, tail: Expr, w: Rewriting): Expr
    decreases e, 2
  {
    match e
    case Or(l, r) => OrThen(l, OrThen(r, tail, w), w)
    case _ => Or(Norm(e, w), tail)
  }

  // No and-chain has an and-chain on its left, and the same for or.
  predicate RightNested(e: Expr) {
    match e
    case Leaf(_) => true
    case And(l, r) => !l.And? && RightNested(l) && RightNested(r)
    case Or(l, r) => !l.Or? && RightNested(l) && RightNested(r)
    case Not(x) => RightNested(x)
    case Relation(_, _, _) => true
  }

  lemma {:induction false} NormOfRightNested(e: Expr)
    requires RightNested(e)
    ensures Norm(e, Plain) == e
    decreases e
  {
    match e
    case And(l, r) => NormOfRightNested(l); NormOfRightNested(r);
    case Or(l, r) => NormOfRightNested(l); NormOfRightNested(r);
    case Not(x) => NormOfRightNested(x);
    case _ =>
  }

  // The values as they are after rewriting m to `m && MODULES`.
  function Rewritten(v: Id -> int, w: Rewriting): Id -> int {
    match w
    case Plain => v
    case RewriteM(m, modules) => (id: Id) => if id == m then Min(v(m), v(modules)) else v(id)
  }

  lemma {:induction false} NormKeepsValue(e: Expr, w: Rewriting, v: Id -> int, compare: (Id, Id) -> int)
    ensures Sem(Norm(e, w), v, compare) == Sem(e, Rewritten(v, w), compare)
    decreases e, 1
  {
    match e
    case And(l, r) => NormKeepsValue(r, w, v, compare); AndThenValue(l, Norm(r, w), w, v, compare);
    case Or(l, r) => NormKeepsValue(r, w, v, compare); OrThenValue(l, Norm(r, w), w, v, compare);
    case Not(x) => NormKeepsValue(x, w, v, compare);
    case _ =>
  }

  lemma {:induction false} AndThenValue(e: Expr, tail: Expr, w: Rewriting, v: Id -> int, compare: (Id, Id) -> int)
    ensures Sem(AndThen(e, tail, w), v, compare) == Min(Sem(e, Rewritten(v, w), compare), Sem(tail, v, compare))
    decreases e, 2
  {
    match e
    case And(l, r) =>
      AndThenValue(r, tail, w, v, compare);
      AndThenValue(l, AndThen(r, tail, w), w, v, compare);
    case _ => NormKeepsValue(e, w, v, compare);
  }

  lemma {:induction false} OrThenValue(e: Expr, tail: Expr, w: Rewriting, v: Id -> int, compare: (Id, Id) -> int)
    ensures Sem(OrThen(e, tail, w), v, compare) == Max(Sem(e, Rewritten(v, w), compare), Sem(tail, v, compare))
    decreases e, 2
  {
    match e
    case Or(l, r) =>
      OrThenValue(r, tail, w, v, compare);
      OrThenValue(l, OrThen(r, tail, w), w, v, compare);
    case _ => NormKeepsValue(e, w, v, compare);
  }

  lemma OnceMore(id: Id, w: Rewriting, v: Id -> int)
    ensures Rewritten(Rewritten(v, w), w)(id) == Rewritten(v, w)(id)
  {
    if w.RewriteM? {
      var v' := Rewritten(v, w);
      assert v'(w.m) == Min(v(w.m), v(w.modules));
      assert v'(w.modules) == if w.modules == w.m then Min(v(w.m), v(w.modules)) else v(w.modules);
    }
  }

  // Rewriting twice is rewriting once.
  lemma {:induction false} RewrittenTwice(e: Expr, w: Rewriting, v: Id -> int, compare: (Id, Id) -> int)
    ensures Sem(e, Rewritten(Rewritten(v, w), w), compare) == Sem(e, Rewritten(v, w), compare)
    decreases e
  {
    match e
    case And(l, r) => RewrittenTwice(l, w, v, compare); RewrittenTwice(r, w, v, compare);
    case Or(l, r) => RewrittenTwice(l, w, v, compare); RewrittenTwice(r, w, v, compare);
    case Not(x) => RewrittenTwice(x, w, v, compare);
    case Leaf(id) => OnceMore(id, w, v);
    case Relation(_, _, _) =>
  }

  // ----- the round trip

  predicate StopsAnd(rest: seq<Token>) { rest == [] || (rest[0] != T_AND && !rest[0].T_REL?) }

  predicate StopsFactor(rest: seq<Token>) { rest == [] || !rest[0].T_REL? }

  predicate StopsExpr(rest: seq<Token>) { StopsAnd(rest) && (rest == [] || rest[0] != T_OR) }

  lemma {:induction false} FactorRoundTrip(e: Expr, w: Rewriting, rest: seq<Token>)
    requires (e.Leaf? || e.Not? || e.Relation?) && StopsFactor(rest)
    ensures ParseFactor(Print(e) + rest, w) == Done(Norm(e, w), rest)
    decreases e, 1
  {
    var ts := Print(e) + rest;
    match e
    case Leaf(id) => assert ts[1..] == rest;
    case Relation(rel, a, b) => assert ts[3..] == rest;
    case Not(x) =>
      assert ts[1..] == Parenthesize(x, !x.Leaf?) + rest;
      if x.Leaf? {
        FactorRoundTrip(x, w, rest);
      } else {
        ParenRoundTrip(x, w, rest);
      }
  }

  // A parenthesized expression is a factor.
  lemma {:induction false} ParenRoundTrip(e: Expr, w: Rewriting, rest: seq<Token>)
    ensures ParseFactor([OPEN] + Print(e) + [CLOSE] + rest, w) == Done(Norm(e, w), rest)
    decreases e, 5
  {
    var ts := [OPEN] + Print(e) + [CLOSE] + rest;
    ExprRoundTrip(e, w, [CLOSE] + rest);
    assert ts[1..] == Print(e) + ([CLOSE] + rest);
    assert ([CLOSE] + rest)[1..] == rest;
  }

  // An operand of && that is no and-chain itself.
  lemma {:induction false} OperandRoundTrip(e: Expr, w: Rewriting, rest: seq<Token>)
    requires StopsFactor(rest) && !e.And?
    ensures ParseFactor(Parenthesize(e, e.Or?) + rest, w) == Done(Norm(e, w), rest)
    decreases e, 6
  {
    if e.Or? {
      ParenRoundTrip(e, w, rest);
    } else {
      FactorRoundTrip(e, w, rest);
    }
  }

  // One more factor, or one more term, in front.
  lemma AndStep(ts: seq<Token>, w: Rewriting, a: Expr, ts': seq<Token>, b: Expr, rest: seq<Token>)
    requires ParseFactor(ts, w) == Done(a, [T_AND] + ts') && ParseAnd(ts', w) == Done(b, rest)
    ensures ParseAnd(ts, w) == Done(And(a, b), rest)
  {
    assert ([T_AND] + ts')[1..] == ts';
  }

  lemma OrStep(ts: seq<Token>, w: Rewriting, a: Expr, ts': seq<Token>, b: Expr, rest: seq<Token>)
    requires ParseAnd(ts, w) == Done(a, [T_OR] + ts') && ParseExpr(ts', w) == Done(b, rest)
    ensures ParseExpr(ts, w) == Done(Or(a, b), rest)
  {
    assert ([T_OR] + ts')[1..] == ts';
  }

  lemma LastFactor(ts: seq<Token>, w: Rewriting, a: Expr, rest: seq<Token>)
    requires ParseFactor(ts, w) == Done(a, rest) && StopsAnd(rest)
    ensures ParseAnd(ts, w) == Done(a, rest)
  {
  }

  lemma LastTerm(ts: seq<Token>, w: Rewriting, a: Expr, rest: seq<Token>)
    requires ParseAnd(ts, w) == Done(a, rest) && StopsExpr(rest)
    ensures ParseExpr(ts, w) == Done(a, rest)
  {
  }

  // The tokens of `l op r` and what follows, seen from the left operand.
  lemma Regroup(l: seq<Token>, op: seq<Token>, r: seq<Token>, rest: seq<Token>)
    ensures l + op + r + rest == l + op + (r + rest)
  {
  }

  lemma Regroup2(l: seq<Token>, op: seq<Token>, rest: seq<Token>)
    ensures l + op + rest == l + (op + rest)
  {
  }

  // The operands of an and-chain, when `&&` and something that parses to `tail` follow.
  lemma {:induction false} AndChain(e: Expr, w: Rewriting, ts: seq<Token>, tail: Expr, rest: seq<Token>)
    requires ParseAnd(ts, w) == Done(tail, rest)
    ensures ParseAnd(Parenthesize(e, e.Or?) + [T_AND] + ts, w) == Done(AndThen(e, tail, w), rest)
    decreases e, 7
  {
    hide ParseExpr, ParseAnd, ParseFactor;
    match e
    case And(l, r) =>
      var left, right := Parenthesize(l, l.Or?), Parenthesize(r, r.Or?);
      AndChain(r, w, ts, tail, rest);
      AndChain(l, w, right + [T_AND] + ts, AndThen(r, tail, w), rest);
      Regroup2(left + [T_AND] + right, [T_AND], ts);
      Regroup(left, [T_AND], right, [T_AND] + ts);
      Regroup2(right, [T_AND], ts);
    case _ =>
      Regroup2(Parenthesize(e, e.Or?), [T_AND], ts);
      OperandRoundTrip(e, w, [T_AND] + ts);
      AndStep(Parenthesize(e, e.Or?) + [T_AND] + ts, w, Norm(e, w), ts, tail, rest);
  }

  // An and-chain as a whole (or a single operand).
  lemma {:induction false} AndRoundTrip(e: Expr, w: Rewriting, rest: seq<Token>)
    requires StopsAnd(rest)
    ensures ParseAnd(Parenthesize(e, e.Or?) + rest, w) == Done(Norm(e, w), rest)
    decreases e, 8
  {
    hide ParseExpr, ParseAnd, ParseFactor;
    match e
    case And(l, r) =>
      var left, right := Parenthesize(l, l.Or?), Parenthesize(r, r.Or?);
      AndRoundTrip(r, w, rest);
      AndChain(l, w, right + rest, Norm(r, w), rest);
      Regroup(left, [T_AND], right, rest);
    case _ =>
      OperandRoundTrip(e, w, rest);
      LastFactor(Parenthesize(e, e.Or?) + rest, w, Norm(e, w), rest);
  }

  // An operand of || that is no or-chain itself: an and-chain stands in parentheses.
  lemma {:induction false} TermRoundTrip(e: Expr, w: Rewriting, rest: seq<Token>)
    requires StopsAnd(rest) && !e.Or?
    ensures ParseAnd(Parenthesize(e, e.And?) + rest, w) == Done(Norm(e, w), rest)
    decreases e, 9
  {
    hide ParseExpr, ParseAnd, ParseFactor;
    if e.And? {
      ParenRoundTrip(e, w, rest);
    } else {
      FactorRoundTrip(e, w, rest);
    }
    LastFactor(Parenthesize(e, e.And?) + rest, w, Norm(e, w), rest);
  }

  lemma {:induction false} OrChain(e: Expr, w: Rewriting, ts: seq<Token>, tail: Expr, rest: seq<Token>)
    requires ParseExpr(ts, w) == Done(tail, rest)
    ensures ParseExpr(Parenthesize(e, e.And?) + [T_OR] + ts, w) == Done(OrThen(e, tail, w), rest)
    decreases e, 10
  {
    hide ParseExpr, ParseAnd, ParseFactor;
    match e
    case Or(l, r) =>
      var left, right := Parenthesize(l, l.And?), Parenthesize(r, r.And?);
      OrChain(r, w, ts, tail, rest);
      OrChain(l, w, right + [T_OR] + ts, OrThen(r, tail, w), rest);
      Regroup2(left + [T_OR] + right, [T_OR], ts);
      Regroup(left, [T_OR], right, [T_OR] + ts);
      Regroup2(right, [T_OR], ts);
    case _ =>
      Regroup2(Parenthesize(e, e.And?), [T_OR], ts);
      TermRoundTrip(e, w, [T_OR] + ts);
      OrStep(Parenthesize(e, e.And?) + [T_OR] + ts, w, Norm(e, w), ts, tail, rest);
  }

  // The last operand of ||, or the whole or-chain.
  lemma {:induction false} OrRoundTrip(e: Expr, w: Rewriting, rest: seq<Token>)
    requires StopsExpr(rest)
    ensures ParseExpr(Parenthesize(e, e.And?) + rest, w) == Done(Norm(e, w), rest)
    decreases e, 11
  {
    hide ParseExpr, ParseAnd, ParseFactor;
    match e
    case Or(l, r) =>
      var left, right := Parenthesize(l, l.And?), Parenthesize(r, r.And?);
      OrRoundTrip(r, w, rest);
      OrChain(l, w, right + rest, Norm(r, w), rest);
      Regroup(left, [T_OR], right, rest);
    case _ =>
      TermRoundTrip(e, w, rest);
      LastTerm(Parenthesize(e, e.And?) + rest, w, Norm(e, w), rest);
  }

  // Parsing what was printed.
  lemma {:induction false} ExprRoundTrip(e: Expr, w: Rewriting, rest: seq<Token>)
    requires StopsExpr(rest)
    ensures ParseExpr(Print(e) + rest, w) == Done(Norm(e, w), rest)
    decreases e, 3
  {
    hide ParseExpr, ParseAnd, ParseFactor;
    match e
    case Or(l, r) =>
      var left, right := Parenthesize(l, l.And?), Parenthesize(r, r.And?);
      OrRoundTrip(r, w, rest);
      OrChain(l, w, right + rest, Norm(r, w), rest);
      Regroup(left, [T_OR], right, rest);
    case And(l, r) =>
      var left, right := Parenthesize(l, l.Or?), Parenthesize(r, r.Or?);
      AndRoundTrip(r, w, rest);
      AndChain(l, w, right + rest, Norm(r, w), rest);
      Regroup(left, [T_AND], right, rest);
      LastTerm(Print(e) + rest, w, Norm(e, w), rest);
    case _ =>
      FactorRoundTrip(e, w, rest);
      LastFactor(Print(e) + rest, w, Norm(e, w), rest);
      LastTerm(Print(e) + rest, w, Norm(e, w), rest);
  }

  // The printed text parses to an expression of the same value, under every assignment of values.
  lemma PrintParseKeepsValue(e: Expr, v: Id -> int, compare: (Id, Id) -> int)
    ensures var p := ParseExpr(Print(e) + [End], Plain);
      p.Done? && p.rest == [End] && Sem(p.e, v, compare) == Sem(e, v, compare)
  {
    ExprRoundTrip(e, Plain, [End]);
    NormKeepsValue(e, Plain, v, compare);
  }

  // With the rewriting of m, an expression that was parsed with it keeps its value when it is printed
  // and parsed again.
  lemma PrintParseKeepsRewritten(source: Expr, w: Rewriting, v: Id -> int, compare: (Id, Id) -> int)
    ensures var parsed := ParseExpr(Print(source) + [End], w);
      && parsed.Done? && parsed.rest == [End]
      && var again := ParseExpr(Print(parsed.e) + [End], w);
      && again.Done? && again.rest == [End] && Sem(again.e, v, compare) == Sem(parsed.e, v, compare)
  {
    var e := Norm(source, w);
    ExprRoundTrip(source, w, [End]);
    ExprRoundTrip(e, w, [End]);
    NormKeepsValue(source, w, v, compare);
    NormKeepsValue(e, w, v, compare);
    NormKeepsValue(source, w, Rewritten(v, w), compare);
    RewrittenTwice(source, w, v, compare);
  }

  // Right-nested expressions, and no others, come back unchanged.
  lemma PrintParseIsIdentity(e: Expr)
    ensures ParseExpr(Print(e) + [End], Plain) == Done(e, [End]) <==> RightNested(e)
  {
    ExprRoundTrip(e, Plain, [End]);
    if RightNested(e) {
      NormOfRightNested(e);
    } else {
      NormIsRightNested(e);
    }
  }

  lemma {:induction false} NormIsRightNested(e: Expr)
    ensures RightNested(Norm(e, Plain))
    ensures !e.And? ==> !Norm(e, Plain).And?
    ensures !e.Or? ==> !Norm(e, Plain).Or?
    decreases e, 1
  {
    match e
    case And(l, r) => NormIsRightNested(r); AndThenNested(l, Norm(r, Plain));
    case Or(l, r) => NormIsRightNested(r); OrThenNested(l, Norm(r, Plain));
    case Not(x) => NormIsRightNested(x);
    case _ =>
  }

  lemma {:induction false} AndThenNested(e: Expr, tail: Expr)
    requires RightNested(tail)
    ensures RightNested(AndThen(e, tail, Plain)) && AndThen(e, tail, Plain).And?
    decreases e, 2
  {
    match e
    case And(l, r) => AndThenNested(r, tail); AndThenNested(l, AndThen(r, tail, Plain));
    case _ => NormIsRightNested(e);
  }

  lemma {:induction false} OrThenNested(e: Expr, tail: Expr)
    requires RightNested(tail)
    ensures RightNested(OrThen(e, tail, Plain)) && OrThen(e, tail, Plain).Or?
    decreases e, 2
  {
    match e
    case Or(l, r) => OrThenNested(r, tail); OrThenNested(l, OrThen(r, tail, Plain));
    case _ => NormIsRightNested(e);
  }
}

module KconfigParser {
  import opened Kconfig
  import opened KconfigExprSpec

  // An expression, or KconfigError.
  datatype Result = Ok(e: Expr) | Malformed

  // The parser's position in the tokens of a line.
  class Parser {
    const tokens: seq<Token>
    var tokensI: nat

    constructor (ts: seq<Token>)
      requires ts != [] && ts[|ts| - 1] == End
      ensures tokens == ts && tokensI == 0 && Valid()
    {
      tokens, tokensI := ts, 0;
    }

    ghost predicate Valid()
      reads this`tokensI
    {
      tokensI < |tokens| && tokens[|tokens| - 1] == End
    }

    // What a parsing method has done: the same as its specification on the tokens from `from` on.
    ghost predicate Agrees(p: Parsed, r: Result)
      reads this`tokensI
    {
      match p
      case Fail => r == Malformed
      case Done(e, rest) => r == Ok(e) && Valid() && tokens[tokensI..] == rest
    }

    // _check_token
    method CheckToken(t: Token) returns (found: bool)
      requires Valid() && t != End
      modifies this`tokensI
      ensures Valid() && found == (tokens[old(tokensI)] == t)
      ensures tokensI == if found then old(tokensI) + 1 else old(tokensI)
    {
      found := tokens[tokensI] == t;
      if found {
        tokensI := tokensI + 1;
      }
    }

    lemma Suffix(i: nat)
      requires i < |tokens|
      ensures tokens[i..] != [] && tokens[i..][0] == tokens[i] && tokens[i..][1..] == tokens[i + 1..]
    {
    }

    // _parse_expr
    method ParseExpr(w: Rewriting) returns (r: Result)
      requires Valid()
      modifies this`tokensI
      ensures Agrees(KconfigExprSpec.ParseExpr(tokens[old(tokensI)..], w), r)
      ensures r.Ok? ==> tokensI > old(tokensI)
      decreases |tokens| - tokensI, 2
    {
      hide KconfigExprSpec.ParseAnd, KconfigExprSpec.ParseFactor;
      r := ParseAnd(w);
      if r.Ok? {
        Suffix(tokensI);
        var or := CheckToken(T_OR);
        if or {
          var l := r.e;
          r := this.ParseExpr(w);
          if r.Ok? { r := Ok(Or(l, r.e)); }
        }
      }
    }

    // _parse_and_expr
    method ParseAnd(w: Rewriting) returns (r: Result)
      requires Valid()
      modifies this`tokensI
      ensures Agrees(KconfigExprSpec.ParseAnd(tokens[old(tokensI)..], w), r)
      ensures r.Ok? ==> tokensI > old(tokensI)
      decreases |tokens| - tokensI, 1
    {
      hide KconfigExprSpec.ParseExpr, KconfigExprSpec.ParseFactor;
      r := ParseFactor(w);
      if r.Ok? {
        Suffix(tokensI);
        var and := CheckToken(T_AND);
        if and {
          var l := r.e;
          r := this.ParseAnd(w);
          if r.Ok? { r := Ok(And(l, r.e)); }
        }
      }
    }

    // _parse_factor
    method ParseFactor(w: Rewriting) returns (r: Result)
      requires Valid()
      modifies this`tokensI
      ensures Agrees(KconfigExprSpec.ParseFactor(tokens[old(tokensI)..], w), r)
      ensures r.Ok? ==> tokensI > old(tokensI)
      decreases |tokens| - tokensI, 0
    {
      hide KconfigExprSpec.ParseExpr, KconfigExprSpec.ParseAnd, KconfigExprSpec.ParseFactor;
      FactorCases(tokens[tokensI..], w);
      Suffix(tokensI);
      var token := tokens[tokensI];
      tokensI := tokensI + 1;
      if token.Sym? {
        r := ParseSymbol(token.id, w);
      } else if token == T_NOT {
        r := this.ParseFactor(w);
        if r.Ok? { r := Ok(Not(r.e)); }
      } else if token == OPEN {
        r := this.ParseExpr(w);
        if r.Ok? {
          Suffix(tokensI);
          var closed := CheckToken(CLOSE);
          if !closed {
            r := Malformed;
          }
        }
      } else {
        r := Malformed;
      }
    }

    // The part of _parse_factor for a symbol, alone or in a relation.
    method ParseSymbol(a: Id, w: Rewriting) returns (r: Result)
      requires Valid()
      modifies this`tokensI
      ensures Agrees(SymbolCase(a, tokens[old(tokensI)..], w), r)
      ensures r.Ok? ==> tokensI >= old(tokensI)
    {
      Suffix(tokensI);
      if !tokens[tokensI].T_REL? {
        return Ok(SymbolExpr(a, w));
      }
      var rel := tokens[tokensI].rel;
      tokensI := tokensI + 1;
      // _expect_sym
      Suffix(tokensI);
      var right := tokens[tokensI];
      if !right.Sym? {
        return Malformed;
      }
      tokensI := tokensI + 1;
      assert tokens[tokensI..] == tokens[old(tokensI)..][2..];
      return Ok(Relation(rel, a, right.id));
    }
  }

  // What follows a symbol.
  function SymbolCase(a: Id, ts: seq<Token>, w: Rewriting): Parsed {
    if ts != [] && ts[0].T_REL? then
      (if |ts| > 1 && ts[1].Sym? then Done(Relation(ts[0].rel, a, ts[1].id), ts[2..]) else Fail)
    else Done(SymbolExpr(a, w), ts)
  }

  function Negated(p: Parsed): Parsed {
    match p
    case Fail => Fail
    case Done(x, rest) => Done(Not(x), rest)
  }

  function Closed(p: Parsed): Parsed {
    match p
    case Fail => Fail
    case Done(x, rest) => if rest != [] && rest[0] == CLOSE then Done(x, rest[1..]) else Fail
  }

  lemma FactorCases(ts: seq<Token>, w: Rewriting)
    requires ts != []
    ensures ts[0].Sym? ==> KconfigExprSpec.ParseFactor(ts, w) == SymbolCase(ts[0].id, ts[1..], w)
    ensures ts[0] == T_NOT ==> KconfigExprSpec.ParseFactor(ts, w) == Negated(KconfigExprSpec.ParseFactor(ts[1..], w))
    ensures ts[0] == OPEN ==> KconfigExprSpec.ParseFactor(ts, w) == Closed(KconfigExprSpec.ParseExpr(ts[1..], w))
    ensures !ts[0].Sym? && ts[0] != T_NOT && ts[0] != OPEN ==> KconfigExprSpec.ParseFactor(ts, w) == Fail
  {
  }
}

module KconfigStrings {
  // ----- strings in .config files

  // str.replace of one character.
  function Replace(s: string, c: char, other: string): string {
    if s == [] then [] else (if s[0] == c then other else [s[0]]) + Replace(s[1..], c, other)
  }

  // escape: backslashes first, then quotes.
  function Escape(s: string): string { Replace(Replace(s, '\\', "\\\\"), '"', "\\\"") }

  // unescape: a backslash and any character but a newline become that character.
  function Unescape(s: string): string {
    if s == [] then []
    else if |s| > 1 && s[0] == '\\' && s[1] != '\n' then [s[1]] + Unescape(s[2..])
    else [s[0]] + Unescape(s[1..])
  }

  // What may stand between the quotes of a string in a .config file: (?:[^\\"]|\\.)*
  predicate Quotable(s: string) {
    || s == []
    || (s[0] != '\\' && s[0] != '"' && Quotable(s[1..]))
    || (|s| > 1 && s[0] == '\\' && s[1] != '\n' && Quotable(s[2..]))
  }

  lemma {:induction false} ReplaceConcat(s: string, t: string, c: char, other: string)
    ensures Replace(s + t, c, other) == Replace(s, c, other) + Replace(t, c, other)
    decreases s
  {
    if s == [] {
      assert s + t == t;
    } else {
      assert (s + t)[1..] == s[1..] + t;
      ReplaceConcat(s[1..], t, c, other);
    }
  }

  function EscapedChar(c: char): string {
    if c == '\\' then "\\\\" else if c == '"' then "\\\"" else [c]
  }

  lemma EscapeCons(s: string)
    requires s != []
    ensures Escape(s) == EscapedChar(s[0]) + Escape(s[1..])
  {
    var first := if s[0] == '\\' then "\\\\" else [s[0]];
    ReplaceConcat(first, Replace(s[1..], '\\', "\\\\"), '"', "\\\"");
    assert Replace(first, '"', "\\\"") == EscapedChar(s[0]) by {
      if s[0] == '\\' {
        assert first[1..] == "\\" && first[1..][1..] == [];
      } else {
        assert first[1..] == [];
      }
    }
  }

  // A string that is written to a .config file is read back, whatever characters it contains.
  lemma {:induction false} EscapeRoundTrip(s: string)
    ensures Quotable(Escape(s)) && Unescape(Escape(s)) == s
    decreases s
  {
    if s != [] {
      EscapeCons(s);
      EscapeRoundTrip(s[1..]);
      var t := Escape(s);
      if s[0] == '\\' || s[0] == '"' {
        assert t[2..] == Escape(s[1..]);
      } else {
        assert t[1..] == Escape(s[1..]);
      }
    }
  }
}
