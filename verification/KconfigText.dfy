/**
  Kconfig expressions as text in tools/kconfiglib.py: what `expr_str` prints, the part of `_tokenize` that
  reads expressions, and the round trip through text.

  Macros and environment variables are not part of this model, so there is no `$` in the text.
 */
module KconfigText {
  import opened Kconfig
  import opened KconfigExprSpec
  import opened KconfigStrings

  // How symbols are spelt: constants but n, m and y in quotes.
  datatype Names = Names(name: Id -> string, quoted: Id -> bool)

  // What the tokenizer makes of a piece of text.
  datatype Lexeme = Word(name: string) | Keyword(name: string) | Quoted(name: string) | Op(t: Token)

  datatype Lexed = Unknown | Lexemes(list: seq<Lexeme>)

  const KEYWORDS: set<string> := {
    "---help---", "allnoconfig_y", "bool", "boolean", "choice", "comment", "config", "def_bool", "def_hex",
    "def_int", "def_string", "def_tristate", "default", "defconfig_list", "depends", "endchoice", "endif",
    "endmenu", "env", "grsource", "gsource", "help", "hex", "if", "imply", "int", "mainmenu", "menu",
    "menuconfig", "modules", "on", "option", "optional", "orsource", "osource", "prompt", "range", "rsource",
    "select", "source", "string", "tristate", "visible"}

  predicate IdChar(c: char) {
    'A' <= c <= 'Z' || 'a' <= c <= 'z' || '0' <= c <= '9' || c == '_' || c == '/' || c == '.' || c == '-'
  }

  predicate Space(c: char) { c == ' ' || '\t' <= c <= '\r' }

  // ----- printing

  function SymText(id: Id, n: Names): string {
    if n.quoted(id) then "\"" + Escape(n.name(id)) + "\"" else n.name(id)
  }

  function RelText(rel: Rel): string {
    match rel
    case EQUAL => "="
    case UNEQUAL => "!="
    case LESS => "<"
    case LESS_EQUAL => "<="
    case GREATER => ">"
    case GREATER_EQUAL => ">="
  }

  // expr_str
  function PrintText(e: Expr, n: Names): string
    decreases e, 0
  {
    match e
    case Leaf(id) => SymText(id, n)
    case And(l, r) => ParenthesizeText(l, l.Or?, n) + " && " + ParenthesizeText(r, r.Or?, n)
    case Or(l, r) => ParenthesizeText(l, l.And?, n) + " || " + ParenthesizeText(r, r.And?, n)
    case Not(x) => "!" + ParenthesizeText(x, !x.Leaf?, n)
    case Relation(rel, a, b) => SymText(a, n) + " " + RelText(rel) + " " + SymText(b, n)
  }

  // _parenthesize
  function ParenthesizeText(e: Expr, paren: bool, n: Names): string
    decreases e, 1
  {
    if paren then "(" + PrintText(e, n) + ")" else PrintText(e, n)
  }

  // ----- tokenizing

  function SkipSpaces(s: string): (r: string)
    ensures |r| <= |s|
  {
    if s != [] && Space(s[0]) then SkipSpaces(s[1..]) else s
  }

  // The length of the identifier at the start.
  function WordLength(s: string): (k: nat)
    ensures k <= |s|
  {
    if s != [] && IdChar(s[0]) then 1 + WordLength(s[1..]) else 0
  }

  datatype Str = Unterminated | Str(val: string, rest: string)

  // _expand_str, behind the opening quote.
  function LexString(s: string, quote: char): (r: Str)
    ensures r.Str? ==> |r.rest| < |s|
    decreases |s|
  {
    if s == [] then Unterminated
    else if s[0] == quote then Str([], s[1..])
    else
      var (c, rest) := if s[0] == '\\' && |s| > 1 then (s[1], s[2..]) else (s[0], s[1..]);
      match LexString(rest, quote)
      case Unterminated => Unterminated
      case Str(val, rest2) => Str([c] + val, rest2)
  }

  // The operator at the start of the text, and its length.
  function LexOp(s: string): (Token, nat)
    requires s != []
  {
    var c, d := s[0], if |s| > 1 then s[1] else ' ';
    if c == '&' && d == '&' then (T_AND, 2)
    else if c == '|' && d == '|' then (T_OR, 2)
    else if c == '=' then (T_REL(EQUAL), 1)
    else if c == '!' && d == '=' then (T_REL(UNEQUAL), 2)
    else if c == '!' then (T_NOT, 1)
    else if c == '(' then (OPEN, 1)
    else if c == ')' then (CLOSE, 1)
    else if c == '<' && d == '=' then (T_REL(LESS_EQUAL), 2)
    else if c == '<' then (T_REL(LESS), 1)
    else if c == '>' && d == '=' then (T_REL(GREATER_EQUAL), 2)
    else if c == '>' then (T_REL(GREATER), 1)
    else (End, 0)
  }

  function Cons(x: Lexeme, rest: Lexed): Lexed {
    match rest
    case Unknown => Unknown
    case Lexemes(list) => Lexemes([x] + list)
  }

  // The loop of _tokenize; the text starts with a token.
  function Lex(s: string): Lexed
    decreases |s|
  {
    if s == [] || s[0] == '#' then Lexemes([])
    else if IdChar(s[0]) then
      var k := WordLength(s);
      Cons(if s[..k] in KEYWORDS then Keyword(s[..k]) else Word(s[..k]), Lex(SkipSpaces(s[k..])))
    else if s[0] == '"' || s[0] == '\'' then
      match LexString(s[1..], s[0])
      case Unterminated => Unknown
      case Str(val, rest) => Cons(Quoted(val), Lex(SkipSpaces(rest)))
    else
      var (t, k) := LexOp(s);
      if k == 0 || k > |s| then Unknown else Cons(Op(t), Lex(SkipSpaces(s[k..])))
  }

  // ----- the text of a list of tokens

  function TokenText(t: Token, n: Names): string {
    match t
    case Sym(id) => SymText(id, n)
    case T_AND => " && "
    case T_OR => " || "
    case T_NOT => "!"
    case T_REL(rel) => " " + RelText(rel) + " "
    case OPEN => "("
    case CLOSE => ")"
    case End => ""
  }

  function Text(ts: seq<Token>, n: Names): string {
    if ts == [] then "" else TokenText(ts[0], n) + Text(ts[1..], n)
  }

  lemma {:induction false} TextConcat(ts: seq<Token>, us: seq<Token>, n: Names)
    ensures Text(ts + us, n) == Text(ts, n) + Text(us, n)
    decreases ts
  {
    if ts == [] {
      assert ts + us == us;
    } else {
      assert (ts + us)[0] == ts[0] && (ts + us)[1..] == ts[1..] + us;
      TextConcat(ts[1..], us, n);
    }
  }

  lemma One(t: Token, n: Names)
    ensures Text([t], n) == TokenText(t, n)
  {
    assert [t][1..] == [];
  }

  lemma {:induction false} PrintIsText(e: Expr, n: Names)
    ensures PrintText(e, n) == Text(Print(e), n)
    decreases e, 0
  {
    match e
    case Leaf(id) => One(Sym(id), n);
    case And(l, r) =>
      ParenthesizeIsText(l, l.Or?, n);
      ParenthesizeIsText(r, r.Or?, n);
      One(T_AND, n);
      TextConcat(Parenthesize(l, l.Or?), [T_AND], n);
      TextConcat(Parenthesize(l, l.Or?) + [T_AND], Parenthesize(r, r.Or?), n);
    case Or(l, r) =>
      ParenthesizeIsText(l, l.And?, n);
      ParenthesizeIsText(r, r.And?, n);
      One(T_OR, n);
      TextConcat(Parenthesize(l, l.And?), [T_OR], n);
      TextConcat(Parenthesize(l, l.And?) + [T_OR], Parenthesize(r, r.And?), n);
    case Not(x) =>
      ParenthesizeIsText(x, !x.Leaf?, n);
      One(T_NOT, n);
      TextConcat([T_NOT], Parenthesize(x, !x.Leaf?), n);
    case Relation(rel, a, b) =>
      One(Sym(a), n);
      One(T_REL(rel), n);
      One(Sym(b), n);
      TextConcat([Sym(a)], [T_REL(rel)], n);
      TextConcat([Sym(a), T_REL(rel)], [Sym(b)], n);
      assert [Sym(a)] + [T_REL(rel)] == [Sym(a), T_REL(rel)];
      assert [Sym(a), T_REL(rel)] + [Sym(b)] == Print(e);
  }

  lemma {:induction false} ParenthesizeIsText(e: Expr, paren: bool, n: Names)
    ensures ParenthesizeText(e, paren, n) == Text(Parenthesize(e, paren), n)
    decreases e, 1
  {
    PrintIsText(e, n);
    if paren {
      One(OPEN, n);
      One(CLOSE, n);
      TextConcat([OPEN], Print(e), n);
      TextConcat([OPEN] + Print(e), [CLOSE], n);
    }
  }

  // ----- reading it back

  // A name that can stand without quotes.
  predicate Bare(s: string) {
    s != [] && (forall i :: 0 <= i < |s| ==> IdChar(s[i])) && s !in KEYWORDS
  }

  // Symbols are spelt without quotes only if they can be, and no name contains a `$`, which stands for a
  // macro or a variable when it is read.
  predicate Spelt(ts: seq<Token>, n: Names) {
    forall t :: t in ts && t.Sym? ==> '$' !in n.name(t.id) && (n.quoted(t.id) || Bare(n.name(t.id)))
  }

  // No two symbols next to each other, and no end in between.
  predicate Apart(ts: seq<Token>) {
    && (forall i :: 0 <= i < |ts| ==> ts[i] != End)
    && forall i :: 0 <= i < |ts| - 1 ==> !(ts[i].Sym? && ts[i + 1].Sym?)
  }

  function LexemeOf(t: Token, n: Names): Lexeme {
    match t
    case Sym(id) => if n.quoted(id) then Quoted(n.name(id)) else Word(n.name(id))
    case _ => Op(t)
  }

  function LexemesOf(ts: seq<Token>, n: Names): seq<Lexeme> {
    if ts == [] then [] else [LexemeOf(ts[0], n)] + LexemesOf(ts[1..], n)
  }

  lemma {:induction false} LexEscaped(s: string, tail: string)
    ensures LexString(Escape(s) + "\"" + tail, '"') == Str(s, tail)
    decreases s
  {
    if s == [] {
      assert Escape(s) + "\"" + tail == "\"" + tail;
    } else {
      EscapeCons(s);
      hide EscapedChar, Escape, LexString;
      LexEscaped(s[1..], tail);
      var x, u := Escape(s[1..]), Escape(s[1..]) + "\"" + tail;
      assert (EscapedChar(s[0]) + x) + "\"" + tail == EscapedChar(s[0]) + u;
      LexChar(s[0], u, s[1..], tail);
      assert [s[0]] + s[1..] == s;
    }
  }

  lemma LexChar(c: char, u: string, val: string, rest: string)
    requires LexString(u, '"') == Str(val, rest)
    ensures LexString(EscapedChar(c) + u, '"') == Str([c] + val, rest)
  {
    var t := EscapedChar(c) + u;
    if c == '\\' || c == '"' {
      assert t[0] == '\\' && t[1] == c && t[2..] == u;
    } else {
      assert t[0] == c && t[1..] == u;
    }
  }

  lemma {:induction false} WordEnds(s: string, tail: string)
    requires (forall i :: 0 <= i < |s| ==> IdChar(s[i])) && (tail == [] || !IdChar(tail[0]))
    ensures WordLength(s + tail) == |s|
    decreases s
  {
    if s == [] {
      assert s + tail == tail;
    } else {
      assert (s + tail)[0] == s[0] && (s + tail)[1..] == s[1..] + tail;
      WordEnds(s[1..], tail);
    }
  }

  // A maximal run of letters, digits and _/.- is one token: a keyword if it is in the table, else a name.
  lemma WordOrKeyword(s: string, tail: string)
    requires s != [] && (forall c :: c in s ==> IdChar(c)) && (tail == [] || !IdChar(tail[0]))
    ensures Lex(s + tail) == Cons(if s in KEYWORDS then Keyword(s) else Word(s), Lex(SkipSpaces(tail)))
  {
    WordEnds(s, tail);
    assert s[0] in s && (s + tail)[0] == s[0] && (s + tail)[..|s|] == s && (s + tail)[|s|..] == tail;
  }

  // What follows a symbol is no part of its name.
  lemma TextStarts(ts: seq<Token>, n: Names)
    requires Apart(ts) && ts != [] && !ts[0].Sym?
    ensures Text(ts, n) != [] && !IdChar(Text(ts, n)[0])
  {
  }

  lemma {:induction false} TextRoundTrip(ts: seq<Token>, n: Names)
    requires Apart(ts) && Spelt(ts, n)
    ensures Lex(SkipSpaces(Text(ts, n))) == Lexemes(LexemesOf(ts, n))
    decreases ts
  {
    if ts != [] {
      var rest := ts[1..];
      assert forall i :: 0 <= i < |rest| ==> rest[i] == ts[i + 1];
      TextRoundTrip(rest, n);
      if ts[0].Sym? {
        if rest != [] { TextStarts(rest, n); }
        SymRoundTrip(ts[0].id, n, Text(rest, n));
      } else {
        NotEqualSign(rest, n);
        OpRoundTrip(ts[0], n, Text(rest, n));
      }
    }
  }

  lemma SymRoundTrip(id: Id, n: Names, tail: string)
    requires !n.quoted(id) ==> Bare(n.name(id)) && (tail == [] || !IdChar(tail[0]))
    ensures Lex(SkipSpaces(SymText(id, n) + tail)) == Cons(LexemeOf(Sym(id), n), Lex(SkipSpaces(tail)))
  {
    var s, text := n.name(id), SymText(id, n) + tail;
    if n.quoted(id) {
      LexEscaped(s, tail);
      assert text[0] == '"' && text[1..] == Escape(s) + "\"" + tail;
    } else {
      WordEnds(s, tail);
      assert text[0] == s[0] && text[..|s|] == s && text[|s|..] == tail;
    }
  }

  lemma NotEqualSign(ts: seq<Token>, n: Names)
    requires Apart(ts) && Spelt(ts, n)
    ensures Text(ts, n) == [] || Text(ts, n)[0] != '='
  {
    if ts != [] && ts[0].Sym? { assert ts[0] in ts; }
  }

  // An operator without the spaces around it.
  function OpText(t: Token): string {
    match t
    case T_AND => "&&"
    case T_OR => "||"
    case T_NOT => "!"
    case T_REL(rel) => RelText(rel)
    case OPEN => "("
    case CLOSE => ")"
    case _ => ""
  }

  lemma LexOpText(t: Token, tail: string)
    requires !t.Sym? && t != End && (tail == [] || tail[0] != '=')
    ensures OpText(t) + tail != [] && LexOp(OpText(t) + tail) == (t, |OpText(t)|)
  {
    var s, op := OpText(t) + tail, OpText(t);
    assert s[0] == op[0];
    if |op| == 2 {
      assert s[1] == op[1];
    } else if tail != [] {
      assert s[1] == tail[0];
    }
  }

  lemma OpRoundTrip(t: Token, n: Names, tail: string)
    requires !t.Sym? && t != End && (tail == [] || tail[0] != '=')
    ensures Lex(SkipSpaces(TokenText(t, n) + tail)) == Cons(Op(t), Lex(SkipSpaces(tail)))
  {
    if t == T_AND || t == T_OR || t.T_REL? {
      OpAndSpace(t, n, tail);
      LexOpText(t, " " + tail);
      LexAtOp(t, " " + tail);
      assert (" " + tail)[1..] == tail;
    } else {
      LexOpText(t, tail);
      LexAtOp(t, tail);
    }
  }

  lemma OpAndSpace(t: Token, n: Names, tail: string)
    requires t == T_AND || t == T_OR || t.T_REL?
    ensures SkipSpaces(TokenText(t, n) + tail) == OpText(t) + (" " + tail)
  {
    var s := TokenText(t, n) + tail;
    assert s[1..] == OpText(t) + (" " + tail);
    assert OpText(t) != "" && !Space(OpText(t)[0]);
  }

  lemma LexAtOp(t: Token, tail: string)
    requires !t.Sym? && t != End && OpText(t) + tail != [] && LexOp(OpText(t) + tail) == (t, |OpText(t)|)
    ensures SkipSpaces(OpText(t) + tail) == OpText(t) + tail
    ensures Lex(OpText(t) + tail) == Cons(Op(t), Lex(SkipSpaces(tail)))
  {
    OpStarts(t);
    var s, op := OpText(t) + tail, OpText(t);
    assert s[0] == op[0] && s[|op|..] == tail && |op| > 0;
    hide LexOp, OpText, IdChar, Space, LexString, WordLength;
  }

  lemma OpStarts(t: Token)
    requires !t.Sym? && t != End
    ensures OpText(t) != "" && var c := OpText(t)[0]; !IdChar(c) && !Space(c) && c != '"' && c != '\'' && c != '#'
  {
  }

  // ----- the whole way

  // `ids` finds the symbol of a name, for those without and with quotes.
  predicate Finds(ids: (string, bool) -> Id, n: Names, ts: seq<Token>) {
    forall t :: t in ts && t.Sym? ==> ids(n.name(t.id), n.quoted(t.id)) == t.id
  }

  // The tokens of the parser; keywords end an expression.
  function Tokens(list: seq<Lexeme>, ids: (string, bool) -> Id): seq<Token> {
    if list == [] then [End]
    else
      match list[0]
      case Word(name) => [Sym(ids(name, false))] + Tokens(list[1..], ids)
      case Quoted(name) => [Sym(ids(name, true))] + Tokens(list[1..], ids)
      case Op(t) => [t] + Tokens(list[1..], ids)
      case Keyword(_) => [End]
  }

  lemma {:induction false} TokensOfLexemes(ts: seq<Token>, n: Names, ids: (string, bool) -> Id)
    requires Finds(ids, n, ts)
    ensures Tokens(LexemesOf(ts, n), ids) == ts + [End]
    decreases ts
  {
    if ts == [] {
      assert ts + [End] == [End];
    } else {
      assert forall t :: t in ts[1..] ==> t in ts;
      TokensOfLexemes(ts[1..], n, ids);
      assert ts[0] in ts;
      assert LexemesOf(ts, n)[1..] == LexemesOf(ts[1..], n);
      assert ts + [End] == [ts[0]] + (ts[1..] + [End]);
    }
  }

  // No two symbols stand next to each other in what is printed.
  lemma {:induction false} PrintIsApart(e: Expr)
    ensures Apart(Print(e)) && Print(e) != []
    decreases e, 0
  {
    match e
    case Leaf(_) =>
    case Relation(_, _, _) =>
    case And(l, r) =>
      ParenthesizeIsApart(l, l.Or?);
      ParenthesizeIsApart(r, r.Or?);
      JoinApart(Parenthesize(l, l.Or?), T_AND, Parenthesize(r, r.Or?));
    case Or(l, r) =>
      ParenthesizeIsApart(l, l.And?);
      ParenthesizeIsApart(r, r.And?);
      JoinApart(Parenthesize(l, l.And?), T_OR, Parenthesize(r, r.And?));
    case Not(x) =>
      ParenthesizeIsApart(x, !x.Leaf?);
      JoinApart([], T_NOT, Parenthesize(x, !x.Leaf?));
      assert [] + [T_NOT] == [T_NOT];
  }

  lemma {:induction false} ParenthesizeIsApart(e: Expr, paren: bool)
    ensures Apart(Parenthesize(e, paren)) && Parenthesize(e, paren) != []
    decreases e, 1
  {
    PrintIsApart(e);
    if paren {
      JoinApart([], OPEN, Print(e));
      assert [] + [OPEN] == [OPEN];
      JoinApart([OPEN] + Print(e), CLOSE, []);
      assert [OPEN] + Print(e) + [CLOSE] + [] == [OPEN] + Print(e) + [CLOSE];
    }
  }

  lemma JoinApart(l: seq<Token>, t: Token, r: seq<Token>)
    requires Apart(l) && Apart(r) && !t.Sym? && t != End
    ensures Apart(l + [t] + r)
  {
    var ts := l + [t] + r;
    forall i | 0 <= i < |ts| ensures ts[i] != End {
      if i > |l| { assert ts[i] == r[i - |l| - 1]; }
    }
    forall i | 0 <= i < |ts| - 1 ensures !(ts[i].Sym? && ts[i + 1].Sym?) {
      if i < |l| - 1 {
        assert ts[i] == l[i] && ts[i + 1] == l[i + 1];
      } else if i > |l| {
        assert ts[i] == r[i - |l| - 1] && ts[i + 1] == r[i - |l| - 1 + 1];
      }
    }
  }

  // An expression that is printed as text, read into tokens and parsed comes back in the parser's form,
  // whatever characters its quoted constants contain, and with its value under every assignment.
  lemma TextParsesBack(e: Expr, n: Names, ids: (string, bool) -> Id, v: Id -> int, compare: (Id, Id) -> int)
    requires Spelt(Print(e), n) && Finds(ids, n, Print(e))
    ensures var lexed := Lex(SkipSpaces(PrintText(e, n)));
      && lexed.Lexemes?
      && var p := ParseExpr(Tokens(lexed.list, ids), Rewriting.Plain);
      && p == Done(Norm(e, Rewriting.Plain), [End]) && Sem(p.e, v, compare) == Sem(e, v, compare)
  {
    PrintIsText(e, n);
    PrintIsApart(e);
    TextRoundTrip(Print(e), n);
    TokensOfLexemes(Print(e), n, ids);
    ExprRoundTrip(e, Rewriting.Plain, [End]);
    NormKeepsValue(e, Rewriting.Plain, v, compare);
  }
}
