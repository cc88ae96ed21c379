/** The SQL a WHERE clause is read as: tokens, the boolean-expression grammar (AND binds
    tighter than OR, no NOT), and evaluation in SQL's three-valued logic. This is the
    reading the compiled text is judged against; keywords are the upper-case words. */
module Sql {
  import opened Basics
  import opened JsonValues
  import Decimal

  // ── tokens ───────────────────────────────────────────────────────────────────

  /** `Mark` is `?`, with the digits that follow it if any; `Dollar` is `$1`, `$2`, ...;
      `Param(k)` is either once it is known to mean argument k, counted from 0. */
  datatype Token =
    | Word(s: string)
    | Operator(s: string)
    | LParen | RParen | Comma
    | Mark(number: string)
    | Dollar(digits: string)
    | Param(index: int)
    | Other(c: char)

  const BARE := Mark("")

  predicate IsWordChar(c: char) { 'a' <= c <= 'z' || 'A' <= c <= 'Z' || '0' <= c <= '9' || c == '_' }

  predicate IsOpChar(c: char) { c == '=' || c == '!' || c == '<' || c == '>' }

  /** Length of the longest prefix of s whose characters all satisfy p. */
  function Span(p: char -> bool, s: string): (n: nat)
    ensures n <= |s|
    ensures forall i :: 0 <= i < n ==> p(s[i])
    ensures n < |s| ==> !p(s[n])
  {
    if s == "" || !p(s[0]) then 0 else 1 + Span(p, s[1..])
  }

  function SpanWord(s: string): (n: nat)
    ensures n <= |s| && (forall i :: 0 <= i < n ==> IsWordChar(s[i])) && (n < |s| ==> !IsWordChar(s[n]))
  {
    Span(IsWordChar, s)
  }

  function SpanOp(s: string): (n: nat)
    ensures n <= |s| && (forall i :: 0 <= i < n ==> IsOpChar(s[i])) && (n < |s| ==> !IsOpChar(s[n]))
  {
    Span(IsOpChar, s)
  }

  function SpanDigits(s: string): (n: nat)
    ensures n <= |s| && (forall i :: 0 <= i < n ==> Decimal.IsDigit(s[i])) && (n < |s| ==> !Decimal.IsDigit(s[n]))
  {
    Span(Decimal.IsDigit, s)
  }

  datatype Lexeme = Lexeme(tokens: seq<Token>, length: nat)

  /** The first token of a non-empty text, and how many characters it takes. */
  function FirstToken(s: string): (t: Lexeme)
    requires s != ""
    ensures 0 < t.length <= |s|
  {
    var c := s[0];
    if IsWordChar(c) then Lexeme([Word(s[..SpanWord(s)])], SpanWord(s))
    else if IsOpChar(c) then Lexeme([Operator(s[..SpanOp(s)])], SpanOp(s))
    else if c == '$' then Lexeme([Dollar(s[1..1 + SpanDigits(s[1..])])], 1 + SpanDigits(s[1..]))
    else if c == '?' then Lexeme([Mark(s[1..1 + SpanDigits(s[1..])])], 1 + SpanDigits(s[1..]))
    else
      Lexeme(match c
             case ' ' => []
             case '(' => [LParen]
             case ')' => [RParen]
             case ',' => [Comma]
             case _ => [Other(c)], 1)
  }

  function Lex(s: string): seq<Token> {
    if s == "" then [] else FirstToken(s).tokens + Lex(s[FirstToken(s).length..])
  }

  lemma LexStep(s: string)
    requires s != ""
    ensures Lex(s) == FirstToken(s).tokens + Lex(s[FirstToken(s).length..])
  {
  }

  lemma FirstDollar(s: string, n: nat)
    requires s != "" && s[0] == '$' && n == SpanDigits(s[1..])
    ensures FirstToken(s) == Lexeme([Dollar(s[1..1 + n])], 1 + n)
  {
  }

  lemma FirstMark(s: string, n: nat)
    requires s != "" && s[0] == '?' && n == SpanDigits(s[1..])
    ensures FirstToken(s) == Lexeme([Mark(s[1..1 + n])], 1 + n)
  {
  }

  lemma FirstBare(s: string)
    requires s != "" && s[0] == '?' && (|s| == 1 || !Decimal.IsDigit(s[1]))
    ensures FirstToken(s) == Lexeme([BARE], 1)
  {
    assert SpanDigits(s[1..]) == 0;
    FirstMark(s, 0);
    assert s[1..1 + 0] == "";
  }

  lemma LexBare(s: string)
    requires s == "?"
    ensures Lex(s) == [BARE]
  {
    FirstBare(s);
    LexStep(s);
    assert s[1..] == "";
  }

  /** Two adjacent characters that could belong to one token. */
  predicate Joins(x: char, y: char) {
    (IsWordChar(x) && IsWordChar(y)) || (IsOpChar(x) && IsOpChar(y)) || ((x == '$' || x == '?') && Decimal.IsDigit(y))
  }

  /** Text can be cut here without cutting a token. */
  predicate Separate(a: string, b: string) { a == "" || b == "" || !Joins(a[|a| - 1], b[0]) }

  lemma SpanUnique(p: char -> bool, s: string, n: nat)
    requires n <= |s| && (forall i :: 0 <= i < n ==> p(s[i])) && (n < |s| ==> !p(s[n]))
    ensures Span(p, s) == n
  {
  }

  lemma SpanStable(p: char -> bool, a: string, b: string)
    requires b != "" && (Span(p, a) == |a| ==> !p(b[0]))
    ensures Span(p, a + b) == Span(p, a) && (a + b)[..Span(p, a)] == a[..Span(p, a)]
  {
    var n := Span(p, a);
    assert forall i :: 0 <= i < n ==> (a + b)[i] == a[i];
    assert (a + b)[n] == if n < |a| then a[n] else b[0];
    SpanUnique(p, a + b, n);
  }

  lemma WordStable(a: string, b: string)
    requires a != "" && b != "" && Separate(a, b) && IsWordChar(a[0])
    ensures FirstToken(a + b) == FirstToken(a)
  {
    assert (a + b)[0] == a[0];
    SpanStable(IsWordChar, a, b);
  }

  lemma OpStable(a: string, b: string)
    requires a != "" && b != "" && Separate(a, b) && IsOpChar(a[0]) && !IsWordChar(a[0])
    ensures FirstToken(a + b) == FirstToken(a)
  {
    assert (a + b)[0] == a[0];
    SpanStable(IsOpChar, a, b);
  }

  lemma ParameterStable(a: string, b: string)
    requires a != "" && b != "" && Separate(a, b) && (a[0] == '$' || a[0] == '?')
    ensures FirstToken(a + b) == FirstToken(a)
  {
    assert (a + b)[0] == a[0] && (a + b)[1..] == a[1..] + b;
    DigitsStable(a, b);
    NumberOf(a);
    NumberOf(a + b);
  }

  /** The digits after a placeholder sign. */
  function NumberText(s: string): string
    requires s != ""
  {
    s[1..1 + SpanDigits(s[1..])]
  }

  lemma NumberOf(s: string)
    requires s != "" && (s[0] == '$' || s[0] == '?')
    ensures FirstToken(s)
            == Lexeme([if s[0] == '$' then Dollar(NumberText(s)) else Mark(NumberText(s))], 1 + |NumberText(s)|)
  {
  }

  lemma DigitsStable(a: string, b: string)
    requires a != "" && b != "" && Separate(a, b) && (a[0] == '$' || a[0] == '?')
    ensures NumberText(a + b) == NumberText(a)
  {
    var c := a[1..];
    var n := SpanDigits(c);
    assert (a + b)[1..] == c + b;
    if n == |c| && n > 0 {
      assert a[|a| - 1] == c[n - 1];
      assert IsWordChar(c[n - 1]);
    }
    SpanStable(Decimal.IsDigit, c, b);
    assert (a + b)[1..1 + n] == (c + b)[..n] && a[1..1 + n] == c[..n];
  }

  lemma FirstTokenStable(a: string, b: string)
    requires a != "" && Separate(a, b)
    ensures FirstToken(a + b) == FirstToken(a)
  {
    if b == "" {
      assert a + b == a;
    } else if IsWordChar(a[0]) {
      WordStable(a, b);
    } else if IsOpChar(a[0]) {
      OpStable(a, b);
    } else if a[0] == '$' || a[0] == '?' {
      ParameterStable(a, b);
    } else {
      assert (a + b)[0] == a[0];
    }
  }

  /** Tokens of a concatenation, when the seam cuts no token. */
  lemma {:induction false} LexAppend(a: string, b: string)
    requires Separate(a, b)
    ensures Lex(a + b) == Lex(a) + Lex(b)
    decreases |a|
  {
    if a == "" {
      assert a + b == b;
    } else {
      FirstTokenStable(a, b);
      var n := FirstToken(a).length;
      assert (a + b)[n..] == a[n..] + b;
      LexAppend(a[n..], b);
    }
  }

  lemma LexWord(s: string)
    requires s != "" && forall i :: 0 <= i < |s| ==> IsWordChar(s[i])
    ensures Lex(s) == [Word(s)]
  {
    SpanUnique(IsWordChar, s, |s|);
    assert s[|s|..] == "" && s[..|s|] == s;
  }

  lemma LexOperator(s: string)
    requires s != "" && forall i :: 0 <= i < |s| ==> IsOpChar(s[i])
    ensures Lex(s) == [Operator(s)]
  {
    SpanUnique(IsOpChar, s, |s|);
    assert s[|s|..] == "" && s[..|s|] == s;
  }

  lemma LexChar(s: string)
    requires |s| == 1 && !IsWordChar(s[0]) && !IsOpChar(s[0]) && s[0] != '$' && s[0] != '?'
    ensures Lex(s) == FirstToken(s).tokens
  {
    assert s[1..] == "";
  }

  // ── parameters ───────────────────────────────────────────────────────────────

  function Marks(ts: seq<Token>): nat {
    if ts == [] then 0 else (if ts[0].Mark? then 1 else 0) + Marks(ts[1..])
  }

  /** Binding in position: the k-th `?`, counted from `next`, is argument k. */
  function Positional(ts: seq<Token>, next: nat): (r: seq<Token>)
    ensures |r| == |ts|
  {
    if ts == [] then []
    else if ts[0].Mark? then [Param(next)] + Positional(ts[1..], next + 1)
    else [ts[0]] + Positional(ts[1..], next)
  }

  /** SQLite's binding: `?n` is argument n - 1, a bare `?` comes after the largest so far. */
  function Sqlite(ts: seq<Token>, next: nat): (r: seq<Token>)
    ensures |r| == |ts|
  {
    if ts == [] then []
    else if ts[0].Mark? && ts[0].number != "" && Decimal.AllDigits(ts[0].number) then
      var n := Decimal.ParseDigits(ts[0].number);
      [Param(n - 1)] + Sqlite(ts[1..], if n > next then n else next)
    else if ts[0].Mark? then [Param(next)] + Sqlite(ts[1..], next + 1)
    else [ts[0]] + Sqlite(ts[1..], next)
  }

  /** Every numbered `?` carries the number of its own position. */
  predicate NumberedInPlace(ts: seq<Token>, next: nat) {
    ts == []
    || if ts[0].Mark? then
         (ts[0].number != "" && Decimal.AllDigits(ts[0].number) ==> Decimal.ParseDigits(ts[0].number) == next + 1)
         && NumberedInPlace(ts[1..], next + 1)
       else NumberedInPlace(ts[1..], next)
  }

  /** SQLite binds in position exactly when no `?` carries another number than its place. */
  lemma {:induction false} SqliteInPositionIff(ts: seq<Token>, next: nat)
    ensures Sqlite(ts, next) == Positional(ts, next) <==> NumberedInPlace(ts, next)
  {
    if ts != [] {
      var s, p := Sqlite(ts, next), Positional(ts, next);
      SqliteInPositionIff(ts[1..], if ts[0].Mark? then next + 1 else next);
      assert s[1..] == p[1..] && s[0] == p[0] ==> s == p;
    }
  }

  predicate BareMarks(ts: seq<Token>) { forall t :: t in ts && t.Mark? ==> t == BARE }

  lemma {:induction false} BareInPlace(ts: seq<Token>, next: nat)
    requires BareMarks(ts)
    ensures NumberedInPlace(ts, next)
  {
    if ts != [] {
      assert ts[0] in ts;
      BareInPlace(ts[1..], if ts[0].Mark? then next + 1 else next);
    }
  }

  /** Postgres's binding: `$k` is argument k - 1. */
  function Numbered(ts: seq<Token>): (r: seq<Token>)
    ensures |r| == |ts|
  {
    if ts == [] then []
    else if ts[0].Dollar? && Decimal.AllDigits(ts[0].digits) then
      [Param(Decimal.ParseDigits(ts[0].digits) - 1)] + Numbered(ts[1..])
    else [ts[0]] + Numbered(ts[1..])
  }

  lemma {:induction false} MarksAppend(a: seq<Token>, b: seq<Token>)
    ensures Marks(a + b) == Marks(a) + Marks(b)
  {
    if a == [] {
      assert a + b == b;
    } else {
      assert (a + b)[1..] == a[1..] + b;
      MarksAppend(a[1..], b);
    }
  }

  lemma {:induction false} PositionalAppend(a: seq<Token>, b: seq<Token>, next: nat)
    ensures Positional(a + b, next) == Positional(a, next) + Positional(b, next + Marks(a))
  {
    if a == [] {
      assert a + b == b;
    } else {
      assert (a + b)[0] == a[0] && (a + b)[1..] == a[1..] + b;
      PositionalAppend(a[1..], b, if a[0].Mark? then next + 1 else next);
    }
  }

  // ── grammar ──────────────────────────────────────────────────────────────────

  datatype Atom =
    | Always
    | Never
    | NullTest(column: string, negated: bool)
    | OneOf(column: string, params: seq<int>)
    | Compare(column: string, op: string, param: int)

  datatype Expr = Leaf(atom: Atom) | And(left: Expr, right: Expr) | Or(left: Expr, right: Expr)

  datatype Parsed<T> = Parsed(value: T, rest: seq<Token>)

  const AND := Word("AND")
  const OR := Word("OR")

  predicate StartsWith(ts: seq<Token>, t: Token) { ts != [] && ts[0] == t }

  predicate IsComparison(t: Token) {
    t == Operator("=") || t == Operator("!=") || t == Operator(">") || t == Operator(">=") || t == Operator("<")
    || t == Operator("<=") || t == Word("LIKE")
  }

  /** `?, ?, ... )` */
  function ParseParams(ts: seq<Token>): (r: Option<Parsed<seq<int>>>)
    ensures r.Some? ==> |r.value.rest| < |ts|
  {
    if |ts| < 2 || !ts[0].Param? then None
    else if ts[1] == RParen then Some(Parsed([ts[0].index], ts[2..]))
    else if ts[1] != Comma then None
    else
      match ParseParams(ts[2..])
      case None => None
      case Some(p) => Some(Parsed([ts[0].index] + p.value, p.rest))
  }

  function ParseAtom(ts: seq<Token>): (r: Option<Parsed<Atom>>)
    ensures r.Some? ==> |r.value.rest| < |ts|
  {
    if |ts| < 3 || !ts[0].Word? then None
    else if ts[0].s == "1" then
      if ts[1] == Operator("=") && ts[2] == Word("1") then Some(Parsed(Always, ts[3..]))
      else if ts[1] == Operator("=") && ts[2] == Word("0") then Some(Parsed(Never, ts[3..]))
      else None
    else if ts[1] == Word("IS") then
      if ts[2] == Word("NULL") then Some(Parsed(NullTest(ts[0].s, false), ts[3..]))
      else if |ts| > 3 && ts[2] == Word("NOT") && ts[3] == Word("NULL") then
        Some(Parsed(NullTest(ts[0].s, true), ts[4..]))
      else None
    else if ts[1] == Word("IN") && ts[2] == LParen then
      match ParseParams(ts[3..])
      case None => None
      case Some(p) => Some(Parsed(OneOf(ts[0].s, p.value), p.rest))
    else if IsComparison(ts[1]) && ts[2].Param? then Some(Parsed(Compare(ts[0].s, ts[1].s, ts[2].index), ts[3..]))
    else None
  }

  function ParseFactor(ts: seq<Token>): (r: Option<Parsed<Expr>>)
    ensures r.Some? ==> |r.value.rest| < |ts|
    decreases |ts|, 0
  {
    if StartsWith(ts, LParen) then
      match ParseExpr(ts[1..])
      case None => None
      case Some(p) => if StartsWith(p.rest, RParen) then Some(Parsed(p.value, p.rest[1..])) else None
    else
      match ParseAtom(ts)
      case None => None
      case Some(p) => Some(Parsed(Leaf(p.value), p.rest))
  }

  function ParseTerm(ts: seq<Token>): (r: Option<Parsed<Expr>>)
    ensures r.Some? ==> |r.value.rest| < |ts|
    decreases |ts|, 1
  {
    match ParseFactor(ts)
    case None => None
    case Some(p) =>
      if !StartsWith(p.rest, AND) then Some(p)
      else
        match ParseTerm(p.rest[1..])
        case None => None
        case Some(q) => Some(Parsed(And(p.value, q.value), q.rest))
  }

  function ParseExpr(ts: seq<Token>): (r: Option<Parsed<Expr>>)
    ensures r.Some? ==> |r.value.rest| < |ts|
    decreases |ts|, 2
  {
    match ParseTerm(ts)
    case None => None
    case Some(p) =>
      if !StartsWith(p.rest, OR) then Some(p)
      else
        match ParseExpr(p.rest[1..])
        case None => None
        case Some(q) => Some(Parsed(Or(p.value, q.value), q.rest))
  }

  /** A whole clause: nothing may be left over. */
  function ParseClause(ts: seq<Token>): Option<Expr> {
    match ParseExpr(ts)
    case None => None
    case Some(p) => if p.rest == [] then Some(p.value) else None
  }

  // ── parsing does not look past a closing parenthesis ─────────────────────────

  lemma {:induction false} ParamsStable(ts: seq<Token>, more: seq<Token>)
    requires ParseParams(ts).Some?
    ensures ParseParams(ts + more) == Some(Parsed(ParseParams(ts).value.value, ParseParams(ts).value.rest + more))
  {
    var us := ts + more;
    assert us[0] == ts[0] && us[1] == ts[1] && us[2..] == ts[2..] + more;
    if ts[1] != RParen {
      ParamsStable(ts[2..], more);
    }
  }

  lemma AtomStable(ts: seq<Token>, more: seq<Token>)
    requires ParseAtom(ts).Some?
    ensures ParseAtom(ts + more) == Some(Parsed(ParseAtom(ts).value.value, ParseAtom(ts).value.rest + more))
  {
    var us := ts + more;
    assert us[0] == ts[0] && us[1] == ts[1] && us[2] == ts[2];
    assert us[3..] == ts[3..] + more;
    if |ts| > 3 {
      assert us[3] == ts[3] && us[4..] == ts[4..] + more;
    }
    if ts[1] == Word("IN") && ts[2] == LParen && ts[0].s != "1" {
      ParamsStable(ts[3..], more);
    }
  }

  lemma {:induction false} FactorStable(ts: seq<Token>, more: seq<Token>)
    requires ParseFactor(ts).Some? && StartsWith(more, RParen)
    ensures ParseFactor(ts + more) == Some(Parsed(ParseFactor(ts).value.value, ParseFactor(ts).value.rest + more))
    decreases |ts|, 0
  {
    if StartsWith(ts, LParen) {
      assert (ts + more)[1..] == ts[1..] + more;
      ExprStable(ts[1..], more);
      var p := ParseExpr(ts[1..]).value;
      assert (p.rest + more)[0] == p.rest[0] && (p.rest + more)[1..] == p.rest[1..] + more;
    } else {
      assert (ts + more)[0] == ts[0];
      AtomStable(ts, more);
    }
  }

  lemma {:induction false} TermStable(ts: seq<Token>, more: seq<Token>)
    requires ParseTerm(ts).Some? && StartsWith(more, RParen)
    ensures ParseTerm(ts + more) == Some(Parsed(ParseTerm(ts).value.value, ParseTerm(ts).value.rest + more))
    decreases |ts|, 1
  {
    FactorStable(ts, more);
    var p := ParseFactor(ts).value;
    if StartsWith(p.rest, AND) {
      assert (p.rest + more)[0] == p.rest[0] && (p.rest + more)[1..] == p.rest[1..] + more;
      TermStable(p.rest[1..], more);
    } else if p.rest != [] {
      assert (p.rest + more)[0] == p.rest[0];
    }
  }

  lemma {:induction false} ExprStable(ts: seq<Token>, more: seq<Token>)
    requires ParseExpr(ts).Some? && StartsWith(more, RParen)
    ensures ParseExpr(ts + more) == Some(Parsed(ParseExpr(ts).value.value, ParseExpr(ts).value.rest + more))
    decreases |ts|, 2
  {
    TermStable(ts, more);
    var p := ParseTerm(ts).value;
    if StartsWith(p.rest, OR) {
      assert (p.rest + more)[0] == p.rest[0] && (p.rest + more)[1..] == p.rest[1..] + more;
      ExprStable(p.rest[1..], more);
    } else if p.rest != [] {
      assert (p.rest + more)[0] == p.rest[0];
    }
  }

  // ── three-valued evaluation ──────────────────────────────────────────────────

  datatype Truth = True | False | Unknown

  function Both(a: Truth, b: Truth): Truth {
    if a.False? || b.False? then False else if a.Unknown? || b.Unknown? then Unknown else True
  }

  function Either(a: Truth, b: Truth): Truth {
    if a.True? || b.True? then True else if a.Unknown? || b.Unknown? then Unknown else False
  }

  function Known(b: bool): Truth { if b then True else False }

  /** How a column compares with a bound value, by operator; asked only of non-null pairs. */
  type Comparison = (string, Value, Value) -> bool

  type Row = map<string, Value>

  function Column(row: Row, c: string): Value { if c in row then row[c] else NullValue }

  function Argument(args: seq<Value>, i: int): Value { if 0 <= i < |args| then args[i] else NullValue }

  function Compared(cmp: Comparison, op: string, a: Value, b: Value): Truth {
    if a.NullValue? || b.NullValue? then Unknown else Known(cmp(op, a, b))
  }

  /** `x IN (a, b, ...)` is `x = a OR x = b OR ...`. */
  function AnyEqual(cmp: Comparison, v: Value, params: seq<int>, args: seq<Value>): Truth {
    if params == [] then False
    else Either(Compared(cmp, "=", v, Argument(args, params[0])), AnyEqual(cmp, v, params[1..], args))
  }

  function EvalAtom(a: Atom, row: Row, args: seq<Value>, cmp: Comparison): Truth {
    match a
    case Always => True
    case Never => False
    case NullTest(c, negated) => Known(Column(row, c).NullValue? != negated)
    case OneOf(c, params) => AnyEqual(cmp, Column(row, c), params, args)
    case Compare(c, op, p) => Compared(cmp, op, Column(row, c), Argument(args, p))
  }

  function Eval(e: Expr, row: Row, args: seq<Value>, cmp: Comparison): Truth {
    match e
    case Leaf(a) => EvalAtom(a, row, args, cmp)
    case And(l, r) => Both(Eval(l, row, args, cmp), Eval(r, row, args, cmp))
    case Or(l, r) => Either(Eval(l, row, args, cmp), Eval(r, row, args, cmp))
  }
}
