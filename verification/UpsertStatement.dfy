/** The statements a fold sends to the database (go/internal/readmodel/projector.go,
    `applyTo`): their text, how that text parses back, and what it does to a table once its
    placeholders are bound in position. */
module UpsertStatement {
  import opened Basics
  import opened JsonValues
  import opened Definitions
  import opened Projector
  import Decimal
  import Dialect
  import Sql
  import Strings = Text
  import Where
  import WhereMeaning

  datatype Upsert = Upsert(table: string, setCols: seq<string>, incCols: seq<string>)

  const SPINE: set<string> := {"tenant", "id", "updated_at"}

  function InsertCols(u: Upsert): seq<string> { ["tenant", "id"] + u.setCols + u.incCols + ["updated_at"] }

  // ── the text ─────────────────────────────────────────────────────────────────

  /** Words separated by single spaces. */
  function Spaced(words: seq<string>): string {
    if words == [] then "" else if |words| == 1 then words[0] else words[0] + " " + Spaced(words[1..])
  }

  /** One assignment of DO UPDATE: take the proposed value, or add an argument. */
  datatype Change = Take(column: string) | Add(column: string)

  function CoalesceText(table: string, col: string): string { "COALESCE(" + table + "." + col + ", 0)" }

  function ChangeText(table: string, c: Change): string {
    match c
    case Take(col) => Spaced([col, "=", "excluded." + col])
    case Add(col) => Spaced([col, "=", CoalesceText(table, col), "+", "?"])
  }

  function Takes(cols: seq<string>): (r: seq<Change>)
    ensures |r| == |cols| && forall i :: 0 <= i < |r| ==> r[i] == Take(cols[i])
  {
    seq(|cols|, i requires 0 <= i < |cols| => Take(cols[i]))
  }

  function Adds(cols: seq<string>): (r: seq<Change>)
    ensures |r| == |cols| && forall i :: 0 <= i < |r| ==> r[i] == Add(cols[i])
  {
    seq(|cols|, i requires 0 <= i < |cols| => Add(cols[i]))
  }

  function Changes(u: Upsert): seq<Change> { Takes(u.setCols) + Adds(u.incCols) + [Take("updated_at")] }

  function ChangeTexts(table: string, cs: seq<Change>): (r: seq<string>)
    ensures |r| == |cs| && forall i :: 0 <= i < |r| ==> r[i] == ChangeText(table, cs[i])
  {
    seq(|cs|, i requires 0 <= i < |cs| => ChangeText(table, cs[i]))
  }

  function FrontWords(u: Upsert): seq<string> {
    ["INSERT", "INTO", u.table, "(" + Strings.JoinComma(InsertCols(u)) + ")", "VALUES"]
  }

  function BackWords(u: Upsert): seq<string> {
    ["ON", "CONFLICT(tenant, id)", "DO", "UPDATE", "SET", Strings.JoinComma(ChangeTexts(u.table, Changes(u)))]
  }

  function Statement(u: Upsert): string {
    Spaced(FrontWords(u) + ["(" + Where.Placeholders(|InsertCols(u)|) + ")"] + BackWords(u))
  }

  // ── its tokens ───────────────────────────────────────────────────────────────

  function ChangeTokens(table: string, c: Change): seq<Sql.Token> {
    match c
    case Take(col) => [Sql.Word(col), Sql.Operator("="), Sql.Word("excluded"), Sql.Other('.'), Sql.Word(col)]
    case Add(col) =>
      [Sql.Word(col), Sql.Operator("="), Sql.Word("COALESCE"), Sql.LParen, Sql.Word(table), Sql.Other('.'),
       Sql.Word(col),
       Sql.Comma, Sql.Word("0"), Sql.RParen, Sql.Other('+'), Sql.BARE]
  }

  function NameTokens(names: seq<string>): seq<Sql.Token> {
    if names == [] then []
    else if |names| == 1 then [Sql.Word(names[0])]
    else [Sql.Word(names[0]), Sql.Comma] + NameTokens(names[1..])
  }

  function ChangesTokens(table: string, cs: seq<Change>): seq<Sql.Token> {
    if cs == [] then []
    else if |cs| == 1 then ChangeTokens(table, cs[0])
    else ChangeTokens(table, cs[0]) + [Sql.Comma] + ChangesTokens(table, cs[1..])
  }

  function Target(): seq<Sql.Token> {
    [Sql.Word("CONFLICT"), Sql.LParen, Sql.Word("tenant"), Sql.Comma, Sql.Word("id"), Sql.RParen]
  }

  function Front(u: Upsert): seq<Sql.Token> {
    [Sql.Word("INSERT"), Sql.Word("INTO"), Sql.Word(u.table), Sql.LParen] + NameTokens(InsertCols(u))
        + [Sql.RParen, Sql.Word("VALUES")]
  }

  function Values(n: nat): seq<Sql.Token> { [Sql.LParen] + WhereMeaning.MarkTokens(n) + [Sql.RParen] }

  function Middle(): seq<Sql.Token> {
    [Sql.Word("ON")] + Target() + [Sql.Word("DO"), Sql.Word("UPDATE"), Sql.Word("SET")]
  }

  function StatementTokens(u: Upsert): seq<Sql.Token> {
    Front(u) + Values(|InsertCols(u)|) + (Middle() + ChangesTokens(u.table, Changes(u)))
  }

  ghost predicate Names(cols: seq<string>) { forall c :: c in cols ==> IsIdentifier(c) }

  /** Table and columns are identifiers, as validation leaves them. */
  ghost predicate Named(u: Upsert) { IsIdentifier(u.table) && Names(u.setCols) && Names(u.incCols) }

  lemma {:induction false} SpacedAppend(a: seq<string>, b: seq<string>)
    requires a != [] && b != []
    ensures Spaced(a + b) == Spaced(a) + " " + Spaced(b)
    decreases |a|
  {
    if |a| == 1 {
      assert (a + b)[1..] == b;
    } else {
      assert (a + b)[1..] == a[1..] + b;
      SpacedAppend(a[1..], b);
      Strung(a[0], " ", Spaced(a[1..]), Spaced(b));
    }
  }

  lemma Strung(a: string, space: string, b: string, c: string)
    ensures a + space + (b + space + c) == a + space + b + space + c
  {
  }

  /** Words separated by spaces lex separately. */
  lemma LexTwoParts(a: seq<string>, b: seq<string>)
    requires a != [] && b != []
    ensures Sql.Lex(Spaced(a + b)) == Sql.Lex(Spaced(a)) + Sql.Lex(Spaced(b))
  {
    SpacedAppend(a, b);
    WhereMeaning.LexSpaced(Spaced(a), Spaced(b));
  }

  lemma LexTwoWords(a: string, b: string)
    ensures Sql.Lex(Spaced([a, b])) == Sql.Lex(a) + Sql.Lex(b)
  {
    LexTwoParts([a], [b]);
    assert [a] + [b] == [a, b];
  }

  lemma LexThreeWords(a: string, b: string, c: string)
    ensures Sql.Lex(Spaced([a, b, c])) == Sql.Lex(a) + Sql.Lex(b) + Sql.Lex(c)
  {
    LexTwoWords(a, b);
    LexTwoParts([a, b], [c]);
    assert [a, b] + [c] == [a, b, c];
  }

  lemma LexComma(a: string, sep: string, b: string)
    requires sep == ", "
    ensures Sql.Lex(a + sep + b) == Sql.Lex(a) + [Sql.Comma] + Sql.Lex(b)
  {
    var comma, space := ",", " ";
    assert sep == comma + space;
    LexCommaAfter(a, comma);
    WhereMeaning.LexSpaced(a + comma, b);
    Reassociate(a, comma, space, b);
  }

  lemma LexCommaAfter(a: string, comma: string)
    requires comma == ","
    ensures Sql.Lex(a + comma) == Sql.Lex(a) + [Sql.Comma]
  {
    Sql.LexChar(comma);
    LexBreak(a, comma);
  }

  lemma Reassociate(a: string, comma: string, space: string, b: string)
    ensures a + (comma + space) + b == a + comma + space + b
  {
    assert a + (comma + space) == a + comma + space;
  }

  lemma {:induction false} LexNames(names: seq<string>)
    requires Names(names)
    ensures Sql.Lex(Strings.JoinComma(names)) == NameTokens(names)
    decreases |names|
  {
    if |names| == 1 {
      WhereMeaning.LexIdentifier(names[0]);
    } else if |names| > 1 {
      var sep := ", ";
      WhereMeaning.LexIdentifier(names[0]);
      LexNames(names[1..]);
      LexComma(names[0], sep, Strings.JoinComma(names[1..]));
      MoreNames(names[0], NameTokens(names[1..]));
    }
  }

  lemma MoreNames(name: string, more: seq<Sql.Token>)
    ensures [Sql.Word(name)] + [Sql.Comma] + more == [Sql.Word(name), Sql.Comma] + more
  {
  }

  /** A character of neither words nor operators always starts a token. */
  lemma LexBreak(a: string, b: string)
    requires b != "" && !Sql.IsWordChar(b[0]) && !Sql.IsOpChar(b[0])
    ensures Sql.Lex(a + b) == Sql.Lex(a) + Sql.Lex(b)
  {
    assert !Decimal.IsDigit(b[0]);
    Sql.LexAppend(a, b);
  }

  /** And one that starts no longer token ends where it stands. */
  lemma LexAfter(a: string, x: string, b: string)
    requires |x| == 1 && !Sql.IsWordChar(x[0]) && !Sql.IsOpChar(x[0]) && x[0] != '$' && x[0] != '?'
    ensures Sql.Lex(a + x + b) == Sql.Lex(a + x) + Sql.Lex(b)
  {
    Sql.LexAppend(a + x, b);
  }

  lemma LexDotted(a: string, dot: string, b: string)
    requires dot == "." && IsIdentifier(b) && Sql.Lex(a) == [Sql.Word(a)]
    ensures Sql.Lex(a + dot + b) == [Sql.Word(a), Sql.Other('.'), Sql.Word(b)]
  {
    LexDot(a, dot);
    LexAfter(a, dot, b);
    WhereMeaning.LexIdentifier(b);
  }

  lemma LexDot(a: string, dot: string)
    requires dot == "."
    ensures Sql.Lex(a + dot) == Sql.Lex(a) + [Sql.Other('.')]
  {
    Sql.LexChar(dot);
    LexBreak(a, dot);
  }

  lemma LexTake(col: string, eq: string, excluded: string, dot: string)
    requires IsIdentifier(col) && eq == "=" && Sql.Lex(excluded) == [Sql.Word(excluded)] && dot == "."
    ensures Sql.Lex(Spaced([col, eq, excluded + dot + col]))
            == [Sql.Word(col), Sql.Operator(eq), Sql.Word(excluded), Sql.Other('.'), Sql.Word(col)]
  {
    LexDotted(excluded, dot, col);
    LexAssignee(col, eq, excluded + dot + col, [Sql.Word(excluded), Sql.Other('.'), Sql.Word(col)]);
  }

  lemma LexCall(word: string, inner: string)
    ensures Sql.Lex(word + ("(" + inner + ")")) == Sql.Lex(word) + ([Sql.LParen] + Sql.Lex(inner) + [Sql.RParen])
  {
    WhereMeaning.LexParens(inner);
    var parens := "(" + inner + ")";
    assert parens[0] == '(';
    LexBreak(word, parens);
  }

  lemma LexInner(table: string, dot: string, col: string, sep: string, zero: string)
    requires IsIdentifier(table) && IsIdentifier(col) && dot == "." && sep == ", " && Sql.Lex(zero) == [Sql.Word(zero)]
    ensures Sql.Lex(table + dot + col + sep + zero)
            == [Sql.Word(table), Sql.Other('.'), Sql.Word(col), Sql.Comma, Sql.Word(zero)]
  {
    WhereMeaning.LexIdentifier(table);
    LexDotted(table, dot, col);
    LexComma(table + dot + col, sep, zero);
  }

  lemma LexAdd(col: string, eq: string, call: string, plus: string, mark: string, inner: seq<Sql.Token>)
    requires IsIdentifier(col) && eq == "=" && plus == "+" && mark == "?" && Sql.Lex(call) == inner
    ensures Sql.Lex(Spaced([col, eq, call, plus, mark]))
            == [Sql.Word(col), Sql.Operator(eq)] + inner + [Sql.Other('+'), Sql.BARE]
  {
    LexAssignee(col, eq, call, inner);
    LexPlusMark(plus, mark);
    LexTwoParts([col, eq, call], [plus, mark]);
    FiveWords(col, eq, call, plus, mark);
  }

  lemma LexAssignee(col: string, eq: string, call: string, inner: seq<Sql.Token>)
    requires IsIdentifier(col) && eq == "=" && Sql.Lex(call) == inner
    ensures Sql.Lex(Spaced([col, eq, call])) == [Sql.Word(col), Sql.Operator(eq)] + inner
  {
    WhereMeaning.LexIdentifier(col);
    Sql.LexOperator(eq);
    LexThreeWords(col, eq, call);
    assert [Sql.Word(col)] + [Sql.Operator(eq)] == [Sql.Word(col), Sql.Operator(eq)];
  }

  lemma FiveWords(a: string, b: string, c: string, d: string, e: string)
    ensures [a, b, c] + [d, e] == [a, b, c, d, e]
  {
  }

  lemma LexPlusMark(plus: string, mark: string)
    requires plus == "+" && mark == "?"
    ensures Sql.Lex(Spaced([plus, mark])) == [Sql.Other('+'), Sql.BARE]
  {
    Sql.LexChar(plus);
    Sql.LexBare(mark);
    LexTwoWords(plus, mark);
  }

  lemma SpellCall(table: string, col: string, word: string, inner: string)
    requires word == "COALESCE" && inner == table + "." + col + ", " + "0"
    ensures CoalesceText(table, col) == word + ("(" + inner + ")")
  {
    var name := table + "." + col;
    assert name + ", 0)" == name + ", " + "0" + ")";
  }

  function CoalesceTokens(table: string, col: string): seq<Sql.Token> {
    [Sql.Word("COALESCE"), Sql.LParen, Sql.Word(table), Sql.Other('.'), Sql.Word(col), Sql.Comma, Sql.Word("0"),
     Sql.RParen]
  }

  lemma LexCoalesce(table: string, col: string, word: string, inner: string)
    requires Sql.Lex(word) == [Sql.Word("COALESCE")]
    requires Sql.Lex(inner) == [Sql.Word(table), Sql.Other('.'), Sql.Word(col), Sql.Comma, Sql.Word("0")]
    ensures Sql.Lex(word + ("(" + inner + ")")) == CoalesceTokens(table, col)
  {
    LexCall(word, inner);
  }

  lemma LexCoalesceText(table: string, col: string)
    requires IsIdentifier(table) && IsIdentifier(col)
    ensures Sql.Lex(CoalesceText(table, col)) == CoalesceTokens(table, col)
  {
    var word, dot, sep, zero := "COALESCE", ".", ", ", "0";
    var inner := table + dot + col + sep + zero;
    Sql.LexWord(word);
    Sql.LexWord(zero);
    LexInner(table, dot, col, sep, zero);
    LexCoalesce(table, col, word, inner);
    SpellCall(table, col, word, inner);
  }

  lemma LexTakeText(table: string, col: string)
    requires IsIdentifier(col)
    ensures Sql.Lex(ChangeText(table, Take(col))) == ChangeTokens(table, Take(col))
  {
    var eq, excluded, dot := "=", "excluded", ".";
    Sql.LexWord(excluded);
    LexTake(col, eq, excluded, dot);
    TakeSpelled(table, col, excluded, dot);
  }

  lemma TakeSpelled(table: string, col: string, excluded: string, dot: string)
    requires excluded == "excluded" && dot == "."
    ensures ChangeText(table, Take(col)) == Spaced([col, "=", excluded + dot + col])
  {
    assert excluded + dot == "excluded.";
  }

  lemma LexAddText(table: string, col: string)
    requires IsIdentifier(table) && IsIdentifier(col)
    ensures Sql.Lex(ChangeText(table, Add(col))) == ChangeTokens(table, Add(col))
  {
    LexCoalesceText(table, col);
    LexAddWords(table, col, "=", CoalesceText(table, col), "+", "?");
  }

  lemma LexAddWords(table: string, col: string, eq: string, call: string, plus: string, mark: string)
    requires IsIdentifier(col) && eq == "=" && plus == "+" && mark == "?" && Sql.Lex(call) == CoalesceTokens(table, col)
    ensures Sql.Lex(Spaced([col, eq, call, plus, mark])) == ChangeTokens(table, Add(col))
  {
    LexAdd(col, eq, call, plus, mark, CoalesceTokens(table, col));
    AddTokens(table, col);
  }

  lemma AddTokens(table: string, col: string)
    ensures [Sql.Word(col), Sql.Operator("=")] + CoalesceTokens(table, col) + [Sql.Other('+'), Sql.BARE]
            == ChangeTokens(table, Add(col))
  {
  }

  lemma LexChange(table: string, c: Change)
    requires IsIdentifier(table) && IsIdentifier(c.column)
    ensures Sql.Lex(ChangeText(table, c)) == ChangeTokens(table, c)
  {
    match c
    case Take(col) => LexTakeText(table, col);
    case Add(col) => LexAddText(table, col);
  }

  lemma {:induction false} LexChanges(table: string, cs: seq<Change>)
    requires IsIdentifier(table) && forall c :: c in cs ==> IsIdentifier(c.column)
    ensures Sql.Lex(Strings.JoinComma(ChangeTexts(table, cs))) == ChangesTokens(table, cs)
    decreases |cs|
  {
    var texts := ChangeTexts(table, cs);
    if cs != [] {
      LexChange(table, cs[0]);
      if |cs| > 1 {
        var sep := ", ";
        LexChanges(table, cs[1..]);
        assert texts[1..] == ChangeTexts(table, cs[1..]);
        LexComma(texts[0], sep, Strings.JoinComma(texts[1..]));
      }
    }
  }

  lemma LexTarget(word: string, inner: string)
    requires Sql.Lex(word) == [Sql.Word("CONFLICT")]
             && Sql.Lex(inner) == [Sql.Word("tenant"), Sql.Comma, Sql.Word("id")]
    ensures Sql.Lex(word + ("(" + inner + ")")) == Target()
  {
    LexCall(word, inner);
  }

  lemma LexTenantId(inner: string)
    requires inner == "tenant, id"
    ensures Sql.Lex(inner) == [Sql.Word("tenant"), Sql.Comma, Sql.Word("id")]
  {
    var a, sep, b := "tenant", ", ", "id";
    assert IsIdentifier(a) && IsIdentifier(b);
    assert inner == a + sep + b;
    LexTwoNames(a, sep, b);
  }

  lemma LexTwoNames(a: string, sep: string, b: string)
    requires IsIdentifier(a) && IsIdentifier(b) && sep == ", "
    ensures Sql.Lex(a + sep + b) == [Sql.Word(a), Sql.Comma, Sql.Word(b)]
  {
    WhereMeaning.LexIdentifier(a);
    WhereMeaning.LexIdentifier(b);
    LexComma(a, sep, b);
  }

  lemma LexInsertWords(insert: string, into: string, values: string)
    requires insert == "INSERT" && into == "INTO" && values == "VALUES"
    ensures Sql.Lex(insert) == [Sql.Word(insert)] && Sql.Lex(into) == [Sql.Word(into)]
            && Sql.Lex(values) == [Sql.Word(values)]
  {
    Sql.LexWord(insert);
    Sql.LexWord(into);
    Sql.LexWord(values);
  }

  lemma LexOnDo(on: string, do: string)
    requires on == "ON" && do == "DO"
    ensures Sql.Lex(on) == [Sql.Word(on)] && Sql.Lex(do) == [Sql.Word(do)]
  {
    Sql.LexWord(on);
    Sql.LexWord(do);
  }

  lemma LexUpdateSet(update: string, set_: string)
    requires update == "UPDATE" && set_ == "SET"
    ensures Sql.Lex(update) == [Sql.Word(update)] && Sql.Lex(set_) == [Sql.Word(set_)]
  {
    Sql.LexWord(update);
    Sql.LexWord(set_);
  }

  lemma LexFiveWords(a: string, b: string, c: string, d: string, e: string, inner: seq<Sql.Token>)
    requires Sql.Lex(a) == [Sql.Word(a)] && Sql.Lex(b) == [Sql.Word(b)] && Sql.Lex(c) == [Sql.Word(c)]
             && Sql.Lex(e) == [Sql.Word(e)]
    requires Sql.Lex(d) == inner
    ensures Sql.Lex(Spaced([a, b, c, d, e])) == [Sql.Word(a), Sql.Word(b), Sql.Word(c)] + (inner + [Sql.Word(e)])
  {
    LexThreeWords(a, b, c);
    LexTwoWords(d, e);
    LexTwoParts([a, b, c], [d, e]);
    assert [a, b, c] + [d, e] == [a, b, c, d, e];
  }

  lemma LexSixWords(a: string, b: string, c: string, d: string, e: string, f: string, target: seq<Sql.Token>,
                    tokens: seq<Sql.Token>)
    requires Sql.Lex(a) == [Sql.Word(a)] && Sql.Lex(c) == [Sql.Word(c)] && Sql.Lex(d) == [Sql.Word(d)]
             && Sql.Lex(e) == [Sql.Word(e)]
    requires Sql.Lex(b) == target && Sql.Lex(f) == tokens
    ensures Sql.Lex(Spaced([a, b, c, d, e, f]))
            == [Sql.Word(a)] + target + [Sql.Word(c)] + ([Sql.Word(d)] + [Sql.Word(e)] + tokens)
  {
    LexThreeWords(a, b, c);
    LexThreeWords(d, e, f);
    LexTwoParts([a, b, c], [d, e, f]);
    assert [a, b, c] + [d, e, f] == [a, b, c, d, e, f];
  }

  lemma LexFront(table: string, names: string, tokens: seq<Sql.Token>)
    requires Sql.Lex(table) == [Sql.Word(table)] && Sql.Lex(names) == [Sql.LParen] + tokens + [Sql.RParen]
    ensures Sql.Lex(Spaced(["INSERT", "INTO", table, names, "VALUES"]))
            == [Sql.Word("INSERT"), Sql.Word("INTO"), Sql.Word(table), Sql.LParen] + tokens
                + [Sql.RParen, Sql.Word("VALUES")]
  {
    var insert, into, values := "INSERT", "INTO", "VALUES";
    LexInsertWords(insert, into, values);
    LexFiveWords(insert, into, table, names, values, [Sql.LParen] + tokens + [Sql.RParen]);
    FrontTokens(Sql.Word(insert), Sql.Word(into), Sql.Word(table), tokens, Sql.Word(values));
  }

  lemma FrontTokens(a: Sql.Token, b: Sql.Token, c: Sql.Token, tokens: seq<Sql.Token>, last: Sql.Token)
    ensures [a, b, c] + ([Sql.LParen] + tokens + [Sql.RParen] + [last])
            == [a, b, c, Sql.LParen] + tokens + [Sql.RParen, last]
  {
  }

  lemma LexNamesInParens(u: Upsert, names: string)
    requires Named(u) && names == "(" + Strings.JoinComma(InsertCols(u)) + ")"
    ensures Sql.Lex(names) == [Sql.LParen] + NameTokens(InsertCols(u)) + [Sql.RParen]
            && Sql.Lex(u.table) == [Sql.Word(u.table)]
  {
    var inner := Strings.JoinComma(InsertCols(u));
    WhereMeaning.LexIdentifier(u.table);
    InsertColsNamed(u);
    LexNames(InsertCols(u));
    LexInParens(inner, NameTokens(InsertCols(u)), names);
  }

  lemma InsertColsNamed(u: Upsert)
    requires Named(u)
    ensures Names(InsertCols(u))
  {
  }

  lemma LexInParens(inner: string, tokens: seq<Sql.Token>, text: string)
    requires Sql.Lex(inner) == tokens && text == "(" + inner + ")"
    ensures Sql.Lex(text) == [Sql.LParen] + tokens + [Sql.RParen]
  {
    WhereMeaning.LexParens(inner);
  }

  lemma LexBack(target: string, changes: string, tokens: seq<Sql.Token>)
    requires Sql.Lex(target) == Target() && Sql.Lex(changes) == tokens
    ensures Sql.Lex(Spaced(["ON", target, "DO", "UPDATE", "SET", changes])) == Middle() + tokens
  {
    var on, do, update, set_ := "ON", "DO", "UPDATE", "SET";
    LexOnDo(on, do);
    LexUpdateSet(update, set_);
    LexSixWords(on, target, do, update, set_, changes, Target(), tokens);
    BackTokens(Sql.Word(on), Target(), Sql.Word(do), Sql.Word(update), Sql.Word(set_), tokens);
  }

  lemma BackTokens(a: Sql.Token, b: seq<Sql.Token>, c: Sql.Token, d: Sql.Token, e: Sql.Token, tokens: seq<Sql.Token>)
    ensures [a] + b + [c] + ([d] + [e] + tokens) == [a] + b + [c, d, e] + tokens
  {
  }

  lemma SpellConflict(target: string, word: string, inner: string)
    requires target == "CONFLICT(tenant, id)" && word == "CONFLICT" && inner == "tenant, id"
    ensures target == word + ("(" + inner + ")")
  {
  }

  lemma LexConflict(target: string)
    requires target == "CONFLICT(tenant, id)"
    ensures Sql.Lex(target) == Target()
  {
    var word, inner := "CONFLICT", "tenant, id";
    LexConflictWord(word);
    LexTenantId(inner);
    LexTarget(word, inner);
    SpellConflict(target, word, inner);
  }

  lemma LexConflictWord(word: string)
    requires word == "CONFLICT"
    ensures Sql.Lex(word) == [Sql.Word("CONFLICT")]
  {
    Sql.LexWord(word);
  }

  lemma LexValues(n: nat, marks: string)
    requires marks == "(" + Where.Placeholders(n) + ")"
    ensures Sql.Lex(Spaced([marks])) == Values(n)
  {
    WhereMeaning.LexPlaceholders(n);
    WhereMeaning.LexParens(Where.Placeholders(n));
  }

  lemma LexAllChanges(u: Upsert)
    requires Named(u)
    ensures Sql.Lex(Strings.JoinComma(ChangeTexts(u.table, Changes(u)))) == ChangesTokens(u.table, Changes(u))
  {
    forall c | c in Changes(u) ensures IsIdentifier(c.column) {}
    LexChanges(u.table, Changes(u));
  }

  lemma LexFrontWords(u: Upsert)
    requires Named(u)
    ensures Sql.Lex(Spaced(FrontWords(u))) == Front(u)
  {
    var names, tokens := "(" + Strings.JoinComma(InsertCols(u)) + ")", NameTokens(InsertCols(u));
    LexNamesInParens(u, names);
    LexFront(u.table, names, tokens);
  }

  lemma LexBackWords(u: Upsert)
    requires Named(u)
    ensures Sql.Lex(Spaced(BackWords(u))) == Middle() + ChangesTokens(u.table, Changes(u))
  {
    var target, changes := "CONFLICT(tenant, id)", Strings.JoinComma(ChangeTexts(u.table, Changes(u)));
    LexConflict(target);
    LexAllChanges(u);
    LexBack(target, changes, ChangesTokens(u.table, Changes(u)));
  }

  /** The text of the statement is made of exactly the tokens meant. */
  lemma LexStatement(u: Upsert)
    requires Named(u)
    ensures Sql.Lex(Statement(u)) == StatementTokens(u)
  {
    var n := |InsertCols(u)|;
    var marks := "(" + Where.Placeholders(n) + ")";
    LexFrontWords(u);
    LexValues(n, marks);
    LexBackWords(u);
    ThreeParts(FrontWords(u), [marks], BackWords(u));
  }

  lemma ThreeParts(a: seq<string>, b: seq<string>, c: seq<string>)
    requires a != [] && b != [] && c != []
    ensures Sql.Lex(Spaced(a + b + c)) == Sql.Lex(Spaced(a)) + Sql.Lex(Spaced(b)) + Sql.Lex(Spaced(c))
  {
    SpacedAppend(a + b, c);
    SpacedAppend(a, b);
    WhereMeaning.LexSpaced(Spaced(a + b), Spaced(c));
    WhereMeaning.LexSpaced(Spaced(a), Spaced(b));
  }

  // ── reading the statement back ───────────────────────────────────────────────

  /** An assignment as parsed: the proposed value of the column, or its sum with an argument. */
  datatype Assignment = Proposed(column: string) | Sum(column: string, table: string, param: int)

  datatype Insert = Insert(table: string, columns: seq<string>, params: seq<int>, conflict: seq<string>,
                           updates: seq<Assignment>)

  /** `a, b, c )` */
  function ParseNames(ts: seq<Sql.Token>): (r: Option<Sql.Parsed<seq<string>>>)
    ensures r.Some? ==> |r.value.rest| < |ts|
  {
    if |ts| < 2 || !ts[0].Word? then None
    else if ts[1] == Sql.RParen then Some(Sql.Parsed([ts[0].s], ts[2..]))
    else if ts[1] != Sql.Comma then None
    else
      match ParseNames(ts[2..])
      case None => None
      case Some(p) => Some(Sql.Parsed([ts[0].s] + p.value, p.rest))
  }

  /** `c = excluded.c` or `c = COALESCE(t.c, 0) + ?` */
  function ParseAssignment(ts: seq<Sql.Token>): (r: Option<Sql.Parsed<Assignment>>)
    ensures r.Some? ==> |r.value.rest| < |ts|
  {
    if |ts| < 5 || !ts[0].Word? || ts[1] != Sql.Operator("=") then None
    else if ts[2] == Sql.Word("excluded") && ts[3] == Sql.Other('.') && ts[4] == ts[0] then
      Some(Sql.Parsed(Proposed(ts[0].s), ts[5..]))
    else if |ts| >= 12 && ts[4].Word? && ts[2..12] == CoalesceTokens(ts[4].s, ts[0].s) + [Sql.Other('+'), ts[11]]
        && ts[11].Param? then
      Some(Sql.Parsed(Sum(ts[0].s, ts[4].s, ts[11].index), ts[12..]))
    else None
  }

  /** Assignments to the end of the statement. */
  function ParseAssignments(ts: seq<Sql.Token>): Option<seq<Assignment>> {
    match ParseAssignment(ts)
    case None => None
    case Some(p) =>
      if p.rest == [] then Some([p.value])
      else if p.rest[0] != Sql.Comma then None
      else
        match ParseAssignments(p.rest[1..])
        case None => None
        case Some(more) => Some([p.value] + more)
  }

  /** From `CONFLICT` on. */
  function ParseConflict(ts: seq<Sql.Token>): Option<(seq<string>, seq<Assignment>)> {
    if |ts| < 2 || ts[0] != Sql.Word("CONFLICT") || ts[1] != Sql.LParen then None
    else
      match ParseNames(ts[2..])
      case None => None
      case Some(p) =>
        if |p.rest| < 3 || p.rest[..3] != [Sql.Word("DO"), Sql.Word("UPDATE"), Sql.Word("SET")] then None
        else
          match ParseAssignments(p.rest[3..])
          case None => None
          case Some(updates) => Some((p.value, updates))
  }

  /** From `VALUES` on: the arguments of the proposed row, the conflict target, the updates. */
  function ParseValues(ts: seq<Sql.Token>): Option<(seq<int>, seq<string>, seq<Assignment>)> {
    if |ts| < 2 || ts[0] != Sql.Word("VALUES") || ts[1] != Sql.LParen then None
    else
      match Sql.ParseParams(ts[2..])
      case None => None
      case Some(p) =>
        if p.rest == [] || p.rest[0] != Sql.Word("ON") then None
        else
          match ParseConflict(p.rest[1..])
          case None => None
          case Some(c) => Some((p.value, c.0, c.1))
  }

  function ParseInsert(ts: seq<Sql.Token>): Option<Insert> {
    if |ts| < 4 || ts[0] != Sql.Word("INSERT") || ts[1] != Sql.Word("INTO") || !ts[2].Word? || ts[3] != Sql.LParen then
      None
    else
      match ParseNames(ts[4..])
      case None => None
      case Some(p) =>
        match ParseValues(p.rest)
        case None => None
        case Some(v) => Some(Insert(ts[2].s, p.value, v.0, v.1, v.2))
  }

  /** The statement as any engine reads it once its placeholders are bound in position. */
  function Read(text: string): Option<Insert> { ParseInsert(Sql.Positional(Sql.Lex(text), 0)) }

  lemma {:induction false} ParseNamesOf(names: seq<string>, rest: seq<Sql.Token>)
    requires names != []
    ensures ParseNames(NameTokens(names) + [Sql.RParen] + rest) == Some(Sql.Parsed(names, rest))
    decreases |names|
  {
    if |names| == 1 {
      LastName(names[0], rest);
      assert [names[0]] == names;
    } else {
      ParseNamesOf(names[1..], rest);
      NextName(names[0], NameTokens(names[1..]), rest);
      assert [names[0]] + names[1..] == names;
    }
  }

  lemma LastName(name: string, rest: seq<Sql.Token>)
    ensures ParseNames([Sql.Word(name)] + [Sql.RParen] + rest) == Some(Sql.Parsed([name], rest))
  {
    var ts := [Sql.Word(name)] + [Sql.RParen] + rest;
    assert ts[0] == Sql.Word(name) && ts[1] == Sql.RParen && ts[2..] == rest;
  }

  lemma NextName(name: string, more: seq<Sql.Token>, rest: seq<Sql.Token>)
    requires ParseNames(more + [Sql.RParen] + rest).Some?
    ensures var p := ParseNames(more + [Sql.RParen] + rest).value;
            ParseNames([Sql.Word(name), Sql.Comma] + more + [Sql.RParen] + rest)
                == Some(Sql.Parsed([name] + p.value, p.rest))
  {
    var ts := [Sql.Word(name), Sql.Comma] + more + [Sql.RParen] + rest;
    assert ts[0] == Sql.Word(name) && ts[1] == Sql.Comma && ts[2..] == more + [Sql.RParen] + rest;
  }

  /** The assignments with their arguments, the first addition taking argument `base`. */
  function Assigned(table: string, cs: seq<Change>, base: nat): seq<Assignment> {
    if cs == [] then []
    else
      match cs[0]
      case Take(col) => [Proposed(col)] + Assigned(table, cs[1..], base)
      case Add(col) => [Sum(col, table, base)] + Assigned(table, cs[1..], base + 1)
  }

  function Marked(c: Change): nat { if c.Add? then 1 else 0 }

  lemma ChangeMarks(table: string, c: Change)
    ensures Sql.Marks(ChangeTokens(table, c)) == Marked(c)
  {
    BoundChange(table, c, 0);
  }

  lemma BoundChange(table: string, c: Change, base: nat)
    ensures Sql.Marks(ChangeTokens(table, c)) == Marked(c)
    ensures Sql.Positional(ChangeTokens(table, c), base)
            == match c
               case Take(_) => ChangeTokens(table, c)
               case Add(col) =>
                   [Sql.Word(col), Sql.Operator("=")] + CoalesceTokens(table, col)
                   + [Sql.Other('+'), Sql.Param(base)]
  {
    match c
    case Take(col) => WhereMeaning.PositionalNoMarks(ChangeTokens(table, c), base);
    case Add(col) =>
      AddCut(table, col);
      BoundLast(AddFront(table, col), base);
  }

  function AddFront(table: string, col: string): seq<Sql.Token> {
    [Sql.Word(col), Sql.Operator("=")] + CoalesceTokens(table, col) + [Sql.Other('+')]
  }

  lemma AddCut(table: string, col: string)
    ensures ChangeTokens(table, Add(col)) == AddFront(table, col) + [Sql.BARE]
    ensures forall t :: t in AddFront(table, col) ==> !t.Mark?
    ensures forall k: nat ::
              AddFront(table, col) + [Sql.Param(k)]
              == [Sql.Word(col), Sql.Operator("=")] + CoalesceTokens(table, col) + [Sql.Other('+'), Sql.Param(k)]
  {
  }

  /** One placeholder after tokens without any. */
  lemma BoundLast(front: seq<Sql.Token>, base: nat)
    requires forall t :: t in front ==> !t.Mark?
    ensures Sql.Marks(front + [Sql.BARE]) == 1
    ensures Sql.Positional(front + [Sql.BARE], base) == front + [Sql.Param(base)]
  {
    WhereMeaning.PositionalNoMarks(front, base);
    Sql.PositionalAppend(front, [Sql.BARE], base);
    Sql.MarksAppend(front, [Sql.BARE]);
    assert [Sql.BARE][1..] == [];
  }

  lemma ParseChange(table: string, c: Change, base: nat, rest: seq<Sql.Token>)
    ensures ParseAssignment(Sql.Positional(ChangeTokens(table, c), base) + rest)
            == Some(Sql.Parsed(Assigned(table, [c], base)[0], rest))
  {
    BoundChange(table, c, base);
    var ts := Sql.Positional(ChangeTokens(table, c), base) + rest;
    match c
    case Take(col) => assert ts[5..] == rest;
    case Add(col) => SumTokens(table, col, base, rest, ts);
  }

  lemma SumTokens(table: string, col: string, base: nat, rest: seq<Sql.Token>, ts: seq<Sql.Token>)
    requires ts == [Sql.Word(col), Sql.Operator("=")] + CoalesceTokens(table, col) + [Sql.Other('+'), Sql.Param(base)]
             + rest
    ensures ParseAssignment(ts) == Some(Sql.Parsed(Sum(col, table, base), rest))
  {
    assert ts[0] == Sql.Word(col) && ts[1] == Sql.Operator("=") && ts[2] == Sql.Word("COALESCE")
        && ts[4] == Sql.Word(table);
    assert ts[11] == Sql.Param(base) && ts[12..] == rest;
    assert ts[2..12] == CoalesceTokens(table, col) + [Sql.Other('+'), ts[11]];
  }

  lemma BoundChanges(table: string, cs: seq<Change>, base: nat)
    requires |cs| > 1
    ensures Sql.Positional(ChangesTokens(table, cs), base)
            == Sql.Positional(ChangeTokens(table, cs[0]), base)
               + ([Sql.Comma] + Sql.Positional(ChangesTokens(table, cs[1..]), base + Marked(cs[0])))
  {
    ChangeMarks(table, cs[0]);
    MoreChanges(table, cs);
    BoundComma(ChangesTokens(table, cs), ChangeTokens(table, cs[0]), ChangesTokens(table, cs[1..]), base,
               Marked(cs[0]));
  }

  lemma MoreChanges(table: string, cs: seq<Change>)
    requires |cs| > 1
    ensures ChangesTokens(table, cs) == ChangeTokens(table, cs[0]) + [Sql.Comma] + ChangesTokens(table, cs[1..])
  {
  }

  lemma BoundComma(all: seq<Sql.Token>, first: seq<Sql.Token>, more: seq<Sql.Token>, base: nat, n: nat)
    requires Sql.Marks(first) == n && all == first + [Sql.Comma] + more
    ensures Sql.Positional(all, base) == Sql.Positional(first, base) + ([Sql.Comma] + Sql.Positional(more, base + n))
  {
    Sql.PositionalAppend(first + [Sql.Comma], more, base);
    Sql.PositionalAppend(first, [Sql.Comma], base);
    Sql.MarksAppend(first, [Sql.Comma]);
    WhereMeaning.PositionalNoMarks([Sql.Comma], base + n);
  }

  lemma {:induction false} ParseChanges(table: string, cs: seq<Change>, base: nat)
    requires cs != []
    ensures ParseAssignments(Sql.Positional(ChangesTokens(table, cs), base)) == Some(Assigned(table, cs, base))
  {
    var ts := Sql.Positional(ChangesTokens(table, cs), base);
    if |cs| == 1 {
      ParseChange(table, cs[0], base, []);
      AssignedFirst(table, cs, base);
      assert ts + [] == ts && cs[1..] == [];
      assert ChangesTokens(table, cs) == ChangeTokens(table, cs[0]);
      assert Assigned(table, cs[1..], base + Marked(cs[0])) == [];
      assert Assigned(table, cs, base) == [Assigned(table, [cs[0]], base)[0]];
    } else {
      var more := Sql.Positional(ChangesTokens(table, cs[1..]), base + Marked(cs[0]));
      BoundChanges(table, cs, base);
      ParseChange(table, cs[0], base, [Sql.Comma] + more);
      ParseChanges(table, cs[1..], base + Marked(cs[0]));
      assert ([Sql.Comma] + more)[1..] == more;
      AssignedFirst(table, cs, base);
    }
  }

  lemma AssignedFirst(table: string, cs: seq<Change>, base: nat)
    requires cs != []
    ensures Assigned(table, cs, base)
            == [Assigned(table, [cs[0]], base)[0]] + Assigned(table, cs[1..], base + Marked(cs[0]))
  {
  }

  lemma ParseMiddle(cs: seq<Change>, table: string, base: nat)
    requires cs != []
    ensures ParseConflict((Middle() + Sql.Positional(ChangesTokens(table, cs), base))[1..])
            == Some((["tenant", "id"], Assigned(table, cs, base)))
  {
    ParseChanges(table, cs, base);
    ParseTarget(["tenant", "id"], Sql.Positional(ChangesTokens(table, cs), base), Assigned(table, cs, base));
  }

  function DoUpdateSet(): seq<Sql.Token> { [Sql.Word("DO"), Sql.Word("UPDATE"), Sql.Word("SET")] }

  lemma ParseTarget(names: seq<string>, changes: seq<Sql.Token>, updates: seq<Assignment>)
    requires names == ["tenant", "id"] && ParseAssignments(changes) == Some(updates)
    ensures ParseConflict((Middle() + changes)[1..]) == Some((names, updates))
  {
    var ts, rest := (Middle() + changes)[1..], DoUpdateSet() + changes;
    TargetTokens(names, changes);
    ParseNamesOf(names, rest);
    assert rest[..3] == DoUpdateSet() && rest[3..] == changes;
  }

  lemma TargetTokens(names: seq<string>, changes: seq<Sql.Token>)
    requires names == ["tenant", "id"]
    ensures (Middle() + changes)[1..]
            == [Sql.Word("CONFLICT"), Sql.LParen] + (NameTokens(names) + [Sql.RParen] + (DoUpdateSet() + changes))
  {
    assert names[1..] == ["id"];
    assert NameTokens(names) == [Sql.Word("tenant"), Sql.Comma] + [Sql.Word("id")];
  }

  lemma BoundValues(n: nat)
    ensures Sql.Marks(Values(n)) == n
    ensures Sql.Positional(Values(n), 0) == [Sql.LParen] + Sql.Positional(WhereMeaning.MarkTokens(n), 0) + [Sql.RParen]
  {
    var marks := WhereMeaning.MarkTokens(n);
    WhereMeaning.MarkTokensCount(n);
    WhereMeaning.PositionalNoMarks([Sql.LParen], 0);
    WhereMeaning.PositionalNoMarks([Sql.RParen], n);
    Sql.PositionalAppend([Sql.LParen] + marks, [Sql.RParen], 0);
    Sql.PositionalAppend([Sql.LParen], marks, 0);
    Sql.MarksAppend([Sql.LParen] + marks, [Sql.RParen]);
    Sql.MarksAppend([Sql.LParen], marks);
  }

  lemma {:induction false} NamesUnmarked(names: seq<string>)
    ensures forall t :: t in NameTokens(names) ==> t.Word? || t == Sql.Comma
  {
    if |names| > 1 {
      NamesUnmarked(names[1..]);
    }
  }

  /** The statement's tokens with the placeholders bound. */
  lemma BoundStatement(u: Upsert)
    ensures var n := |InsertCols(u)|;
            Sql.Positional(StatementTokens(u), 0)
            == Front(u) + Sql.Positional(Values(n), 0)
                + (Middle() + Sql.Positional(ChangesTokens(u.table, Changes(u)), n))
  {
    var n := |InsertCols(u)|;
    FrontUnmarked(u);
    BoundValues(n);
    BoundThree(Front(u), Values(n), n, Middle(), ChangesTokens(u.table, Changes(u)));
  }

  lemma FrontUnmarked(u: Upsert)
    ensures forall t :: t in Front(u) ==> !t.Mark?
  {
    NamesUnmarked(InsertCols(u));
  }

  lemma BoundThree(a: seq<Sql.Token>, b: seq<Sql.Token>, n: nat, c: seq<Sql.Token>, d: seq<Sql.Token>)
    requires (forall t :: t in a ==> !t.Mark?) && (forall t :: t in c ==> !t.Mark?) && Sql.Marks(b) == n
    ensures Sql.Positional(a + b + (c + d), 0) == a + Sql.Positional(b, 0) + (c + Sql.Positional(d, n))
  {
    WhereMeaning.PositionalNoMarks(a, 0);
    WhereMeaning.PositionalNoMarks(c, n);
    Sql.PositionalAppend(a + b, c + d, 0);
    Sql.PositionalAppend(a, b, 0);
    Sql.MarksAppend(a, b);
    Sql.PositionalAppend(c, d, n);
  }

  lemma ParseRow(n: nat, after: seq<Sql.Token>, conflict: seq<string>, updates: seq<Assignment>)
    requires n > 0 && after != [] && after[0] == Sql.Word("ON")
             && ParseConflict(after[1..]) == Some((conflict, updates))
    ensures ParseValues([Sql.Word("VALUES")] + (Sql.Positional(Values(n), 0) + after))
            == Some((WhereMeaning.Indices(0, n), conflict, updates))
  {
    BoundValues(n);
    WhereMeaning.ParseMarks(n, 0, after);
    RowTokens(Sql.Positional(WhereMeaning.MarkTokens(n), 0), after);
  }

  lemma RowTokens(marks: seq<Sql.Token>, after: seq<Sql.Token>)
    ensures var ts := [Sql.Word("VALUES")] + ([Sql.LParen] + marks + [Sql.RParen] + after);
            ts[0] == Sql.Word("VALUES") && ts[1] == Sql.LParen && ts[2..] == marks + [Sql.RParen] + after
  {
  }

  lemma ParseWhole(u: Upsert, values: seq<Sql.Token>, params: seq<int>, conflict: seq<string>, updates: seq<Assignment>)
    requires ParseValues([Sql.Word("VALUES")] + values) == Some((params, conflict, updates))
    ensures ParseInsert(Front(u) + values) == Some(Insert(u.table, InsertCols(u), params, conflict, updates))
  {
    ParseNamesOf(InsertCols(u), [Sql.Word("VALUES")] + values);
    WholeTokens(u.table, NameTokens(InsertCols(u)), values);
  }

  lemma WholeTokens(table: string, names: seq<Sql.Token>, values: seq<Sql.Token>)
    ensures var ts := [Sql.Word("INSERT"), Sql.Word("INTO"), Sql.Word(table), Sql.LParen] + names
            + [Sql.RParen, Sql.Word("VALUES")] + values;
            && ts[0] == Sql.Word("INSERT") && ts[1] == Sql.Word("INTO") && ts[2] == Sql.Word(table)
            && ts[3] == Sql.LParen
            && ts[4..] == names + [Sql.RParen] + ([Sql.Word("VALUES")] + values)
  {
  }

  /** The emitted text reads back as the insert meant: every column with the argument at its
      place, and the additions with the arguments after those. */
  lemma StatementReads(u: Upsert)
    requires Named(u)
    ensures var n := |InsertCols(u)|;
            Read(Statement(u))
            == Some(Insert(u.table, InsertCols(u), WhereMeaning.Indices(0, n), ["tenant", "id"],
                           Assigned(u.table, Changes(u), n)))
  {
    var n := |InsertCols(u)|;
    var after := Middle() + Sql.Positional(ChangesTokens(u.table, Changes(u)), n);
    LexStatement(u);
    BoundStatement(u);
    ParseMiddle(Changes(u), u.table, n);
    ParseRow(n, after, ["tenant", "id"], Assigned(u.table, Changes(u), n));
    ParseWhole(u, Sql.Positional(Values(n), 0) + after, WhereMeaning.Indices(0, n), ["tenant", "id"],
               Assigned(u.table, Changes(u), n));
    Grouped(Front(u), Sql.Positional(Values(n), 0), after);
  }

  lemma Grouped(a: seq<Sql.Token>, b: seq<Sql.Token>, c: seq<Sql.Token>)
    ensures a + b + c == a + (b + c)
  {
  }

  // ── what it does to a table ──────────────────────────────────────────────────

  function Fetch(params: seq<int>, args: seq<Value>): (r: seq<Value>)
    ensures |r| == |params| && forall i :: 0 <= i < |r| ==> r[i] == Sql.Argument(args, params[i])
  {
    seq(|params|, i requires 0 <= i < |params| => Sql.Argument(args, params[i]))
  }

  function PairUp(cols: seq<string>, vals: seq<Value>): map<string, Value>
    requires |cols| == |vals|
  {
    if cols == [] then map[] else map[cols[0] := vals[0]] + PairUp(cols[1..], vals[1..])
  }

  /** The row a conflict is about: what was proposed, what is stored, and the arguments. */
  datatype Conflict = Conflict(table: string, proposed: map<string, Value>, stored: Row, args: seq<Value>)

  /** What an assignment gives its column; None where the database refuses. */
  function Assign(a: Assignment, on: Conflict): Option<Value> {
    match a
    case Proposed(c) => if c in on.proposed then Some(on.proposed[c]) else None
    case Sum(c, t, p) =>
      var v := Sql.Argument(on.args, p);
      if t == on.table && v.Number? && Addable(Cell(on.stored, c)) then Some(Plus(Cell(on.stored, c), v.n)) else None
  }

  /** All assignments, after those already made; a later one on the same column wins. */
  function AssignAll(list: seq<Assignment>, on: Conflict, made: map<string, Value>): Option<map<string, Value>> {
    if list == [] then Some(made)
    else
      match Assign(list[0], on)
      case None => None
      case Some(v) => AssignAll(list[1..], on, made + map[list[0].column := v])
  }

  /** Insert the proposed row, or on conflict of (tenant, id) assign to the stored one. */
  function Execute(s: Insert, args: seq<Value>, t: Table): Option<Table> {
    if |s.columns| != |s.params| || s.conflict != ["tenant", "id"] then None
    else
      var row := PairUp(s.columns, Fetch(s.params, args));
      if "tenant" !in row || "id" !in row || !row["tenant"].Text? || !row["id"].Text? then None
      else
        var k := RowKey(row["tenant"].s, row["id"].s);
        if k !in t then Some(t[k := row - SPINE])
        else
          match AssignAll(s.updates, Conflict(s.table, row, t[k], args), map[])
          case None => None
          case Some(changes) => Some(t[k := t[k] + (changes - SPINE)])
  }

  // ── the arguments the fold passes ────────────────────────────────────────────

  function ValuesOf(cols: seq<string>, m: map<string, Value>): (r: seq<Value>)
    requires forall c :: c in cols ==> c in m
    ensures |r| == |cols| && forall i :: 0 <= i < |r| ==> r[i] == m[cols[i]]
  {
    seq(|cols|, i requires 0 <= i < |cols| => m[cols[i]])
  }

  function AsValues(incs: map<string, real>): map<string, Value> { map c | c in incs :: Number(incs[c]) }

  function Arguments(u: Upsert, k: RowKey, sets: map<string, Value>, incs: map<string, real>, now: int): seq<Value>
    requires forall c :: c in u.setCols ==> c in sets
    requires forall c :: c in u.incCols ==> c in incs
  {
    [Text(k.tenant), Text(k.id)] + ValuesOf(u.setCols, sets) + ValuesOf(u.incCols, AsValues(incs))
        + [Number(now as real)]
    + ValuesOf(u.incCols, AsValues(incs))
  }

  ghost predicate Enumerates(cols: seq<string>, s: set<string>) { forall c :: c in cols <==> c in s }

  function Restrict(cols: seq<string>, m: map<string, Value>): map<string, Value> {
    map c | c in m && c in cols :: m[c]
  }

  lemma MapAssoc(a: map<string, Value>, b: map<string, Value>, c: map<string, Value>)
    ensures a + b + c == a + (b + c)
  {
  }

  lemma {:induction false} PairUpAppend(a: seq<string>, b: seq<string>, x: seq<Value>, y: seq<Value>)
    requires |a| == |x| && |b| == |y|
    ensures PairUp(a + b, x + y) == PairUp(a, x) + PairUp(b, y)
  {
    if a == [] {
      assert a + b == b && x + y == y;
    } else {
      assert (a + b)[1..] == a[1..] + b && (x + y)[1..] == x[1..] + y;
      PairUpAppend(a[1..], b, x[1..], y);
      MapAssoc(map[a[0] := x[0]], PairUp(a[1..], x[1..]), PairUp(b, y));
    }
  }

  lemma RestrictStep(cols: seq<string>, m: map<string, Value>)
    requires cols != [] && cols[0] in m
    ensures Restrict(cols, m) == map[cols[0] := m[cols[0]]] + Restrict(cols[1..], m)
  {
  }

  lemma {:induction false} PairUpValues(cols: seq<string>, m: map<string, Value>)
    requires forall c :: c in cols ==> c in m
    ensures PairUp(cols, ValuesOf(cols, m)) == Restrict(cols, m)
  {
    if cols != [] {
      PairUpValues(cols[1..], m);
      assert ValuesOf(cols, m)[1..] == ValuesOf(cols[1..], m);
      RestrictStep(cols, m);
    }
  }

  lemma WholeMap(cols: seq<string>, m: map<string, Value>)
    requires Enumerates(cols, m.Keys)
    ensures Restrict(cols, m) == m
  {
  }

  function IdColumns(k: RowKey): map<string, Value> { map["tenant" := Text(k.tenant), "id" := Text(k.id)] }

  function NowColumn(now: int): map<string, Value> { map["updated_at" := Number(now as real)] }

  lemma IdPair(k: RowKey)
    ensures PairUp(["tenant", "id"], [Text(k.tenant), Text(k.id)]) == IdColumns(k)
  {
    var cols, vals := ["tenant", "id"], [Text(k.tenant), Text(k.id)];
    assert cols[1..] == ["id"] && vals[1..] == [Text(k.id)];
    assert ["id"][1..] == [] && [Text(k.id)][1..] == [];
    assert PairUp(["id"], [Text(k.id)]) == map["id" := Text(k.id)];
    assert map["tenant" := Text(k.tenant)] + map["id" := Text(k.id)] == IdColumns(k);
  }

  lemma NowPair(now: int)
    ensures PairUp(["updated_at"], [Number(now as real)]) == NowColumn(now)
  {
    assert ["updated_at"][1..] == [];
  }

  /** What the first arguments propose: each on the column it was resolved for. */
  lemma ProposedRow(u: Upsert, k: RowKey, sets: map<string, Value>, incs: map<string, real>, now: int)
    requires Enumerates(u.setCols, sets.Keys) && Enumerates(u.incCols, incs.Keys)
    ensures PairUp(InsertCols(u), [Text(k.tenant), Text(k.id)] + ValuesOf(u.setCols, sets)
                   + ValuesOf(u.incCols, AsValues(incs)) + [Number(now as real)])
            == IdColumns(k) + sets + AsValues(incs) + NowColumn(now)
  {
    var ids, last := ["tenant", "id"], ["updated_at"];
    var idVals, lastVals := [Text(k.tenant), Text(k.id)], [Number(now as real)];
    var setVals, incVals := ValuesOf(u.setCols, sets), ValuesOf(u.incCols, AsValues(incs));
    PairUpAppend(ids + u.setCols + u.incCols, last, idVals + setVals + incVals, lastVals);
    PairUpAppend(ids + u.setCols, u.incCols, idVals + setVals, incVals);
    PairUpAppend(ids, u.setCols, idVals, setVals);
    IdPair(k);
    NowPair(now);
    PairUpValues(u.setCols, sets);
    PairUpValues(u.incCols, AsValues(incs));
    WholeMap(u.setCols, sets);
    WholeMap(u.incCols, AsValues(incs));
  }

  /** The arguments stand where the text's placeholders want them: those of the proposed row
      first, column by column, then one for each addition. */
  lemma ArgumentsAlign(u: Upsert, k: RowKey, sets: map<string, Value>, incs: map<string, real>, now: int)
    requires Enumerates(u.setCols, sets.Keys) && Enumerates(u.incCols, incs.Keys)
    ensures var args := Arguments(u, k, sets, incs, now); var n := |InsertCols(u)|;
            && |args| == n + |u.incCols|
            && PairUp(InsertCols(u), Fetch(WhereMeaning.Indices(0, n), args)) == RowOf(k, sets, incs, now)
            && Carries(args, n, u.incCols, incs)
  {
    var front := [Text(k.tenant), Text(k.id)] + ValuesOf(u.setCols, sets) + ValuesOf(u.incCols, AsValues(incs))
        + [Number(now as real)];
    FetchFirst(front, ValuesOf(u.incCols, AsValues(incs)));
    ProposedRow(u, k, sets, incs, now);
    CarriesLast(front, u.incCols, incs);
  }

  lemma FetchFirst(front: seq<Value>, back: seq<Value>)
    ensures Fetch(WhereMeaning.Indices(0, |front|), front + back) == front
  {
  }

  lemma CarriesLast(front: seq<Value>, cols: seq<string>, incs: map<string, real>)
    requires forall c :: c in cols ==> c in incs
    ensures Carries(front + ValuesOf(cols, AsValues(incs)), |front|, cols, incs)
  {
    var back := ValuesOf(cols, AsValues(incs));
    forall i | 0 <= i < |cols|
      ensures cols[i] in incs && Sql.Argument(front + back, |front| + i) == Number(incs[cols[i]])
    {
      assert (front + back)[|front| + i] == back[i];
    }
  }

  // ── running it is the fold ───────────────────────────────────────────────────

  function ProposedOf(cols: seq<string>): (r: seq<Assignment>)
    ensures |r| == |cols| && forall i :: 0 <= i < |r| ==> r[i] == Proposed(cols[i])
  {
    seq(|cols|, i requires 0 <= i < |cols| => Proposed(cols[i]))
  }

  function SumsOf(table: string, cols: seq<string>, base: nat): (r: seq<Assignment>)
    ensures |r| == |cols| && forall i :: 0 <= i < |r| ==> r[i] == Sum(cols[i], table, base + i)
  {
    seq(|cols|, i requires 0 <= i < |cols| => Sum(cols[i], table, base + i))
  }

  lemma {:induction false} AssignedTakes(table: string, cols: seq<string>, cs: seq<Change>, base: nat)
    ensures Assigned(table, Takes(cols) + cs, base) == ProposedOf(cols) + Assigned(table, cs, base)
    decreases |cols|
  {
    var all := Takes(cols) + cs;
    if cols == [] {
      assert all == cs;
    } else {
      assert all[0] == Take(cols[0]) && all[1..] == Takes(cols[1..]) + cs;
      AssignedTakes(table, cols[1..], cs, base);
      assert ProposedOf(cols) == [Proposed(cols[0])] + ProposedOf(cols[1..]);
    }
  }

  lemma {:induction false} AssignedAdds(table: string, cols: seq<string>, cs: seq<Change>, base: nat)
    ensures Assigned(table, Adds(cols) + cs, base) == SumsOf(table, cols, base) + Assigned(table, cs, base + |cols|)
    decreases |cols|
  {
    var all := Adds(cols) + cs;
    if cols == [] {
      assert all == cs;
    } else {
      assert all[0] == Add(cols[0]) && all[1..] == Adds(cols[1..]) + cs;
      AssignedAdds(table, cols[1..], cs, base + 1);
      SumsFrom(table, cols, base, Assigned(table, cs, base + |cols|));
    }
  }

  lemma SumsFrom(table: string, cols: seq<string>, base: nat, more: seq<Assignment>)
    requires cols != []
    ensures SumsOf(table, cols, base) + more
            == [Sum(cols[0], table, base)] + (SumsOf(table, cols[1..], base + 1) + more)
  {
    assert SumsOf(table, cols, base) == [Sum(cols[0], table, base)] + SumsOf(table, cols[1..], base + 1);
  }

  lemma {:induction false} TakesAssign(cols: seq<string>, more: seq<Assignment>, on: Conflict, made: map<string, Value>)
    requires forall c :: c in cols ==> c in on.proposed
    ensures AssignAll(ProposedOf(cols) + more, on, made) == AssignAll(more, on, made + Restrict(cols, on.proposed))
    decreases |cols|
  {
    var list := ProposedOf(cols) + more;
    if cols == [] {
      assert list == more && made + Restrict(cols, on.proposed) == made;
    } else {
      var one := map[cols[0] := on.proposed[cols[0]]];
      assert list[0] == Proposed(cols[0]) && list[1..] == ProposedOf(cols[1..]) + more;
      TakesAssign(cols[1..], more, on, made + one);
      RestrictStep(cols, on.proposed);
      MapAssoc(made, one, Restrict(cols[1..], on.proposed));
    }
  }

  /** The sums the additions make. */
  function Sums(cols: seq<string>, stored: Row, incs: map<string, real>): map<string, Value>
    requires forall c :: c in cols ==> c in incs && Addable(Cell(stored, c))
  {
    map c | c in incs && c in cols :: Plus(Cell(stored, c), incs[c])
  }

  lemma SumsStep(cols: seq<string>, stored: Row, incs: map<string, real>, made: map<string, Value>)
    requires cols != [] && forall c :: c in cols ==> c in incs && Addable(Cell(stored, c))
    ensures made + Sums(cols, stored, incs)
            == made + map[cols[0] := Plus(Cell(stored, cols[0]), incs[cols[0]])] + Sums(cols[1..], stored, incs)
  {
  }

  /** The arguments from `base` on are the increments of these columns. */
  predicate Carries(args: seq<Value>, base: nat, cols: seq<string>, incs: map<string, real>) {
    forall i :: 0 <= i < |cols| ==> cols[i] in incs && Sql.Argument(args, base + i) == Number(incs[cols[i]])
  }

  lemma CarriesOn(args: seq<Value>, base: nat, cols: seq<string>, incs: map<string, real>)
    requires cols != [] && Carries(args, base, cols, incs)
    ensures cols[0] in incs && Sql.Argument(args, base) == Number(incs[cols[0]])
            && Carries(args, base + 1, cols[1..], incs)
  {
    assert Sql.Argument(args, base + 0) == Number(incs[cols[0]]);
    forall i | 0 <= i < |cols[1..]|
      ensures cols[1..][i] in incs && Sql.Argument(args, base + 1 + i) == Number(incs[cols[1..][i]])
    {
      assert cols[1..][i] == cols[i + 1] && Sql.Argument(args, base + (i + 1)) == Number(incs[cols[i + 1]]);
    }
  }

  lemma FirstSum(cols: seq<string>, more: seq<Assignment>, base: nat, on: Conflict, made: map<string, Value>, n: real)
    requires cols != [] && Sql.Argument(on.args, base) == Number(n)
    ensures var list := SumsOf(on.table, cols, base) + more; var c := cols[0];
            AssignAll(list, on, made)
            == if !Addable(Cell(on.stored, c)) then None
               else AssignAll(SumsOf(on.table, cols[1..], base + 1) + more, on,
                              made + map[c := Plus(Cell(on.stored, c), n)])
  {
    var list := SumsOf(on.table, cols, base) + more;
    assert list[0] == Sum(cols[0], on.table, base) && list[1..] == SumsOf(on.table, cols[1..], base + 1) + more;
  }

  lemma {:induction false} AddsAssign(cols: seq<string>, more: seq<Assignment>, base: nat, on: Conflict,
                                      made: map<string, Value>, incs: map<string, real>)
    requires Carries(on.args, base, cols, incs) && forall c :: c in cols ==> c in incs && Addable(Cell(on.stored, c))
    ensures AssignAll(SumsOf(on.table, cols, base) + more, on, made)
            == AssignAll(more, on, made + Sums(cols, on.stored, incs))
    decreases |cols|
  {
    if cols == [] {
      assert SumsOf(on.table, cols, base) + more == more && made + Sums(cols, on.stored, incs) == made;
    } else {
      CarriesOn(on.args, base, cols, incs);
      FirstSum(cols, more, base, on, made, incs[cols[0]]);
      AddsAssign(cols[1..], more, base + 1, on, made + map[cols[0] := Plus(Cell(on.stored, cols[0]), incs[cols[0]])],
                 incs);
      SumsStep(cols, on.stored, incs, made);
    }
  }

  lemma {:induction false} AddsRefused(cols: seq<string>, more: seq<Assignment>, base: nat, on: Conflict,
                                       made: map<string, Value>, incs: map<string, real>, text: string)
    requires Carries(on.args, base, cols, incs) && text in cols && !Addable(Cell(on.stored, text))
    ensures AssignAll(SumsOf(on.table, cols, base) + more, on, made).None?
    decreases |cols|
  {
    CarriesOn(on.args, base, cols, incs);
    FirstSum(cols, more, base, on, made, incs[cols[0]]);
    if Addable(Cell(on.stored, cols[0])) {
      StillThere(cols, text);
      AddsRefused(cols[1..], more, base + 1, on, made + map[cols[0] := Plus(Cell(on.stored, cols[0]), incs[cols[0]])],
                  incs, text);
    }
  }

  lemma StillThere(cols: seq<string>, text: string)
    requires text in cols && text != cols[0]
    ensures text in cols[1..]
  {
    assert cols == [cols[0]] + cols[1..];
  }

  lemma AssignedChanges(u: Upsert, base: nat)
    ensures Assigned(u.table, Changes(u), base)
            == ProposedOf(u.setCols) + (SumsOf(u.table, u.incCols, base) + [Proposed("updated_at")])
  {
    var touch := [Take("updated_at")];
    assert Changes(u) == Takes(u.setCols) + (Adds(u.incCols) + touch);
    AssignedTakes(u.table, u.setCols, Adds(u.incCols) + touch, base);
    AssignedAdds(u.table, u.incCols, touch, base);
    assert touch[1..] == [];
    assert Assigned(u.table, touch, base + |u.incCols|) == [Proposed("updated_at")];
  }

  /** What DO UPDATE assigns, or that it is refused. */
  lemma UpdatesAssign(u: Upsert, on: Conflict, incs: map<string, real>, base: nat)
    requires on.table == u.table && (forall c :: c in u.setCols ==> c in on.proposed) && "updated_at" in on.proposed
    requires Enumerates(u.incCols, incs.Keys) && Carries(on.args, base, u.incCols, incs)
    ensures AssignAll(Assigned(u.table, Changes(u), base), on, map[])
            == if CanAdd(on.stored, incs)
               then Some(map[] + Restrict(u.setCols, on.proposed) + Added(on.stored, incs)
                         + map["updated_at" := on.proposed["updated_at"]])
               else None
  {
    var touch := [Proposed("updated_at")];
    var made := map[] + Restrict(u.setCols, on.proposed);
    AssignedChanges(u, base);
    TakesAssign(u.setCols, SumsOf(u.table, u.incCols, base) + touch, on, map[]);
    if !CanAdd(on.stored, incs) {
      var text :| text in incs && !Addable(Cell(on.stored, text));
      AddsRefused(u.incCols, touch, base, on, made, incs, text);
    } else {
      AddsAssign(u.incCols, touch, base, on, made, incs);
      assert Sums(u.incCols, on.stored, incs) == Added(on.stored, incs);
      TouchAssigns(on, made + Added(on.stored, incs));
    }
  }

  lemma TouchAssigns(on: Conflict, made: map<string, Value>)
    requires "updated_at" in on.proposed
    ensures AssignAll([Proposed("updated_at")], on, made) == Some(made + map["updated_at" := on.proposed["updated_at"]])
  {
    var touch := [Proposed("updated_at")];
    assert touch[1..] == [];
  }

  lemma NewRow(k: RowKey, sets: map<string, Value>, incs: map<string, real>, now: int)
    requires SPINE !! sets.Keys && SPINE !! incs.Keys
    ensures var row := RowOf(k, sets, incs, now);
            row - SPINE == Merge(map[], sets, incs)
            && row["tenant"] == Text(k.tenant) && row["id"] == Text(k.id) && "updated_at" in row
            && (forall c :: c in sets ==> c in row && (c !in incs ==> row[c] == sets[c]))
  {
    assert Added(map[], incs) == AsValues(incs);
    WithoutSpine(IdColumns(k), sets, AsValues(incs), NowColumn(now));
  }

  lemma WithoutSpine(ids: map<string, Value>, sets: map<string, Value>, incs: map<string, Value>,
                     now: map<string, Value>)
    requires ids.Keys <= SPINE && now.Keys <= SPINE && SPINE !! sets.Keys && SPINE !! incs.Keys
    ensures (ids + sets + incs + now) - SPINE == map[] + sets + incs
  {
  }

  lemma OverlayAgrees(a: map<string, Value>, b: map<string, Value>, over: map<string, Value>)
    requires a.Keys == b.Keys && forall c :: c in a && c !in over ==> a[c] == b[c]
    ensures a + over == b + over
  {
  }

  lemma ConflictRow(stored: Row, row: map<string, Value>, cols: seq<string>, sets: map<string, Value>,
                    incs: map<string, real>)
    requires Enumerates(cols, sets.Keys) && CanAdd(stored, incs)
    requires SPINE !! sets.Keys && SPINE !! incs.Keys && "updated_at" in row
    requires forall c :: c in sets ==> c in row && (c !in incs ==> row[c] == sets[c])
    ensures stored + ((map[] + Restrict(cols, row) + Added(stored, incs)
                       + map["updated_at" := row["updated_at"]]) - SPINE)
            == Merge(stored, sets, incs)
  {
    var taken := Restrict(cols, row);
    SpineDropped(taken, Added(stored, incs), row["updated_at"]);
    MapAssoc(stored, taken, Added(stored, incs));
    assert taken.Keys == sets.Keys;
    OverlayAgrees(stored + taken, stored + sets, Added(stored, incs));
  }

  lemma SpineDropped(a: map<string, Value>, b: map<string, Value>, now: Value)
    requires SPINE !! a.Keys && SPINE !! b.Keys
    ensures (map[] + a + b + map["updated_at" := now]) - SPINE == a + b
  {
  }

  function RowOf(k: RowKey, sets: map<string, Value>, incs: map<string, real>, now: int): map<string, Value> {
    IdColumns(k) + sets + AsValues(incs) + NowColumn(now)
  }

  lemma Executed(s: Insert, args: seq<Value>, t: Table, k: RowKey, row: map<string, Value>)
    requires |s.columns| == |s.params| && s.conflict == ["tenant", "id"]
             && PairUp(s.columns, Fetch(s.params, args)) == row
    requires "tenant" in row && "id" in row && row["tenant"] == Text(k.tenant) && row["id"] == Text(k.id)
    ensures Execute(s, args, t)
            == if k !in t then Some(t[k := row - SPINE])
               else match AssignAll(s.updates, Conflict(s.table, row, t[k], args), map[])
                    case None => None
                    case Some(changes) => Some(t[k := t[k] + (changes - SPINE)])
  {
  }

  lemma StatementExecutes(u: Upsert, k: RowKey, sets: map<string, Value>, incs: map<string, real>, now: int, t: Table)
    requires Named(u) && Enumerates(u.setCols, sets.Keys) && Enumerates(u.incCols, incs.Keys)
    requires SPINE !! sets.Keys && SPINE !! incs.Keys
    ensures var args := Arguments(u, k, sets, incs, now);
            Read(Statement(u)).Some? && Execute(Read(Statement(u)).value, args, t)
            == if k !in t then Some(t[k := RowOf(k, sets, incs, now) - SPINE])
               else match AssignAll(Assigned(u.table, Changes(u), |InsertCols(u)|),
                                    Conflict(u.table, RowOf(k, sets, incs, now), t[k], args), map[])
                    case None => None
                    case Some(changes) => Some(t[k := t[k] + (changes - SPINE)])
  {
    var args, n := Arguments(u, k, sets, incs, now), |InsertCols(u)|;
    StatementReads(u);
    ArgumentsAlign(u, k, sets, incs, now);
    NewRow(k, sets, incs, now);
    var s := Insert(u.table, InsertCols(u), WhereMeaning.Indices(0, n), ["tenant", "id"],
                    Assigned(u.table, Changes(u), n));
    Executed(s, args, t, k, RowOf(k, sets, incs, now));
  }

  /** The conflict case: the stored row becomes the merged one, or the update is refused. */
  lemma StatementUpdates(u: Upsert, on: Conflict, sets: map<string, Value>, incs: map<string, real>, base: nat)
    requires on.table == u.table && Enumerates(u.setCols, sets.Keys) && Enumerates(u.incCols, incs.Keys)
    requires SPINE !! sets.Keys && SPINE !! incs.Keys && "updated_at" in on.proposed
             && Carries(on.args, base, u.incCols, incs)
    requires forall c :: c in sets ==> c in on.proposed && (c !in incs ==> on.proposed[c] == sets[c])
    ensures match AssignAll(Assigned(u.table, Changes(u), base), on, map[])
            case None => !CanAdd(on.stored, incs)
            case Some(changes) =>
                CanAdd(on.stored, incs)
                && on.stored + (changes - SPINE) == Merge(on.stored, sets, incs)
  {
    UpdatesAssign(u, on, incs, base);
    if CanAdd(on.stored, incs) {
      ConflictRow(on.stored, on.proposed, u.setCols, sets, incs);
    }
  }

  /** Running the emitted text is the fold: read back as SQL, with the arguments bound in
      position, in whatever order the columns were listed, it leaves the table `ApplyTo`
      describes, and is refused exactly when that is. */
  lemma StatementIsFold(u: Upsert, k: RowKey, sets: map<string, Value>, incs: map<string, real>, now: int, t: Table)
    requires Named(u) && Enumerates(u.setCols, sets.Keys) && Enumerates(u.incCols, incs.Keys)
    requires SPINE !! sets.Keys && SPINE !! incs.Keys
    ensures Read(Statement(u)).Some? && Read(Statement(u)).value.table == u.table
    ensures Execute(Read(Statement(u)).value, Arguments(u, k, sets, incs, now), t)
            == if CanAdd(RowAt(t, k), incs) then Some(t[k := Merge(RowAt(t, k), sets, incs)]) else None
  {
    StatementReads(u);
    StatementExecutes(u, k, sets, incs, now, t);
    NewRow(k, sets, incs, now);
    if k in t {
      var args := Arguments(u, k, sets, incs, now);
      ArgumentsAlign(u, k, sets, incs, now);
      StatementUpdates(u, Conflict(u.table, RowOf(k, sets, incs, now), t[k], args), sets, incs, |InsertCols(u)|);
    }
  }

  // ── placeholders ─────────────────────────────────────────────────────────────

  /** Nothing but bare placeholders: no dollar sign, no number behind a `?`. */
  ghost predicate Clean(ts: seq<Sql.Token>) { forall t :: t in ts ==> !t.Dollar? && (t.Mark? ==> t == Sql.BARE) }

  lemma {:induction false} MarksClean(n: nat)
    ensures Clean(WhereMeaning.MarkTokens(n))
  {
    if n > 1 {
      MarksClean(n - 1);
    }
  }

  lemma {:induction false} ChangesClean(table: string, cs: seq<Change>)
    ensures Clean(ChangesTokens(table, cs))
  {
    if cs != [] {
      ChangeClean(table, cs[0]);
    }
    if |cs| > 1 {
      ChangesClean(table, cs[1..]);
      CleanJoin(ChangeTokens(table, cs[0]), [Sql.Comma]);
      CleanJoin(ChangeTokens(table, cs[0]) + [Sql.Comma], ChangesTokens(table, cs[1..]));
    }
  }

  lemma ChangeClean(table: string, c: Change)
    ensures Clean(ChangeTokens(table, c))
  {
  }

  lemma CleanJoin(a: seq<Sql.Token>, b: seq<Sql.Token>)
    requires Clean(a) && Clean(b)
    ensures Clean(a + b)
  {
  }

  lemma StatementClean(u: Upsert)
    ensures Clean(StatementTokens(u))
  {
    FrontClean(u);
    ValuesClean(|InsertCols(u)|);
    MiddleClean();
    ChangesClean(u.table, Changes(u));
    CleanJoin(Middle(), ChangesTokens(u.table, Changes(u)));
    CleanJoin(Front(u), Values(|InsertCols(u)|));
    CleanJoin(Front(u) + Values(|InsertCols(u)|), Middle() + ChangesTokens(u.table, Changes(u)));
  }

  lemma FrontClean(u: Upsert)
    ensures Clean(Front(u))
  {
    NamesUnmarked(InsertCols(u));
  }

  lemma ValuesClean(n: nat)
    ensures Clean(Values(n))
  {
    MarksClean(n);
  }

  lemma MiddleClean()
    ensures Clean(Middle())
  {
  }

  /** SQLite reading the text and Postgres reading its rewritten form both bind in position. */
  lemma EnginesBindInPosition(u: Upsert)
    requires Named(u)
    ensures var text := Statement(u); var bound := Sql.Positional(Sql.Lex(text), 0);
            Sql.Sqlite(Sql.Lex(text), 0) == bound && Sql.Numbered(Sql.Lex(Dialect.RewriteFrom(text, 1))) == bound
  {
    LexStatement(u);
    StatementClean(u);
    Dialect.TokensTell(Statement(u));
    Dialect.RewriteFaithful(Statement(u), 1);
    Dialect.DigitFreeInPosition(Statement(u), 0);
  }

  lemma {:induction false} ChangesMarks(table: string, cs: seq<Change>)
    ensures Sql.Marks(ChangesTokens(table, cs)) == |Filter((c: Change) => c.Add?, cs)|
  {
    if cs != [] {
      BoundChange(table, cs[0], 0);
      if |cs| == 1 {
        assert cs[1..] == [];
      } else {
        ChangesMarks(table, cs[1..]);
        Sql.MarksAppend(ChangeTokens(table, cs[0]) + [Sql.Comma], ChangesTokens(table, cs[1..]));
        Sql.MarksAppend(ChangeTokens(table, cs[0]), [Sql.Comma]);
      }
    }
  }

  lemma {:induction false} KeepAll(p: Change -> bool, cs: seq<Change>)
    requires forall c :: c in cs ==> p(c)
    ensures |Filter(p, cs)| == |cs|
  {
    if cs != [] {
      KeepAll(p, cs[1..]);
    }
  }

  lemma {:induction false} KeepNone(p: Change -> bool, cs: seq<Change>)
    requires forall c :: c in cs ==> !p(c)
    ensures Filter(p, cs) == []
  {
    if cs != [] {
      KeepNone(p, cs[1..]);
    }
  }

  lemma AddsOfChanges(u: Upsert)
    ensures |Filter((c: Change) => c.Add?, Changes(u))| == |u.incCols|
  {
    var p := (c: Change) => c.Add?;
    KeepNone(p, Takes(u.setCols));
    KeepAll(p, Adds(u.incCols));
    KeepNone(p, [Take("updated_at")]);
    FilterAppend(p, Takes(u.setCols) + Adds(u.incCols), [Take("updated_at")]);
    FilterAppend(p, Takes(u.setCols), Adds(u.incCols));
  }

  /** The text carries as many `?` as there are arguments. */
  lemma StatementMarks(u: Upsert, k: RowKey, sets: map<string, Value>, incs: map<string, real>, now: int)
    requires Named(u) && Enumerates(u.setCols, sets.Keys) && Enumerates(u.incCols, incs.Keys)
    ensures Dialect.CountMarks(Statement(u)) == |Arguments(u, k, sets, incs, now)|
  {
    Dialect.LexMarks(Statement(u));
    LexStatement(u);
    ArgumentsAlign(u, k, sets, incs, now);
    TokensMarks(u);
  }

  lemma TokensMarks(u: Upsert)
    ensures Sql.Marks(StatementTokens(u)) == |InsertCols(u)| + |u.incCols|
  {
    BoundValues(|InsertCols(u)|);
    ChangesMarks(u.table, Changes(u));
    AddsOfChanges(u);
    FrontUnmarked(u);
    MiddleUnmarked();
    MarksOfThree(Front(u), Values(|InsertCols(u)|), Middle(), ChangesTokens(u.table, Changes(u)));
  }

  lemma MiddleUnmarked()
    ensures forall t :: t in Middle() ==> !t.Mark?
  {
  }

  lemma MarksOfThree(a: seq<Sql.Token>, b: seq<Sql.Token>, c: seq<Sql.Token>, d: seq<Sql.Token>)
    requires (forall t :: t in a ==> !t.Mark?) && (forall t :: t in c ==> !t.Mark?)
    ensures Sql.Marks(a + b + (c + d)) == Sql.Marks(b) + Sql.Marks(d)
  {
    WhereMeaning.PositionalNoMarks(a, 0);
    WhereMeaning.PositionalNoMarks(c, 0);
    Sql.MarksAppend(a + b, c + d);
    Sql.MarksAppend(a, b);
    Sql.MarksAppend(c, d);
  }

  // ── the deletes ──────────────────────────────────────────────────────────────

  function DeleteWords(table: string): seq<string> { ["DELETE", "FROM", table, "WHERE"] }

  function ConditionWords(col: string): seq<string> { [col, "=", "?"] }

  function DeleteRowText(table: string): string {
    Spaced(DeleteWords(table) + ConditionWords("tenant") + (["AND"] + ConditionWords("id")))
  }

  function DeleteTenantText(table: string): string { Spaced(DeleteWords(table) + ConditionWords("tenant")) }

  datatype Delete = Delete(table: string, condition: Sql.Expr)

  /** `DELETE FROM t WHERE ...`, the condition read by the grammar of clauses. */
  function ParseDelete(ts: seq<Sql.Token>): Option<Delete> {
    if |ts| < 4 || ts[0] != Sql.Word("DELETE") || ts[1] != Sql.Word("FROM") || !ts[2].Word?
        || ts[3] != Sql.Word("WHERE") then None
    else match Sql.ParseClause(ts[4..]) case None => None case Some(e) => Some(Delete(ts[2].s, e))
  }

  function ReadDelete(text: string): Option<Delete> { ParseDelete(Sql.Positional(Sql.Lex(text), 0)) }

  /** A row with the columns of its key. */
  function FullRow(k: RowKey, row: Row): Sql.Row { row + IdColumns(k) }

  predicate Equals(op: string, a: Value, b: Value) { op == "=" && a == b }

  /** What is left when the rows the condition is TRUE of are gone. */
  function Unselected(e: Sql.Expr, args: seq<Value>, t: Table): Table {
    map k | k in t && !Selects(e, args, k, t[k]) :: t[k]
  }

  lemma LexDeleteWords(delete: string, from: string, where: string)
    requires delete == "DELETE" && from == "FROM" && where == "WHERE"
    ensures Sql.Lex(delete) == [Sql.Word(delete)] && Sql.Lex(from) == [Sql.Word(from)]
            && Sql.Lex(where) == [Sql.Word(where)]
  {
    Sql.LexWord(delete);
    Sql.LexWord(from);
    Sql.LexWord(where);
  }

  lemma LexCondition(col: string, eq: string, mark: string)
    requires IsIdentifier(col) && eq == "=" && mark == "?"
    ensures Sql.Lex(Spaced([col, eq, mark])) == [Sql.Word(col), Sql.Operator(eq), Sql.BARE]
  {
    WhereMeaning.LexIdentifier(col);
    Sql.LexOperator(eq);
    Sql.LexBare(mark);
    LexThreeWords(col, eq, mark);
  }

  function DeleteFront(table: string): seq<Sql.Token> {
    [Sql.Word("DELETE"), Sql.Word("FROM"), Sql.Word(table), Sql.Word("WHERE")]
  }

  function Condition(col: string): seq<Sql.Token> { [Sql.Word(col), Sql.Operator("="), Sql.BARE] }

  lemma LexFourWords(a: string, b: string, c: string, d: string)
    requires Sql.Lex(a) == [Sql.Word(a)] && Sql.Lex(b) == [Sql.Word(b)] && Sql.Lex(c) == [Sql.Word(c)]
             && Sql.Lex(d) == [Sql.Word(d)]
    ensures Sql.Lex(Spaced([a, b, c, d])) == [Sql.Word(a), Sql.Word(b), Sql.Word(c), Sql.Word(d)]
  {
    LexTwoWords(a, b);
    LexTwoWords(c, d);
    LexTwoParts([a, b], [c, d]);
    assert [a, b] + [c, d] == [a, b, c, d];
  }

  lemma LexDeleteFront(table: string, delete: string, from: string, where: string)
    requires IsIdentifier(table) && delete == "DELETE" && from == "FROM" && where == "WHERE"
    ensures Sql.Lex(Spaced([delete, from, table, where])) == DeleteFront(table)
  {
    LexDeleteWords(delete, from, where);
    WhereMeaning.LexIdentifier(table);
    LexFourWords(delete, from, table, where);
  }

  lemma LexDeleteTenant(table: string)
    requires IsIdentifier(table)
    ensures Sql.Lex(DeleteTenantText(table)) == DeleteFront(table) + Condition("tenant")
  {
    var tenant := "tenant";
    LexDeleteFront(table, "DELETE", "FROM", "WHERE");
    LexCondition(tenant, "=", "?");
    LexTwoParts(DeleteWords(table), ConditionWords(tenant));
  }

  lemma LexAndId(and: string)
    requires and == "AND"
    ensures Sql.Lex(Spaced([and] + ConditionWords("id"))) == [Sql.AND] + Condition("id")
  {
    Sql.LexWord(and);
    LexCondition("id", "=", "?");
    LexTwoParts([and], ConditionWords("id"));
  }

  lemma LexDeleteRow(table: string)
    requires IsIdentifier(table)
    ensures Sql.Lex(DeleteRowText(table)) == DeleteFront(table) + Condition("tenant") + ([Sql.AND] + Condition("id"))
  {
    LexDeleteTenant(table);
    LexAndId("AND");
    LexTwoParts(DeleteWords(table) + ConditionWords("tenant"), ["AND"] + ConditionWords("id"));
  }

  lemma BoundCondition(col: string, base: nat)
    ensures Sql.Positional(Condition(col), base) == [Sql.Word(col), Sql.Operator("="), Sql.Param(base)]
            && Sql.Marks(Condition(col)) == 1
  {
    var front := [Sql.Word(col), Sql.Operator("=")];
    WhereMeaning.PositionalNoMarks(front, base);
    Sql.PositionalAppend(front, [Sql.BARE], base);
    Sql.MarksAppend(front, [Sql.BARE]);
    assert Condition(col) == front + [Sql.BARE] && [Sql.BARE][1..] == [];
  }

  lemma ParseCondition(col: string, param: nat, rest: seq<Sql.Token>)
    requires IsIdentifier(col)
    ensures Sql.ParseFactor([Sql.Word(col), Sql.Operator("="), Sql.Param(param)] + rest)
            == Some(Sql.Parsed(Sql.Leaf(Sql.Compare(col, "=", param)), rest))
  {
    var ts := [Sql.Word(col), Sql.Operator("="), Sql.Param(param)] + rest;
    WhereMeaning.NotTheNumberOne(col);
    assert ts[0] == Sql.Word(col) && ts[1] == Sql.Operator("=") && ts[2] == Sql.Param(param) && ts[3..] == rest;
  }

  lemma ParseOne(a: string)
    requires IsIdentifier(a)
    ensures Sql.ParseClause([Sql.Word(a), Sql.Operator("="), Sql.Param(0)]) == Some(Sql.Leaf(Sql.Compare(a, "=", 0)))
  {
    var ts := [Sql.Word(a), Sql.Operator("="), Sql.Param(0)];
    ParseCondition(a, 0, []);
    assert ts + [] == ts;
    WhereMeaning.LoneFactor(ts, Sql.Leaf(Sql.Compare(a, "=", 0)), []);
  }

  lemma ParseBoth(a: string, b: string)
    requires IsIdentifier(a) && IsIdentifier(b)
    ensures Sql.ParseClause([Sql.Word(a), Sql.Operator("="), Sql.Param(0)]
                            + ([Sql.AND] + [Sql.Word(b), Sql.Operator("="), Sql.Param(1)]))
            == Some(Sql.And(Sql.Leaf(Sql.Compare(a, "=", 0)), Sql.Leaf(Sql.Compare(b, "=", 1))))
  {
    var tail := [Sql.Word(b), Sql.Operator("="), Sql.Param(1)];
    var ts := [Sql.Word(a), Sql.Operator("="), Sql.Param(0)] + ([Sql.AND] + tail);
    ParseCondition(a, 0, [Sql.AND] + tail);
    ParseCondition(b, 1, []);
    assert tail + [] == tail;
    WhereMeaning.LoneFactor(tail, Sql.Leaf(Sql.Compare(b, "=", 1)), []);
    WhereMeaning.AndFactor(ts, Sql.Leaf(Sql.Compare(a, "=", 0)), tail, Sql.Leaf(Sql.Compare(b, "=", 1)), []);
  }

  lemma FrontDropped(table: string, clause: seq<Sql.Token>)
    requires Sql.ParseClause(clause).Some?
    ensures ParseDelete(DeleteFront(table) + clause) == Some(Delete(table, Sql.ParseClause(clause).value))
  {
    assert (DeleteFront(table) + clause)[4..] == clause;
  }

  lemma DeleteTenantReads(table: string)
    requires IsIdentifier(table)
    ensures ReadDelete(DeleteTenantText(table)) == Some(Delete(table, TenantExpr()))
  {
    var tenant := "tenant";
    LexDeleteTenant(table);
    BoundOne(DeleteFront(table), tenant);
    ParseOne(tenant);
    FrontDropped(table, [Sql.Word(tenant), Sql.Operator("="), Sql.Param(0)]);
  }

  lemma BoundOne(front: seq<Sql.Token>, a: string)
    requires forall t :: t in front ==> !t.Mark?
    ensures Sql.Positional(front + Condition(a), 0) == front + [Sql.Word(a), Sql.Operator("="), Sql.Param(0)]
  {
    BoundCondition(a, 0);
    WhereMeaning.PositionalNoMarks(front, 0);
    Sql.PositionalAppend(front, Condition(a), 0);
  }

  lemma BoundBoth(front: seq<Sql.Token>, a: string, b: string)
    requires forall t :: t in front ==> !t.Mark?
    ensures Sql.Positional(front + Condition(a) + ([Sql.AND] + Condition(b)), 0)
            == front + ([Sql.Word(a), Sql.Operator("="), Sql.Param(0)]
                        + ([Sql.AND] + [Sql.Word(b), Sql.Operator("="), Sql.Param(1)]))
  {
    BoundCondition(a, 0);
    BoundCondition(b, 1);
    WhereMeaning.PositionalNoMarks(front, 0);
    WhereMeaning.PositionalNoMarks([Sql.AND], 1);
    Sql.PositionalAppend(front + Condition(a), [Sql.AND] + Condition(b), 0);
    Sql.PositionalAppend([Sql.AND], Condition(b), 1);
    Sql.PositionalAppend(front, Condition(a), 0);
    Sql.MarksAppend(front, Condition(a));
  }

  lemma DeleteRowReads(table: string)
    requires IsIdentifier(table)
    ensures ReadDelete(DeleteRowText(table)) == Some(Delete(table, RowExpr()))
  {
    LexDeleteRow(table);
    ReadsPair(table, DeleteRowText(table), "tenant", "id");
  }

  lemma ReadsPair(table: string, text: string, a: string, b: string)
    requires IsIdentifier(a) && IsIdentifier(b)
    requires Sql.Lex(text) == DeleteFront(table) + Condition(a) + ([Sql.AND] + Condition(b))
    ensures ReadDelete(text)
            == Some(Delete(table, Sql.And(Sql.Leaf(Sql.Compare(a, "=", 0)), Sql.Leaf(Sql.Compare(b, "=", 1)))))
  {
    var clause := [Sql.Word(a), Sql.Operator("="), Sql.Param(0)]
                  + ([Sql.AND] + [Sql.Word(b), Sql.Operator("="), Sql.Param(1)]);
    BoundBoth(DeleteFront(table), a, b);
    ParseBoth(a, b);
    ReadsAs(table, text, clause, Sql.And(Sql.Leaf(Sql.Compare(a, "=", 0)), Sql.Leaf(Sql.Compare(b, "=", 1))));
  }

  lemma ReadsAs(table: string, text: string, clause: seq<Sql.Token>, e: Sql.Expr)
    requires Sql.Positional(Sql.Lex(text), 0) == DeleteFront(table) + clause && Sql.ParseClause(clause) == Some(e)
    ensures ReadDelete(text) == Some(Delete(table, e))
  {
    FrontDropped(table, clause);
  }

  lemma KeyColumns(r: RowKey, row: Row)
    ensures Sql.Column(FullRow(r, row), "tenant") == Text(r.tenant) && Sql.Column(FullRow(r, row), "id") == Text(r.id)
  {
  }

  lemma IsEqual(full: Sql.Row, col: string, value: Value, args: seq<Value>, param: int)
    requires Sql.Column(full, col) == value && !value.NullValue? && 0 <= param < |args| && !args[param].NullValue?
    ensures Sql.Eval(Sql.Leaf(Sql.Compare(col, "=", param)), full, args, Equals) == Sql.Known(value == args[param])
  {
  }

  function RowExpr(): Sql.Expr { Sql.And(Sql.Leaf(Sql.Compare("tenant", "=", 0)), Sql.Leaf(Sql.Compare("id", "=", 1))) }

  function TenantExpr(): Sql.Expr { Sql.Leaf(Sql.Compare("tenant", "=", 0)) }

  /** The condition is TRUE of the row. */
  predicate Selects(e: Sql.Expr, args: seq<Value>, k: RowKey, row: Row) {
    Sql.Eval(e, FullRow(k, row), args, Equals).True?
  }

  lemma RowCondition(r: RowKey, row: Row, k: RowKey)
    ensures Selects(RowExpr(), [Text(k.tenant), Text(k.id)], r, row) <==> r == k
  {
    KeyColumns(r, row);
    IsEqual(FullRow(r, row), "tenant", Text(r.tenant), [Text(k.tenant), Text(k.id)], 0);
    IsEqual(FullRow(r, row), "id", Text(r.id), [Text(k.tenant), Text(k.id)], 1);
  }

  lemma TenantCondition(r: RowKey, row: Row, tenant: string)
    ensures Selects(TenantExpr(), [Text(tenant)], r, row) <==> r.tenant == tenant
  {
    KeyColumns(r, row);
    IsEqual(FullRow(r, row), "tenant", Text(r.tenant), [Text(tenant)], 0);
  }

  /** What is left of a table when the rows a condition selects are deleted. */
  lemma Remaining(e: Sql.Expr, args: seq<Value>, t: Table, u: Table)
    requires forall k :: k in u <==> k in t && !Selects(e, args, k, t[k])
    requires forall k :: k in u ==> u[k] == t[k]
    ensures Unselected(e, args, t) == u
  {
  }

  /** The emitted DELETE of a rule removes exactly the row the fold names, whatever its columns. */
  lemma DeleteRowIsFold(table: string, k: RowKey, t: Table)
    requires IsIdentifier(table)
    ensures var d := ReadDelete(DeleteRowText(table));
            d.Some? && d.value.table == table
                && Unselected(d.value.condition, [Text(k.tenant), Text(k.id)], t) == t - {k}
  {
    DeleteRowReads(table);
    var args := [Text(k.tenant), Text(k.id)];
    forall r | r in t ensures Selects(RowExpr(), args, r, t[r]) <==> r == k {
      RowCondition(r, t[r], k);
    }
    Remaining(RowExpr(), args, t, t - {k});
  }

  /** And the one a rebuild starts with removes exactly the tenant's rows. */
  lemma DeleteTenantIsWipe(table: string, tenant: string, t: Table)
    requires IsIdentifier(table)
    ensures var d := ReadDelete(DeleteTenantText(table));
            d.Some? && d.value.table == table
                && Unselected(d.value.condition, [Text(tenant)], t) == OtherRows(t, tenant)
  {
    DeleteTenantReads(table);
    var args := [Text(tenant)];
    forall r | r in t ensures Selects(TenantExpr(), args, r, t[r]) <==> r.tenant == tenant {
      TenantCondition(r, t[r], tenant);
    }
    Remaining(TenantExpr(), args, t, OtherRows(t, tenant));
  }
}
