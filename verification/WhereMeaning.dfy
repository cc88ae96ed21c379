/** What compiled where text means: read back as SQL and evaluated in three-valued logic it
    selects a row exactly when the plain two-valued reading of the client's tree does. */
module WhereMeaning {
  import opened Basics
  import opened JsonValues
  import opened Sorting
  import opened Where
  import Definitions
  import Sql

  // ── the plain reading of a tree ──────────────────────────────────────────────

  /** A comparison with a null on either side is false. */
  predicate Compares(cmp: Sql.Comparison, op: string, a: Value, b: Value) {
    !a.NullValue? && !b.NullValue? && cmp(op, a, b)
  }

  predicate ReadsOp(col: string, op: string, value: Json, row: Sql.Row, cmp: Sql.Comparison) {
    var cell := Sql.Column(row, col);
    if op == "eq" then (if value.Null? then cell.NullValue? else Compares(cmp, "=", cell, Normalize(value)))
    else if op == "ne" then (if value.Null? then !cell.NullValue? else Compares(cmp, "!=", cell, Normalize(value)))
    else if value.Null? then true
    else if op == "in" then
      value.Arr? && exists i :: 0 <= i < |value.items| && Compares(cmp, "=", cell, Normalize(value.items[i]))
    else op in OPS && Compares(cmp, OPS[op], cell, Normalize(value))
  }

  ghost predicate ReadsColumn(col: string, m: map<string, Json>, row: Sql.Row, cmp: Sql.Comparison) {
    forall op :: op in m ==> ReadsOp(col, op, m[op], row, cmp)
  }

  ghost predicate ReadsLeaf(m: map<string, Json>, row: Sql.Row, cmp: Sql.Comparison) {
    forall col :: col in m && m[col].Obj? ==> ReadsColumn(col, m[col].fields, row, cmp)
  }

  ghost predicate Reads(node: Json, row: Sql.Row, cmp: Sql.Comparison) {
    if !node.Obj? then true
    else if "and" in node.fields then
      var parts := node.fields["and"];
      parts.Arr? && forall i | 0 <= i < |parts.items| :: Reads(parts.items[i], row, cmp)
    else if "or" in node.fields then
      var parts := node.fields["or"];
      parts.Arr? && exists i | 0 <= i < |parts.items| :: Reads(parts.items[i], row, cmp)
    else ReadsLeaf(node.fields, row, cmp)
  }

  // ── the plain reading of a filter ────────────────────────────────────────────

  predicate Holds(f: Filter, row: Sql.Row, cmp: Sql.Comparison)
    decreases f, 0
  {
    match f
    case Always => true
    case Never => false
    case NullTest(c, negated) => Sql.Column(row, c).NullValue? != negated
    case OneOf(c, values) => exists i :: 0 <= i < |values| && Compares(cmp, "=", Sql.Column(row, c), values[i])
    case Compare(c, op, v) => Compares(cmp, op, Sql.Column(row, c), v)
    case Group(joiner, parts) => if joiner == "AND" then HoldsAll(parts, row, cmp) else HoldsAny(parts, row, cmp)
  }

  predicate HoldsAll(parts: seq<Filter>, row: Sql.Row, cmp: Sql.Comparison)
    decreases parts, 1
  {
    parts == [] || (Holds(parts[0], row, cmp) && HoldsAll(parts[1..], row, cmp))
  }

  predicate HoldsAny(parts: seq<Filter>, row: Sql.Row, cmp: Sql.Comparison)
    decreases parts, 1
  {
    parts != [] && (Holds(parts[0], row, cmp) || HoldsAny(parts[1..], row, cmp))
  }

  lemma {:induction false} HoldsAllAppend(a: seq<Filter>, b: seq<Filter>, row: Sql.Row, cmp: Sql.Comparison)
    ensures HoldsAll(a + b, row, cmp) <==> HoldsAll(a, row, cmp) && HoldsAll(b, row, cmp)
  {
    if a == [] {
      assert a + b == b;
    } else {
      assert (a + b)[0] == a[0] && (a + b)[1..] == a[1..] + b;
      HoldsAllAppend(a[1..], b, row, cmp);
    }
  }

  // ── building keeps the reading ───────────────────────────────────────────────

  lemma {:induction false} NormalizeAt(items: seq<Json>, i: nat)
    requires i < |items|
    ensures NormalizeAll(items)[i] == Normalize(items[i])
  {
    if i > 0 {
      NormalizeAt(items[1..], i - 1);
    }
  }

  lemma OpReads(col: string, op: string, value: Json, row: Sql.Row, cmp: Sql.Comparison)
    ensures match BuildOp(col, op, value)
            case BadClause => true
            case Ignored => ReadsOp(col, op, value, row, cmp)
            case Clause(f) => Holds(f, row, cmp) <==> ReadsOp(col, op, value, row, cmp)
  {
    if op == "in" && value.Arr? {
      forall i | 0 <= i < |value.items| ensures NormalizeAll(value.items)[i] == Normalize(value.items[i]) {
        NormalizeAt(value.items, i);
      }
    }
  }

  lemma {:induction false} OpsRead(col: string, m: map<string, Json>, keys: seq<string>, row: Sql.Row,
                                   cmp: Sql.Comparison)
    requires forall k :: k in keys ==> k in m
    requires BuildOps(col, m, keys).Some?
    ensures HoldsAll(BuildOps(col, m, keys).value, row, cmp)
            <==> forall op :: op in keys ==> ReadsOp(col, op, m[op], row, cmp)
  {
    if keys != [] {
      var key := keys[0];
      OpReads(col, key, m[key], row, cmp);
      OpsRead(col, m, keys[1..], row, cmp);
      assert forall op :: op in keys <==> op == key || op in keys[1..];
      var built := BuildOp(col, key, m[key]);
      if built.Clause? {
        var rest := BuildOps(col, m, keys[1..]).value;
        assert ([built.filter] + rest)[1..] == rest;
      }
    }
  }

  lemma {:induction false} ColumnsRead(m: map<string, Json>, keys: seq<string>, cols: set<string>, row: Sql.Row,
                                       cmp: Sql.Comparison)
    requires forall k :: k in keys ==> k in m
    requires BuildColumns(m, keys, cols).Some?
    ensures HoldsAll(BuildColumns(m, keys, cols).value, row, cmp)
            <==> forall col :: col in keys ==> m[col].Obj? && ReadsColumn(col, m[col].fields, row, cmp)
  {
    if keys != [] {
      var key, ops := keys[0], m[keys[0]].fields;
      var fs, rest := BuildOps(key, ops, Sorted(ops.Keys)).value, BuildColumns(m, keys[1..], cols).value;
      OpsRead(key, ops, Sorted(ops.Keys), row, cmp);
      ColumnsRead(m, keys[1..], cols, row, cmp);
      HoldsAllAppend(fs, rest, row, cmp);
      assert forall col :: col in keys <==> col == key || col in keys[1..];
      assert HoldsAll(fs, row, cmp) <==> ReadsColumn(key, ops, row, cmp);
    }
  }

  ghost predicate ReadsEvery(items: seq<Json>, row: Sql.Row, cmp: Sql.Comparison) {
    forall i | 0 <= i < |items| :: Reads(items[i], row, cmp)
  }

  ghost predicate ReadsSome(items: seq<Json>, row: Sql.Row, cmp: Sql.Comparison) {
    exists i | 0 <= i < |items| :: Reads(items[i], row, cmp)
  }

  /** The filter a tree builds holds of a row exactly when the tree reads true of it. */
  lemma {:induction false} BuildKeepsReading(node: Json, cols: set<string>, row: Sql.Row, cmp: Sql.Comparison)
    requires Build(node, cols).Compiled?
    ensures Holds(Build(node, cols).filter, row, cmp) <==> Reads(node, row, cmp)
    decreases node, 0
  {
    if node.Obj? && "and" in node.fields {
      var items := node.fields["and"].items;
      EachKeepsReading(items, cols, row, cmp);
      assert Reads(node, row, cmp) <==> ReadsEvery(items, row, cmp);
    } else if node.Obj? && "or" in node.fields {
      var items := node.fields["or"].items;
      EachKeepsReading(items, cols, row, cmp);
      assert Reads(node, row, cmp) <==> ReadsSome(items, row, cmp);
    } else if node.Obj? {
      LeafKeepsReading(node.fields, cols, row, cmp);
    }
  }

  lemma LeafKeepsReading(m: map<string, Json>, cols: set<string>, row: Sql.Row, cmp: Sql.Comparison)
    requires BuildColumns(m, Sorted(m.Keys), cols).Some?
    ensures HoldsAll(BuildColumns(m, Sorted(m.Keys), cols).value, row, cmp) <==> ReadsLeaf(m, row, cmp)
  {
    ColumnsRead(m, Sorted(m.Keys), cols, row, cmp);
    ColumnsAreMaps(m, Sorted(m.Keys), cols);
  }

  lemma {:induction false} ColumnsAreMaps(m: map<string, Json>, keys: seq<string>, cols: set<string>)
    requires forall k :: k in keys ==> k in m
    requires BuildColumns(m, keys, cols).Some?
    ensures forall k :: k in keys ==> m[k].Obj? && k in cols
  {
    if keys != [] {
      ColumnsAreMaps(m, keys[1..], cols);
    }
  }

  lemma {:induction false} EachKeepsReading(items: seq<Json>, cols: set<string>, row: Sql.Row, cmp: Sql.Comparison)
    requires BuildEach(items, cols).Some?
    ensures HoldsAll(BuildEach(items, cols).value, row, cmp) <==> ReadsEvery(items, row, cmp)
    ensures HoldsAny(BuildEach(items, cols).value, row, cmp) <==> ReadsSome(items, row, cmp)
    decreases items, 1
  {
    if items != [] {
      var f, rest := Build(items[0], cols).filter, BuildEach(items[1..], cols).value;
      BuildKeepsReading(items[0], cols, row, cmp);
      EachKeepsReading(items[1..], cols, row, cmp);
      assert ([f] + rest)[0] == f && ([f] + rest)[1..] == rest;
      assert forall i :: 0 <= i < |items[1..]| ==> items[1..][i] == items[i + 1];
      assert forall i :: 1 <= i < |items| ==> items[i] == items[1..][i - 1];
    }
  }

  // ── what may be printed ──────────────────────────────────────────────────────

  predicate IsOp(op: string) {
    op == "=" || op == "!=" || op == ">" || op == ">=" || op == "<" || op == "<=" || op == "LIKE"
  }

  predicate Printable(f: Filter)
    decreases f, 0
  {
    match f
    case Always => true
    case Never => true
    case NullTest(c, _) => Definitions.IsIdentifier(c)
    case OneOf(c, values) => Definitions.IsIdentifier(c) && values != []
    case Compare(c, op, _) => Definitions.IsIdentifier(c) && IsOp(op)
    case Group(joiner, parts) => (joiner == "AND" || joiner == "OR") && parts != [] && AllPrintable(parts)
  }

  predicate AllPrintable(parts: seq<Filter>)
    decreases parts, 1
  {
    parts == [] || (Printable(parts[0]) && AllPrintable(parts[1..]))
  }

  lemma {:induction false} PrintableAppend(a: seq<Filter>, b: seq<Filter>)
    requires AllPrintable(a) && AllPrintable(b)
    ensures AllPrintable(a + b)
  {
    if a == [] {
      assert a + b == b;
    } else {
      assert (a + b)[0] == a[0] && (a + b)[1..] == a[1..] + b;
      PrintableAppend(a[1..], b);
    }
  }

  lemma {:induction false} OpsPrintable(col: string, m: map<string, Json>, keys: seq<string>)
    requires Definitions.IsIdentifier(col) && forall k :: k in keys ==> k in m
    requires BuildOps(col, m, keys).Some?
    ensures AllPrintable(BuildOps(col, m, keys).value)
  {
    if keys != [] {
      OpsPrintable(col, m, keys[1..]);
      var built := BuildOp(col, keys[0], m[keys[0]]);
      if built.Clause? {
        assert ([built.filter] + BuildOps(col, m, keys[1..]).value)[1..] == BuildOps(col, m, keys[1..]).value;
      }
    }
  }

  ghost predicate AllIdentifiers(cols: set<string>) { forall c :: c in cols ==> Definitions.IsIdentifier(c) }

  lemma {:induction false} ColumnsPrintable(m: map<string, Json>, keys: seq<string>, cols: set<string>)
    requires AllIdentifiers(cols) && forall k :: k in keys ==> k in m
    requires BuildColumns(m, keys, cols).Some?
    ensures AllPrintable(BuildColumns(m, keys, cols).value)
  {
    if keys != [] {
      var ops := m[keys[0]].fields;
      OpsPrintable(keys[0], ops, Sorted(ops.Keys));
      ColumnsPrintable(m, keys[1..], cols);
      PrintableAppend(BuildOps(keys[0], ops, Sorted(ops.Keys)).value, BuildColumns(m, keys[1..], cols).value);
    }
  }

  lemma {:induction false} BuildPrintable(node: Json, cols: set<string>)
    requires AllIdentifiers(cols) && Build(node, cols).Compiled?
    ensures Printable(Build(node, cols).filter)
    decreases node, 0
  {
    if node.Obj? {
      if "and" in node.fields {
        if node.fields["and"].items != [] {
          EachPrintable(node.fields["and"].items, cols);
        }
      } else if "or" in node.fields {
        if node.fields["or"].items != [] {
          EachPrintable(node.fields["or"].items, cols);
        }
      } else {
        ColumnsPrintable(node.fields, Sorted(node.fields.Keys), cols);
      }
    }
  }

  lemma {:induction false} EachPrintable(items: seq<Json>, cols: set<string>)
    requires AllIdentifiers(cols) && BuildEach(items, cols).Some?
    ensures AllPrintable(BuildEach(items, cols).value)
    decreases items, 1
  {
    if items != [] {
      var f, rest := Build(items[0], cols).filter, BuildEach(items[1..], cols).value;
      BuildPrintable(items[0], cols);
      EachPrintable(items[1..], cols);
      assert ([f] + rest)[0] == f && ([f] + rest)[1..] == rest;
    }
  }

  // ── tokens of printed text ───────────────────────────────────────────────────

  function OpToken(op: string): Sql.Token { if op == "LIKE" then Sql.Word(op) else Sql.Operator(op) }

  function MarkTokens(n: nat): seq<Sql.Token> {
    if n == 0 then [] else if n == 1 then [Sql.BARE] else [Sql.BARE, Sql.Comma] + MarkTokens(n - 1)
  }

  function Tokens(f: Filter): seq<Sql.Token>
    decreases f, 0
  {
    match f
    case Always => [Sql.Word("1"), Sql.Operator("="), Sql.Word("1")]
    case Never => [Sql.Word("1"), Sql.Operator("="), Sql.Word("0")]
    case NullTest(c, negated) =>
      if negated then [Sql.Word(c), Sql.Word("IS"), Sql.Word("NOT"), Sql.Word("NULL")]
      else [Sql.Word(c), Sql.Word("IS"), Sql.Word("NULL")]
    case OneOf(c, values) => [Sql.Word(c), Sql.Word("IN"), Sql.LParen] + MarkTokens(|values|) + [Sql.RParen]
    case Compare(c, op, _) => [Sql.Word(c), OpToken(op), Sql.BARE]
    case Group(joiner, parts) => [Sql.LParen] + TokensAll(parts, joiner) + [Sql.RParen]
  }

  function TokensAll(parts: seq<Filter>, joiner: string): seq<Sql.Token>
    decreases parts, 1
  {
    if parts == [] then []
    else if |parts| == 1 then Tokens(parts[0])
    else Tokens(parts[0]) + [Sql.Word(joiner)] + TokensAll(parts[1..], joiner)
  }

  lemma LexSpaceAfter(a: string, space: string)
    requires space == " "
    ensures Sql.Lex(a + space) == Sql.Lex(a)
  {
    Sql.LexAppend(a, space);
    Sql.LexChar(space);
  }

  lemma LexAfterSpace(a: string, space: string, b: string)
    requires space == " "
    ensures Sql.Lex(a + space + b) == Sql.Lex(a + space) + Sql.Lex(b)
  {
    Sql.LexAppend(a + space, b);
  }

  /** Texts joined by a space lex separately. */
  lemma LexSpaced(a: string, b: string)
    ensures Sql.Lex(a + " " + b) == Sql.Lex(a) + Sql.Lex(b)
  {
    var space := " ";
    LexSpaceAfter(a, space);
    LexAfterSpace(a, space, b);
  }

  lemma LexSpacedTokens(a: string, ta: seq<Sql.Token>, b: string, tb: seq<Sql.Token>)
    requires Sql.Lex(a) == ta && Sql.Lex(b) == tb
    ensures Sql.Lex(a + " " + b) == ta + tb
  {
    LexSpaced(a, b);
  }

  lemma LexOpen(paren: string, a: string)
    requires paren == "("
    ensures Sql.Lex(paren + a) == [Sql.LParen] + Sql.Lex(a)
  {
    Sql.LexAppend(paren, a);
    Sql.LexChar(paren);
  }

  lemma LexClose(a: string, paren: string)
    requires paren == ")"
    ensures Sql.Lex(a + paren) == Sql.Lex(a) + [Sql.RParen]
  {
    Sql.LexAppend(a, paren);
    Sql.LexChar(paren);
  }

  lemma LexParens(a: string)
    ensures Sql.Lex("(" + a + ")") == [Sql.LParen] + Sql.Lex(a) + [Sql.RParen]
  {
    var open, close := "(", ")";
    LexOpen(open, a);
    LexClose(open + a, close);
  }

  lemma LexIdentifier(c: string)
    requires Definitions.IsIdentifier(c)
    ensures Sql.Lex(c) == [Sql.Word(c)]
  {
    Sql.LexWord(c);
  }

  lemma LexMark()
    ensures Sql.Lex("?") == [Sql.BARE]
  {
    var mark := "?";
    Sql.LexBare(mark);
  }

  lemma LexWordOperator(l: string, eq: string)
    requires eq == "=" && |l| == 1 && Sql.IsWordChar(l[0])
    ensures Sql.Lex(l + eq) == [Sql.Word(l), Sql.Operator(eq)]
  {
    Sql.LexWord(l);
    Sql.LexOperator(eq);
    Sql.LexAppend(l, eq);
  }

  lemma LexEquation(l: string, eq: string, r: string)
    requires eq == "=" && |l| == 1 && |r| == 1 && Sql.IsWordChar(l[0]) && Sql.IsWordChar(r[0])
    ensures Sql.Lex(l + eq + r) == [Sql.Word(l), Sql.Operator(eq), Sql.Word(r)]
  {
    LexWordOperator(l, eq);
    Sql.LexWord(r);
    Sql.LexAppend(l + eq, r);
  }

  lemma LexConstants()
    ensures Sql.Lex("1=1") == [Sql.Word("1"), Sql.Operator("="), Sql.Word("1")]
    ensures Sql.Lex("1=0") == [Sql.Word("1"), Sql.Operator("="), Sql.Word("0")]
  {
    LexOneIs("1", "1=1");
    LexOneIs("0", "1=0");
  }

  lemma LexOneIs(digit: string, text: string)
    requires (digit == "1" && text == "1=1") || (digit == "0" && text == "1=0")
    ensures Sql.Lex(text) == [Sql.Word("1"), Sql.Operator("="), Sql.Word(digit)]
  {
    var one, eq := "1", "=";
    LexEquation(one, eq, digit);
    assert text == one + eq + digit;
  }

  lemma LexOp(op: string)
    requires IsOp(op)
    ensures Sql.Lex(op) == [OpToken(op)]
  {
    if op == "LIKE" {
      Sql.LexWord(op);
    } else {
      Sql.LexOperator(op);
    }
  }

  lemma LexMarkComma(mark: string, comma: string)
    requires mark == "?" && comma == ","
    ensures Sql.Lex(mark + comma) == [Sql.BARE, Sql.Comma]
  {
    Sql.LexBare(mark);
    Sql.LexChar(comma);
    Sql.LexAppend(mark, comma);
  }

  lemma {:induction false} LexPlaceholders(n: nat)
    ensures Sql.Lex(Placeholders(n)) == MarkTokens(n)
  {
    if n == 1 {
      LexMark();
    } else if n > 1 {
      var mark, comma := "?", ",";
      LexPlaceholders(n - 1);
      LexMarkComma(mark, comma);
      LexSpacedTokens(mark + comma, [Sql.BARE, Sql.Comma], Placeholders(n - 1), MarkTokens(n - 1));
      OneMorePlaceholder(n, mark, comma);
    }
  }

  lemma OneMorePlaceholder(n: nat, mark: string, comma: string)
    requires n > 1 && mark == "?" && comma == ","
    ensures Placeholders(n) == mark + comma + " " + Placeholders(n - 1)
    ensures MarkTokens(n) == [Sql.BARE, Sql.Comma] + MarkTokens(n - 1)
  {
  }

  lemma LexWords(a: string, ta: seq<Sql.Token>, word: string)
    requires Sql.Lex(a) == ta && word != "" && forall i :: 0 <= i < |word| ==> Sql.IsWordChar(word[i])
    ensures Sql.Lex(a + " " + word) == ta + [Sql.Word(word)]
  {
    Sql.LexWord(word);
    LexSpacedTokens(a, ta, word, [Sql.Word(word)]);
  }

  predicate AllWordChars(s: string) { s != "" && forall i :: 0 <= i < |s| ==> Sql.IsWordChar(s[i]) }

  lemma LexTwoWords(a: string, b: string)
    requires AllWordChars(a) && AllWordChars(b)
    ensures Sql.Lex(a + " " + b) == [Sql.Word(a), Sql.Word(b)]
  {
    Sql.LexWord(a);
    LexWords(a, [Sql.Word(a)], b);
  }

  lemma LexThreeWords(a: string, b: string, c: string)
    requires AllWordChars(a) && AllWordChars(b) && AllWordChars(c)
    ensures Sql.Lex(a + " " + b + " " + c) == [Sql.Word(a), Sql.Word(b), Sql.Word(c)]
  {
    LexTwoWords(a, b);
    LexWords(a + " " + b, [Sql.Word(a), Sql.Word(b)], c);
  }

  lemma LexFourWords(a: string, b: string, c: string, d: string)
    requires AllWordChars(a) && AllWordChars(b) && AllWordChars(c) && AllWordChars(d)
    ensures Sql.Lex(a + " " + b + " " + c + " " + d) == [Sql.Word(a), Sql.Word(b), Sql.Word(c), Sql.Word(d)]
  {
    LexThreeWords(a, b, c);
    LexWords(a + " " + b + " " + c, [Sql.Word(a), Sql.Word(b), Sql.Word(c)], d);
  }

  lemma SpellNullTests(c: string, wIs: string, wNot: string, wNull: string)
    requires wIs == "IS" && wNot == "NOT" && wNull == "NULL"
    ensures c + " " + wIs + " " + wNull == c + " IS NULL"
    ensures c + " " + wIs + " " + wNot + " " + wNull == c + " IS NOT NULL"
  {
  }

  lemma LexNullTest(c: string, negated: bool)
    requires Definitions.IsIdentifier(c)
    ensures Sql.Lex(Print(NullTest(c, negated))) == Tokens(NullTest(c, negated))
  {
    var wIs, wNot, wNull := "IS", "NOT", "NULL";
    SpellNullTests(c, wIs, wNot, wNull);
    LexThreeWords(c, wIs, wNull);
    LexFourWords(c, wIs, wNot, wNull);
  }

  lemma LexList(c: string, wIn: string, marks: string, ts: seq<Sql.Token>)
    requires AllWordChars(c) && AllWordChars(wIn) && Sql.Lex(marks) == ts
    ensures Sql.Lex(c + " " + wIn + " " + ("(" + marks + ")"))
            == [Sql.Word(c), Sql.Word(wIn), Sql.LParen] + ts + [Sql.RParen]
  {
    LexTwoWords(c, wIn);
    LexParens(marks);
    Regroup(Sql.Word(c), Sql.Word(wIn), ts);
    LexSpacedTokens(c + " " + wIn, [Sql.Word(c), Sql.Word(wIn)], "(" + marks + ")", [Sql.LParen] + ts + [Sql.RParen]);
  }

  lemma Regroup(a: Sql.Token, b: Sql.Token, ts: seq<Sql.Token>)
    ensures [a, b] + ([Sql.LParen] + ts + [Sql.RParen]) == [a, b, Sql.LParen] + ts + [Sql.RParen]
  {
  }

  lemma LexOneOf(c: string, values: seq<Value>)
    requires Definitions.IsIdentifier(c)
    ensures Sql.Lex(Print(OneOf(c, values))) == Tokens(OneOf(c, values))
  {
    var wIn, marks := "IN", Placeholders(|values|);
    LexPlaceholders(|values|);
    LexList(c, wIn, marks, MarkTokens(|values|));
    SpellList(c, wIn, marks);
  }

  lemma SpellList(c: string, wIn: string, marks: string)
    requires wIn == "IN"
    ensures c + " " + wIn + " " + ("(" + marks + ")") == c + " IN (" + marks + ")"
  {
  }

  lemma SpellCompare(c: string, op: string, v: Value, mark: string)
    requires mark == "?"
    ensures c + " " + op + " " + mark == Print(Compare(c, op, v))
  {
  }

  lemma LexComparison(c: string, op: string, mark: string)
    requires Definitions.IsIdentifier(c) && IsOp(op) && mark == "?"
    ensures Sql.Lex(c + " " + op + " " + mark) == [Sql.Word(c)] + [OpToken(op)] + [Sql.BARE]
  {
    LexIdentifier(c);
    LexOp(op);
    LexMark();
    LexSpacedTokens(c, [Sql.Word(c)], op, [OpToken(op)]);
    LexSpacedTokens(c + " " + op, [Sql.Word(c)] + [OpToken(op)], mark, [Sql.BARE]);
  }

  lemma LexCompare(c: string, op: string, v: Value)
    requires Definitions.IsIdentifier(c) && IsOp(op)
    ensures Sql.Lex(Print(Compare(c, op, v))) == Tokens(Compare(c, op, v))
  {
    LexComparison(c, op, "?");
    SpellCompare(c, op, v, "?");
  }

  /** The printed text is made of exactly the tokens meant. */
  lemma {:induction false} LexPrint(f: Filter)
    requires Printable(f)
    ensures Sql.Lex(Print(f)) == Tokens(f)
    decreases f, 0
  {
    match f
    case Always => LexConstants();
    case Never => LexConstants();
    case NullTest(c, negated) => LexNullTest(c, negated);
    case OneOf(c, values) => LexOneOf(c, values);
    case Compare(c, op, v) => LexCompare(c, op, v);
    case Group(joiner, parts) =>
      LexPrintAll(parts, joiner);
      LexParens(PrintAll(parts, joiner));
  }

  lemma {:induction false} LexPrintAll(parts: seq<Filter>, joiner: string)
    requires AllPrintable(parts) && (joiner == "AND" || joiner == "OR")
    ensures Sql.Lex(PrintAll(parts, joiner)) == TokensAll(parts, joiner)
    decreases parts, 1
  {
    if parts != [] {
      LexPrint(parts[0]);
      if |parts| > 1 {
        LexPrintAll(parts[1..], joiner);
        LexJoined(Print(parts[0]), joiner, PrintAll(parts[1..], joiner));
      }
    }
  }

  lemma LexJoined(a: string, joiner: string, b: string)
    requires joiner == "AND" || joiner == "OR"
    ensures Sql.Lex(a + " " + joiner + " " + b) == Sql.Lex(a) + [Sql.Word(joiner)] + Sql.Lex(b)
  {
    Sql.LexWord(joiner);
    LexSpaced(a, joiner);
    LexSpaced(a + " " + joiner, b);
  }

  // ── placeholders and arguments ───────────────────────────────────────────────

  lemma {:induction false} MarkTokensCount(n: nat)
    ensures Sql.Marks(MarkTokens(n)) == n
  {
    if n > 1 {
      MarkTokensCount(n - 1);
      assert MarkTokens(n)[1..][1..] == MarkTokens(n - 1);
    }
  }

  /** As many placeholders as arguments. */
  lemma {:induction false} TokensCount(f: Filter)
    ensures Sql.Marks(Tokens(f)) == |ArgsOf(f)|
    decreases f, 0
  {
    match f
    case Always => PositionalNoMarks(Tokens(f), 0);
    case Never => PositionalNoMarks(Tokens(f), 0);
    case NullTest(c, negated) => PositionalNoMarks(Tokens(f), 0);
    case OneOf(c, values) =>
      MarkTokensCount(|values|);
      var head := [Sql.Word(c), Sql.Word("IN"), Sql.LParen];
      PositionalNoMarks(head, 0);
      Sql.MarksAppend(head + MarkTokens(|values|), [Sql.RParen]);
      Sql.MarksAppend(head, MarkTokens(|values|));
    case Compare(c, op, v) =>
      var head := [Sql.Word(c), OpToken(op)];
      PositionalNoMarks(head, 0);
      Sql.MarksAppend(head, [Sql.BARE]);
      assert Tokens(f) == head + [Sql.BARE] && [Sql.BARE][1..] == [];
    case Group(joiner, parts) =>
      TokensAllCount(parts, joiner);
      Sql.MarksAppend([Sql.LParen] + TokensAll(parts, joiner), [Sql.RParen]);
      Sql.MarksAppend([Sql.LParen], TokensAll(parts, joiner));
  }

  lemma {:induction false} TokensAllCount(parts: seq<Filter>, joiner: string)
    ensures Sql.Marks(TokensAll(parts, joiner)) == |ArgsOfAll(parts)|
    decreases parts, 1
  {
    if parts != [] {
      TokensCount(parts[0]);
      TokensAllCount(parts[1..], joiner);
      if |parts| > 1 {
        Sql.MarksAppend(Tokens(parts[0]) + [Sql.Word(joiner)], TokensAll(parts[1..], joiner));
        Sql.MarksAppend(Tokens(parts[0]), [Sql.Word(joiner)]);
      }
    }
  }

  // ── reading the text back ────────────────────────────────────────────────────

  function Indices(base: nat, n: nat): (r: seq<int>)
    ensures |r| == n
  {
    seq(n, i => base + i)
  }

  /** The expression a filter's tokens parse to, its first placeholder being argument `base`. */
  function ToExpr(f: Filter, base: nat): Sql.Expr
    decreases f, 0
  {
    match f
    case Always => Sql.Leaf(Sql.Atom.Always)
    case Never => Sql.Leaf(Sql.Atom.Never)
    case NullTest(c, negated) => Sql.Leaf(Sql.Atom.NullTest(c, negated))
    case OneOf(c, values) => Sql.Leaf(Sql.Atom.OneOf(c, Indices(base, |values|)))
    case Compare(c, op, _) => Sql.Leaf(Sql.Atom.Compare(c, op, base))
    case Group(joiner, parts) => Chain(parts, joiner, base)
  }

  function Chain(parts: seq<Filter>, joiner: string, base: nat): Sql.Expr
    decreases parts, 1
  {
    if parts == [] then Sql.Leaf(Sql.Atom.Always)
    else if |parts| == 1 then ToExpr(parts[0], base)
    else
      var rest := Chain(parts[1..], joiner, base + |ArgsOf(parts[0])|);
      if joiner == "AND" then Sql.And(ToExpr(parts[0], base), rest) else Sql.Or(ToExpr(parts[0], base), rest)
  }

  /** Nothing that could extend a clause. */
  predicate Ends(rest: seq<Sql.Token>) { !Sql.StartsWith(rest, Sql.AND) && !Sql.StartsWith(rest, Sql.OR) }

  lemma {:induction false} ParseMarks(n: nat, base: nat, rest: seq<Sql.Token>)
    requires n > 0
    ensures Sql.ParseParams(Sql.Positional(MarkTokens(n), base) + [Sql.RParen] + rest)
            == Some(Sql.Parsed(Indices(base, n), rest))
  {
    if n == 1 {
      var ts := Sql.Positional(MarkTokens(n), base) + [Sql.RParen] + rest;
      assert MarkTokens(1)[1..] == [];
      assert ts[0] == Sql.Param(base) && ts[1] == Sql.RParen && ts[2..] == rest;
      assert [base] == Indices(base, 1);
    } else {
      ParseMarks(n - 1, base + 1, rest);
      MarksFrom(n, base);
      OneMoreParam(base, Sql.Positional(MarkTokens(n - 1), base + 1), rest, Indices(base + 1, n - 1));
      assert [base] + Indices(base + 1, n - 1) == Indices(base, n);
    }
  }

  lemma MarksFrom(n: nat, base: nat)
    requires n > 1
    ensures Sql.Positional(MarkTokens(n), base)
            == [Sql.Param(base), Sql.Comma] + Sql.Positional(MarkTokens(n - 1), base + 1)
  {
    var m := MarkTokens(n);
    assert m[0] == Sql.BARE && m[1..][0] == Sql.Comma && m[1..][1..] == MarkTokens(n - 1);
  }

  lemma OneMoreParam(param: nat, more: seq<Sql.Token>, rest: seq<Sql.Token>, params: seq<int>)
    requires Sql.ParseParams(more + [Sql.RParen] + rest) == Some(Sql.Parsed(params, rest))
    ensures Sql.ParseParams([Sql.Param(param), Sql.Comma] + more + [Sql.RParen] + rest)
            == Some(Sql.Parsed([param] + params, rest))
  {
    var ts := [Sql.Param(param), Sql.Comma] + more + [Sql.RParen] + rest;
    assert ts[0] == Sql.Param(param) && ts[1] == Sql.Comma && ts[2..] == more + [Sql.RParen] + rest;
  }

  lemma PositionalNoMarks(ts: seq<Sql.Token>, base: nat)
    requires forall t :: t in ts ==> !t.Mark?
    ensures Sql.Positional(ts, base) == ts && Sql.Marks(ts) == 0
  {
    if ts != [] {
      assert ts[0] in ts;
      PositionalNoMarks(ts[1..], base);
    }
  }

  lemma OneOfTokens(c: string, n: nat, base: nat, rest: seq<Sql.Token>)
    ensures Sql.Positional([Sql.Word(c), Sql.Word("IN"), Sql.LParen] + MarkTokens(n) + [Sql.RParen], base) + rest
            == [Sql.Word(c), Sql.Word("IN"), Sql.LParen] + (Sql.Positional(MarkTokens(n), base) + [Sql.RParen] + rest)
  {
    var head, marks := [Sql.Word(c), Sql.Word("IN"), Sql.LParen], MarkTokens(n);
    PositionalNoMarks(head, base);
    PositionalNoMarks([Sql.RParen], base + Sql.Marks(head + marks));
    Sql.PositionalAppend(head + marks, [Sql.RParen], base);
    Sql.PositionalAppend(head, marks, base);
  }

  lemma ParseOneOf(c: string, values: seq<Value>, base: nat, rest: seq<Sql.Token>)
    requires Definitions.IsIdentifier(c) && values != []
    ensures Sql.ParseFactor(Sql.Positional(Tokens(OneOf(c, values)), base) + rest)
            == Some(Sql.Parsed(ToExpr(OneOf(c, values), base), rest))
  {
    var tail := Sql.Positional(MarkTokens(|values|), base) + [Sql.RParen] + rest;
    OneOfTokens(c, |values|, base, rest);
    ParseMarks(|values|, base, rest);
    NotTheNumberOne(c);
    ParseIn(c, tail, Indices(base, |values|), rest);
  }

  lemma ParseIn(c: string, tail: seq<Sql.Token>, params: seq<int>, rest: seq<Sql.Token>)
    requires c != "1" && Sql.ParseParams(tail) == Some(Sql.Parsed(params, rest))
    ensures Sql.ParseFactor([Sql.Word(c), Sql.Word("IN"), Sql.LParen] + tail)
            == Some(Sql.Parsed(Sql.Leaf(Sql.Atom.OneOf(c, params)), rest))
  {
    var ts := [Sql.Word(c), Sql.Word("IN"), Sql.LParen] + tail;
    assert ts[0] == Sql.Word(c) && ts[1] == Sql.Word("IN") && ts[2] == Sql.LParen && ts[3..] == tail;
  }

  lemma NotTheNumberOne(c: string)
    requires Definitions.IsIdentifier(c)
    ensures c != "1"
  {
  }

  lemma ParseCompare(c: string, op: string, v: Value, base: nat, rest: seq<Sql.Token>)
    requires Definitions.IsIdentifier(c) && IsOp(op)
    ensures Sql.ParseFactor(Sql.Positional(Tokens(Compare(c, op, v)), base) + rest)
            == Some(Sql.Parsed(ToExpr(Compare(c, op, v), base), rest))
  {
    NumberCompare(c, op, v, base);
    ParseComparison(c, op, base, rest);
  }

  lemma NumberCompare(c: string, op: string, v: Value, base: nat)
    ensures Sql.Positional(Tokens(Compare(c, op, v)), base) == [Sql.Word(c), OpToken(op), Sql.Param(base)]
  {
    var head := [Sql.Word(c), OpToken(op)];
    PositionalNoMarks(head, base);
    Sql.PositionalAppend(head, [Sql.BARE], base);
    assert Tokens(Compare(c, op, v)) == head + [Sql.BARE];
    assert [Sql.BARE][1..] == [];
  }

  lemma ParseComparison(c: string, op: string, param: nat, rest: seq<Sql.Token>)
    requires Definitions.IsIdentifier(c) && IsOp(op)
    ensures Sql.ParseFactor([Sql.Word(c), OpToken(op), Sql.Param(param)] + rest)
            == Some(Sql.Parsed(Sql.Leaf(Sql.Atom.Compare(c, op, param)), rest))
  {
    var ts := [Sql.Word(c), OpToken(op), Sql.Param(param)] + rest;
    NotTheNumberOne(c);
    assert ts[0] == Sql.Word(c) && ts[1] == OpToken(op) && ts[2] == Sql.Param(param) && ts[3..] == rest;
  }

  lemma ParseNullTest(c: string, negated: bool, base: nat, rest: seq<Sql.Token>)
    requires Definitions.IsIdentifier(c)
    ensures Sql.ParseFactor(Sql.Positional(Tokens(NullTest(c, negated)), base) + rest)
            == Some(Sql.Parsed(ToExpr(NullTest(c, negated), base), rest))
  {
    NotTheNumberOne(c);
    var f := NullTest(c, negated);
    PositionalNoMarks(Tokens(f), base);
    var ts := Tokens(f) + rest;
    assert ts[0] == Sql.Word(c) && ts[1] == Sql.Word("IS");
    if negated {
      assert ts[2] == Sql.Word("NOT") && ts[3] == Sql.Word("NULL") && ts[4..] == rest;
    } else {
      assert ts[2] == Sql.Word("NULL") && ts[3..] == rest;
    }
  }

  lemma ParseConstant(f: Filter, base: nat, rest: seq<Sql.Token>)
    requires f.Always? || f.Never?
    ensures Sql.ParseFactor(Sql.Positional(Tokens(f), base) + rest) == Some(Sql.Parsed(ToExpr(f, base), rest))
  {
    PositionalNoMarks(Tokens(f), base);
    var ts := Tokens(f) + rest;
    assert ts[0] == Sql.Word("1") && ts[1] == Sql.Operator("=") && ts[2] == Tokens(f)[2] && ts[3..] == rest;
  }

  /** A printed filter is one factor of the grammar, whatever comes after it. */
  lemma {:induction false} ParseFilter(f: Filter, base: nat, rest: seq<Sql.Token>)
    requires Printable(f)
    ensures Sql.ParseFactor(Sql.Positional(Tokens(f), base) + rest) == Some(Sql.Parsed(ToExpr(f, base), rest))
    decreases f, 0
  {
    match f
    case Always => ParseConstant(f, base, rest);
    case Never => ParseConstant(f, base, rest);
    case NullTest(c, negated) => ParseNullTest(c, negated, base, rest);
    case OneOf(c, values) => ParseOneOf(c, values, base, rest);
    case Compare(c, op, v) => ParseCompare(c, op, v, base, rest);
    case Group(joiner, parts) =>
      var inner := Sql.Positional(TokensAll(parts, joiner), base);
      var close := [Sql.RParen] + rest;
      GroupTokens(TokensAll(parts, joiner), base, rest);
      ParseChain(parts, joiner, base, close);
      assert close[1..] == rest;
  }

  lemma GroupTokens(ts: seq<Sql.Token>, base: nat, rest: seq<Sql.Token>)
    ensures var all := Sql.Positional([Sql.LParen] + ts + [Sql.RParen], base) + rest;
            Sql.StartsWith(all, Sql.LParen) && all[1..] == Sql.Positional(ts, base) + ([Sql.RParen] + rest)
  {
    PositionalNoMarks([Sql.LParen], base);
    PositionalNoMarks([Sql.RParen], base + Sql.Marks([Sql.LParen] + ts));
    Sql.PositionalAppend([Sql.LParen] + ts, [Sql.RParen], base);
    Sql.PositionalAppend([Sql.LParen], ts, base);
  }

  lemma JoinTokens(a: seq<Sql.Token>, joiner: string, b: seq<Sql.Token>, base: nat, rest: seq<Sql.Token>)
    ensures Sql.Positional(a + [Sql.Word(joiner)] + b, base) + rest
            == Sql.Positional(a, base) + ([Sql.Word(joiner)] + (Sql.Positional(b, base + Sql.Marks(a)) + rest))
  {
    PositionalNoMarks([Sql.Word(joiner)], base + Sql.Marks(a));
    Sql.PositionalAppend(a + [Sql.Word(joiner)], b, base);
    Sql.PositionalAppend(a, [Sql.Word(joiner)], base);
    Sql.MarksAppend(a, [Sql.Word(joiner)]);
  }

  /** What follows the first joiner. */
  ghost function ChainTail(parts: seq<Filter>, joiner: string, base: nat, rest: seq<Sql.Token>): seq<Sql.Token>
    requires |parts| > 1 && AllPrintable(parts)
  {
    Sql.Positional(TokensAll(parts[1..], joiner), base + |ArgsOf(parts[0])|) + rest
  }

  ghost function CutTokens(parts: seq<Filter>, joiner: string, base: nat, rest: seq<Sql.Token>): seq<Sql.Token>
    requires |parts| > 1 && AllPrintable(parts)
  {
    Sql.Positional(Tokens(parts[0]), base) + ([Sql.Word(joiner)] + ChainTail(parts, joiner, base, rest))
  }

  /** A chain's tokens: its first filter, the joiner, the rest numbered on. */
  lemma CutChain(parts: seq<Filter>, joiner: string, base: nat, rest: seq<Sql.Token>)
    requires |parts| > 1 && AllPrintable(parts)
    ensures Sql.Positional(TokensAll(parts, joiner), base) + rest == CutTokens(parts, joiner, base, rest)
  {
    TokensCount(parts[0]);
    JoinTokens(Tokens(parts[0]), joiner, TokensAll(parts[1..], joiner), base, rest);
  }

  /** Joined filters parse as one chain: AND within a term, OR across terms. */
  lemma {:induction false} ParseChain(parts: seq<Filter>, joiner: string, base: nat, rest: seq<Sql.Token>)
    requires parts != [] && AllPrintable(parts) && (joiner == "AND" || joiner == "OR") && Ends(rest)
    ensures ChainParses(parts, joiner, base, rest)
    decreases parts, 1
  {
    if |parts| == 1 {
      ParseFilter(parts[0], base, rest);
      LoneChain(parts, joiner, base, rest);
    } else {
      ParseFilter(parts[0], base, [Sql.Word(joiner)] + ChainTail(parts, joiner, base, rest));
      ParseChain(parts[1..], joiner, base + |ArgsOf(parts[0])|, rest);
      LongerChain(parts, joiner, base, rest);
      CutChain(parts, joiner, base, rest);
    }
  }

  ghost predicate ChainParses(parts: seq<Filter>, joiner: string, base: nat, rest: seq<Sql.Token>)
    requires parts != [] && AllPrintable(parts)
  {
    ParsesAs(Sql.Positional(TokensAll(parts, joiner), base) + rest, joiner, Chain(parts, joiner, base), rest)
  }

  ghost predicate ParsesAs(ts: seq<Sql.Token>, joiner: string, e: Sql.Expr, rest: seq<Sql.Token>) {
    && (joiner == "AND" ==> Sql.ParseTerm(ts) == Some(Sql.Parsed(e, rest)))
    && Sql.ParseExpr(ts) == Some(Sql.Parsed(e, rest))
  }

  lemma LoneChain(parts: seq<Filter>, joiner: string, base: nat, rest: seq<Sql.Token>)
    requires |parts| == 1 && AllPrintable(parts) && Ends(rest)
    requires Sql.ParseFactor(Sql.Positional(Tokens(parts[0]), base) + rest)
             == Some(Sql.Parsed(ToExpr(parts[0], base), rest))
    ensures ChainParses(parts, joiner, base, rest)
  {
    LoneFactor(Sql.Positional(Tokens(parts[0]), base) + rest, ToExpr(parts[0], base), rest);
  }

  lemma LongerChain(parts: seq<Filter>, joiner: string, base: nat, rest: seq<Sql.Token>)
    requires |parts| > 1 && AllPrintable(parts) && (joiner == "AND" || joiner == "OR") && Ends(rest)
    requires Sql.ParseFactor(CutTokens(parts, joiner, base, rest))
             == Some(Sql.Parsed(ToExpr(parts[0], base), [Sql.Word(joiner)] + ChainTail(parts, joiner, base, rest)))
    requires ChainParses(parts[1..], joiner, base + |ArgsOf(parts[0])|, rest)
    ensures ParsesAs(CutTokens(parts, joiner, base, rest), joiner, Chain(parts, joiner, base), rest)
  {
    var more := Chain(parts[1..], joiner, base + |ArgsOf(parts[0])|);
    ChainCons(parts, joiner, base);
    ChainLink(CutTokens(parts, joiner, base, rest), joiner, ToExpr(parts[0], base),
              ChainTail(parts, joiner, base, rest), more, rest);
  }

  lemma ChainCons(parts: seq<Filter>, joiner: string, base: nat)
    requires |parts| > 1 && AllPrintable(parts)
    ensures var more := Chain(parts[1..], joiner, base + |ArgsOf(parts[0])|);
            Chain(parts, joiner, base)
                == if joiner == "AND" then Sql.And(ToExpr(parts[0], base), more)
                    else Sql.Or(ToExpr(parts[0], base), more)
  {
  }

  lemma ChainLink(ts: seq<Sql.Token>, joiner: string, e: Sql.Expr, tail: seq<Sql.Token>, more: Sql.Expr,
                  rest: seq<Sql.Token>)
    requires (joiner == "AND" || joiner == "OR") && Ends(rest)
    requires Sql.ParseFactor(ts) == Some(Sql.Parsed(e, [Sql.Word(joiner)] + tail))
    requires ParsesAs(tail, joiner, more, rest)
    ensures ParsesAs(ts, joiner, if joiner == "AND" then Sql.And(e, more) else Sql.Or(e, more), rest)
  {
    if joiner == "AND" {
      AndFactor(ts, e, tail, more, rest);
    } else {
      OrFactor(ts, e, tail, more, rest);
    }
  }

  lemma LoneFactor(ts: seq<Sql.Token>, e: Sql.Expr, rest: seq<Sql.Token>)
    requires Sql.ParseFactor(ts) == Some(Sql.Parsed(e, rest)) && Ends(rest)
    ensures Sql.ParseTerm(ts) == Some(Sql.Parsed(e, rest)) && Sql.ParseExpr(ts) == Some(Sql.Parsed(e, rest))
  {
  }

  lemma AndFactor(ts: seq<Sql.Token>, e: Sql.Expr, tail: seq<Sql.Token>, more: Sql.Expr, rest: seq<Sql.Token>)
    requires Sql.ParseFactor(ts) == Some(Sql.Parsed(e, [Sql.AND] + tail))
    requires Sql.ParseTerm(tail) == Some(Sql.Parsed(more, rest)) && Ends(rest)
    ensures Sql.ParseTerm(ts) == Some(Sql.Parsed(Sql.And(e, more), rest))
    ensures Sql.ParseExpr(ts) == Some(Sql.Parsed(Sql.And(e, more), rest))
  {
    assert ([Sql.AND] + tail)[1..] == tail;
  }

  lemma OrFactor(ts: seq<Sql.Token>, e: Sql.Expr, tail: seq<Sql.Token>, more: Sql.Expr, rest: seq<Sql.Token>)
    requires Sql.ParseFactor(ts) == Some(Sql.Parsed(e, [Sql.OR] + tail))
    requires Sql.ParseExpr(tail) == Some(Sql.Parsed(more, rest))
    ensures Sql.ParseExpr(ts) == Some(Sql.Parsed(Sql.Or(e, more), rest))
  {
    assert ([Sql.OR] + tail)[1..] == tail;
  }

  // ── what the text evaluates to ───────────────────────────────────────────────

  /** The arguments of the filter sit at `base` in the argument list. */
  predicate Placed(args: seq<Value>, base: nat, own: seq<Value>) {
    base + |own| <= |args| && args[base..base + |own|] == own
  }

  lemma {:induction false} AnyEqualMeans(cmp: Sql.Comparison, v: Value, params: seq<int>, args: seq<Value>,
                                         values: seq<Value>)
    requires |params| == |values| && forall i :: 0 <= i < |params| ==> Sql.Argument(args, params[i]) == values[i]
    ensures Sql.AnyEqual(cmp, v, params, args).True?
            <==> exists i :: 0 <= i < |values| && Compares(cmp, "=", v, values[i])
  {
    if params != [] {
      AnyEqualMeans(cmp, v, params[1..], args, values[1..]);
      if Sql.AnyEqual(cmp, v, params[1..], args).True? {
        var i :| 0 <= i < |values[1..]| && Compares(cmp, "=", v, values[1..][i]);
        assert values[i + 1] == values[1..][i];
      }
      forall i | 1 <= i < |values| && Compares(cmp, "=", v, values[i])
        ensures Sql.AnyEqual(cmp, v, params[1..], args).True?
      {
        assert values[1..][i - 1] == values[i];
      }
    }
  }

  /** Evaluated in three-valued logic, the expression is TRUE exactly when the filter
      holds: there is no NOT through which UNKNOWN could turn into TRUE. */
  lemma {:induction false} EvalFilter(f: Filter, base: nat, row: Sql.Row, args: seq<Value>, cmp: Sql.Comparison)
    requires Printable(f) && Placed(args, base, ArgsOf(f))
    ensures Sql.Eval(ToExpr(f, base), row, args, cmp).True? <==> Holds(f, row, cmp)
    decreases f, 0
  {
    match f
    case Always =>
    case Never =>
    case NullTest(c, negated) =>
    case OneOf(c, values) =>
      forall i | 0 <= i < |values| ensures Sql.Argument(args, Indices(base, |values|)[i]) == values[i] {
        assert args[base..base + |values|][i] == args[base + i];
      }
      AnyEqualMeans(cmp, Sql.Column(row, c), Indices(base, |values|), args, values);
    case Compare(c, op, v) =>
      assert args[base..base + 1][0] == args[base];
    case Group(joiner, parts) =>
      EvalChain(parts, joiner, base, row, args, cmp);
  }

  lemma {:induction false} EvalChain(parts: seq<Filter>, joiner: string, base: nat, row: Sql.Row, args: seq<Value>,
                                     cmp: Sql.Comparison)
    requires parts != [] && AllPrintable(parts) && Placed(args, base, ArgsOfAll(parts))
    ensures Sql.Eval(Chain(parts, joiner, base), row, args, cmp).True?
            <==> if joiner == "AND" then HoldsAll(parts, row, cmp) else HoldsAny(parts, row, cmp)
    decreases parts, 1
  {
    PlacedParts(args, base, ArgsOf(parts[0]), ArgsOfAll(parts[1..]));
    EvalFilter(parts[0], base, row, args, cmp);
    if |parts| > 1 {
      EvalChain(parts[1..], joiner, base + |ArgsOf(parts[0])|, row, args, cmp);
      ChainCons(parts, joiner, base);
    }
  }

  lemma PlacedParts(args: seq<Value>, base: nat, a: seq<Value>, b: seq<Value>)
    requires Placed(args, base, a + b)
    ensures Placed(args, base, a) && Placed(args, base + |a|, b)
  {
    var whole := args[base..base + |a + b|];
    assert args[base..base + |a|] == whole[..|a|] == a;
    assert args[base + |a|..base + |a| + |b|] == whole[|a|..] == b;
  }

  /** Compilation preserves meaning: for every tree the compiler accepts and every row, the
      text read back as SQL, with the arguments in position, is TRUE of the row exactly when
      the tree reads true of it. */
  lemma CompilationPreservesMeaning(node: Json, cols: set<string>, base: nat, row: Sql.Row, args: seq<Value>,
                                    cmp: Sql.Comparison)
    requires AllIdentifiers(cols) && Build(node, cols).Compiled?
    requires Placed(args, base, ArgsOf(Build(node, cols).filter))
    ensures var e := Sql.ParseClause(Sql.Positional(Sql.Lex(Print(Build(node, cols).filter)), base));
            e.Some? && (Sql.Eval(e.value, row, args, cmp).True? <==> Reads(node, row, cmp))
  {
    var f := Build(node, cols).filter;
    BuildPrintable(node, cols);
    LexPrint(f);
    ParseFilter(f, base, []);
    var ts := Sql.Positional(Tokens(f), base);
    assert ts + [] == ts;
    LoneFactor(ts, ToExpr(f, base), []);
    EvalFilter(f, base, row, args, cmp);
    BuildKeepsReading(node, cols, row, cmp);
  }
}
