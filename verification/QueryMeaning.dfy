/** What a query selects, how its placeholders line up, and why the tenant test cannot be
    reached around. */
module QueryMeaning {
  import opened Basics
  import opened JsonValues
  import opened Definitions
  import opened Sorting
  import opened Policy
  import opened Where
  import opened WhereMeaning
  import opened Query
  import Decimal
  import Dialect
  import Sql
  import Strings = Text

  // ── what a plan is made of ───────────────────────────────────────────────────

  lemma AllowedAreIdentifiers(def: ProjectionDef, policy: PolicyDef)
    requires ValidProjection(def)
    ensures AllIdentifiers(AllowedColumns(def, policy))
  {
  }

  lemma {:induction false} SelectNamesAllowed(items: seq<Json>, cols: set<string>)
    requires SelectNames(items, cols).Some?
    ensures forall c :: c in SelectNames(items, cols).value ==> c in cols
  {
    if items != [] {
      SelectNamesAllowed(items[1..], cols);
    }
  }

  /** An `ASC` or `DESC` term on an allowed column. */
  predicate IsTerm(t: string, cols: set<string>) {
    exists c :: c in cols && (t == c + " ASC" || t == c + " DESC")
  }

  lemma {:induction false} SortTermsAllowed(items: seq<Json>, cols: set<string>)
    requires SortTerms(items, cols).Some?
    ensures forall t :: t in SortTerms(items, cols).value ==> IsTerm(t, cols)
  {
    if items != [] {
      SortTermsAllowed(items[1..], cols);
      assert SortColumn(items[0].s) in cols;
    }
  }

  /** Only allowed columns are selected, filtered on or sorted by. */
  lemma PlanStaysAllowed(def: ProjectionDef, policy: PolicyDef, request: Request, ctx: AuthCtx)
    requires ValidProjection(def) && PlanQuery(def, policy, request, ctx).Ready?
    ensures var p := PlanQuery(def, policy, request, ctx).plan; var cols := AllowedColumns(def, policy);
            && (forall c :: c in p.select ==> c in cols)
            && (forall t :: t in p.order ==> IsTerm(t, cols))
            && (p.filter.Some? ==> Printable(p.filter.value))
  {
    var cols := AllowedColumns(def, policy);
    AllowedAreIdentifiers(def, policy);
    var select, sort, node := Field(request, "select"), Field(request, "sort"), Field(request, "where");
    if select.Some? && select.value.Arr? && SelectNames(select.value.items, cols).Some? {
      SelectNamesAllowed(select.value.items, cols);
    }
    if sort.Some? {
      SortTermsAllowed(sort.value.items, cols);
    }
    if node.Some? {
      BuildPrintable(node.value, cols);
    }
  }

  // ── which rows are selected ──────────────────────────────────────────────────

  lemma EvalClause(policy: Option<Sql.Expr>, filter: Option<Filter>, base: nat, row: Sql.Row, args: seq<Value>,
                   cmp: Sql.Comparison)
    requires filter.Some? ==> Printable(filter.value) && Placed(args, base, ArgsOf(filter.value))
    requires args != []
    ensures Sql.Eval(ClauseExpr(policy, filter, base), row, args, cmp).True?
            <==> && Compares(cmp, "=", Sql.Column(row, "tenant"), args[0])
                 && (policy.Some? ==> Sql.Eval(policy.value, row, args, cmp).True?)
                 && (filter.Some? ==> Holds(filter.value, row, cmp))
  {
    if filter.Some? {
      EvalFilter(filter.value, base, row, args, cmp);
    }
  }

  lemma FilterPlaced(p: Plan)
    ensures Placed(p.Args(), 1 + |p.UsingArgs()|, p.FilterArgs())
  {
    var base := 1 + |p.UsingArgs()|;
    var front := [Text(p.tenant)] + p.UsingArgs();
    assert p.Args() == front + p.FilterArgs() + [Number(p.limit as real), Number(p.offset as real)];
  }

  /** What a plan takes over from the request, the policy and the caller. */
  lemma PlanParts(def: ProjectionDef, policy: PolicyDef, request: Request, ctx: AuthCtx)
    requires PlanQuery(def, policy, request, ctx).Ready?
    ensures var p := PlanQuery(def, policy, request, ctx).plan; var where := Field(request, "where");
            && p.tenant == ctx.tenant
            && (p.using.Some? ==>
                policy.using != "" && p.using.value == BindUsing(policy.using, ctx)
                && p.using.value.Bound?)
            && (if where.None? then p.filter.None?
                else Build(where.value, AllowedColumns(def, policy)).Compiled?
                     && p.filter == Some(Build(where.value, AllowedColumns(def, policy)).filter))
  {
  }

  lemma UsingCount(p: Plan, using: string, ctx: AuthCtx)
    requires p.using.Some? ==> p.using.value == BindUsing(using, ctx) && p.using.value.Bound?
    requires '?' !in using
    ensures UsingMarks(p.UsingText()) == |p.UsingArgs()|
  {
    if p.using.Some? {
      UsingAligned(using, ctx);
    }
  }

  /** What the statement of one plan selects. */
  lemma PlanSelects(p: Plan, using: Option<Sql.Expr>, row: Sql.Row, cmp: Sql.Comparison)
    requires p.filter.Some? ==> Printable(p.filter.value)
    requires PolicyParses(p.UsingText(), using) && UsingMarks(p.UsingText()) == |p.UsingArgs()|
    ensures var clause := Sql.ParseClause(Sql.Positional(Sql.Lex(p.Where()), 0));
            && clause.Some?
            && (Sql.Eval(clause.value, row, p.Args(), cmp).True?
                <==> && Compares(cmp, "=", Sql.Column(row, "tenant"), Text(p.tenant))
                     && (using.Some? ==> Sql.Eval(using.value, row, p.Args(), cmp).True?)
                     && (p.filter.Some? ==> Holds(p.filter.value, row, cmp)))
  {
    LexWhere(p.UsingText(), p.filter);
    ParseWhere(p.UsingText(), using, p.filter);
    FilterPlaced(p);
    EvalClause(using, p.filter, 1 + |p.UsingArgs()|, row, p.Args(), cmp);
  }

  /** A row is selected exactly when it belongs to the caller's tenant, the policy's own
      expression is TRUE of it, and the client's where tree reads true of it: for every
      request the compiler accepts, every policy fragment the grammar reads, every row. Both
      engines read the clause so when no token of the policy touches a digit. */
  lemma SelectsExactly(def: ProjectionDef, policy: PolicyDef, request: Request, ctx: AuthCtx, using: Option<Sql.Expr>,
                       row: Sql.Row, cmp: Sql.Comparison)
    requires ValidProjection(def) && PlanQuery(def, policy, request, ctx).Ready? && '?' !in policy.using
    requires PolicyParses(PlanQuery(def, policy, request, ctx).plan.UsingText(), using)
    ensures var p := PlanQuery(def, policy, request, ctx).plan;
            var clause := Sql.ParseClause(Sql.Positional(Sql.Lex(p.Where()), 0));
            && clause.Some?
            && (Sql.Eval(clause.value, row, p.Args(), cmp).True?
                <==> && Compares(cmp, "=", Sql.Column(row, "tenant"), Text(ctx.tenant))
                     && (using.Some? ==> Sql.Eval(using.value, row, p.Args(), cmp).True?)
                     && (Field(request, "where").Some? ==> Reads(Field(request, "where").value, row, cmp)))
    ensures '$' !in policy.using && TokensApart(Pieces(policy.using)) ==>
              var w := PlanQuery(def, policy, request, ctx).plan.Where(); var bound := Sql.Positional(Sql.Lex(w), 0);
              Sql.Sqlite(Sql.Lex(w), 0) == bound && Sql.Numbered(Sql.Lex(Dialect.RewriteFrom(w, 1))) == bound
  {
    var p := PlanQuery(def, policy, request, ctx).plan;
    PlanStaysAllowed(def, policy, request, ctx);
    PlanParts(def, policy, request, ctx);
    UsingCount(p, policy.using, ctx);
    PlanSelects(p, using, row, cmp);
    if Field(request, "where").Some? {
      BuildKeepsReading(Field(request, "where").value, AllowedColumns(def, policy), row, cmp);
    }
    if '$' !in policy.using && TokensApart(Pieces(policy.using)) {
      EnginesBindInPosition(def, policy, request, ctx);
    }
  }

  // ── booleans at the read boundary ────────────────────────────────────────────

  /** `{col: {eq: true}}` */
  function IsTrue(col: string): Json { Obj(map[col := Obj(map["eq" := Bool(true)])]) }

  lemma SortedOne(s: string)
    ensures Sorted({s}) == [s]
  {
    LeqTotal(s, s);
    assert IsLeast(s, {s});
    LeastOf({s}, s);
    assert {s} - {s} == {};
  }

  lemma BuildOpsOne(col: string, op: string, m: map<string, Json>)
    requires m == map[op := Bool(true)] && op == "eq"
    ensures BuildOps(col, m, [op]) == Some([Compare(col, "=", Number(1.0))])
  {
    var f := Compare(col, "=", Number(1.0));
    assert BuildOp(col, op, m[op]) == Clause(f);
    assert [op][1..] == [];
    assert BuildOps(col, m, [op][1..]) == Some([]);
    assert [f] + [] == [f];
  }

  lemma BuildTrue(col: string, cols: set<string>)
    requires col in cols && col != "and" && col != "or"
    ensures Build(IsTrue(col), cols) == Compiled(Group("AND", [Compare(col, "=", Number(1.0))]))
  {
    var eq := "eq";
    var m := map[eq := Bool(true)];
    var node := map[col := Obj(m)];
    BuildOpsOne(col, eq, m);
    SortedOne(eq);
    SortedOne(col);
    assert m.Keys == {eq} && node.Keys == {col};
    assert [col][1..] == [];
    assert BuildColumns(node, [col], cols) == Some([Compare(col, "=", Number(1.0))] + []);
  }

  /** What every engine answers when a cell is compared with the number one, the text "1"
      apart: that depends on the column's type and on the engine. */
  ghost predicate ComparesWithOne(cmp: Sql.Comparison) {
    && (forall n: real :: cmp("=", Number(n), Number(1.0)) <==> n == 1.0)
    && (forall s: string :: s != "1" ==> !cmp("=", Text(s), Number(1.0)))
    && forall j: Json :: !cmp("=", JsonText(j), Number(1.0))
  }

  /** A boolean column reads back true exactly when the compiled filter `eq: true` selects
      the row, whatever the column holds, unless it holds the text "1" and the engine does
      not take that to equal the number. */
  lemma TrueAgreesWithFilter(col: string, cols: set<string>, base: nat, row: Sql.Row, args: seq<Value>,
                             cmp: Sql.Comparison)
    requires AllIdentifiers(cols) && col in cols && col != "and" && col != "or"
    requires ComparesWithOne(cmp) && Placed(args, base, [Number(1.0)])
    ensures var built := Build(IsTrue(col), cols); var cell := Sql.Column(row, col);
            && built.Compiled? && ArgsOf(built.filter) == [Number(1.0)]
            && var e := Sql.ParseClause(Sql.Positional(Sql.Lex(Print(built.filter)), base));
            && e.Some?
            && ((Sql.Eval(e.value, row, args, cmp).True? <==> AsBool(cell) == ShownBool(true))
                <==> (cell == Text("1") ==> cmp("=", Text("1"), Number(1.0))))
  {
    BuildTrue(col, cols);
    var f := Group("AND", [Compare(col, "=", Number(1.0))]);
    TrueFilter(col, f, row, cmp);
    CompilationPreservesMeaning(IsTrue(col), cols, base, row, args, cmp);
    BuildKeepsReading(IsTrue(col), cols, row, cmp);
  }

  lemma TrueFilter(col: string, f: Filter, row: Sql.Row, cmp: Sql.Comparison)
    requires f == Group("AND", [Compare(col, "=", Number(1.0))])
    ensures ArgsOf(f) == [Number(1.0)]
    ensures Holds(f, row, cmp) <==> Compares(cmp, "=", Sql.Column(row, col), Number(1.0))
  {
    var rest := f.parts[1..];
    assert rest == [];
    assert ArgsOfAll(rest) == [] && HoldsAll(rest, row, cmp);
    assert ArgsOfAll(f.parts) == ArgsOf(f.parts[0]) + ArgsOfAll(rest);
    assert HoldsAll(f.parts, row, cmp) <==> Holds(f.parts[0], row, cmp) && HoldsAll(rest, row, cmp);
  }

  // ── placeholders and arguments ───────────────────────────────────────────────

  /** Text that numbers safely: no dollar sign, no digit right after a placeholder, and not
      ending in one that a digit could follow. */
  ghost predicate Plain(s: string) { '?' !in s && '$' !in s }

  lemma {:induction false} JoinCommaPlain(parts: seq<string>)
    requires forall c :: c in parts ==> Plain(c)
    ensures Plain(Strings.JoinComma(parts))
  {
    if |parts| > 1 {
      JoinCommaPlain(parts[1..]);
      assert parts[0] in parts;
    }
  }

  lemma IdentifierPlain(s: string)
    requires IsIdentifier(s)
    ensures Plain(s)
  {
  }

  lemma TermPlain(t: string, cols: set<string>)
    requires AllIdentifiers(cols) && IsTerm(t, cols)
    ensures Plain(t)
  {
    var c :| c in cols && (t == c + " ASC" || t == c + " DESC");
    IdentifierPlain(c);
  }

  lemma TablePlain(def: ProjectionDef)
    requires ValidProjection(def)
    ensures Plain(def.TableOf())
  {
    IdentifierPlain(def.name);
    if def.table != "" {
      IdentifierPlain(def.table);
    }
  }

  /** The parts of the statement around the clause that names columns and tables. */
  lemma NamesPlain(def: ProjectionDef, policy: PolicyDef, request: Request, ctx: AuthCtx)
    requires ValidProjection(def) && PlanQuery(def, policy, request, ctx).Ready?
    ensures var p := PlanQuery(def, policy, request, ctx).plan;
            Plain(Strings.JoinComma(p.select)) && Plain(p.table) && Plain(Strings.JoinComma(p.order))
  {
    var p := PlanQuery(def, policy, request, ctx).plan;
    var cols := AllowedColumns(def, policy);
    PlanStaysAllowed(def, policy, request, ctx);
    AllowedAreIdentifiers(def, policy);
    forall c | c in p.select ensures Plain(c) { IdentifierPlain(c); }
    forall t | t in p.order ensures Plain(t) { TermPlain(t, cols); }
    JoinCommaPlain(p.select);
    JoinCommaPlain(p.order);
    TablePlain(def);
  }

  lemma HeadPlain(select: string, table: string)
    requires Plain(select) && Plain(table)
    ensures Plain("SELECT " + select + " FROM " + table + " WHERE ")
  {
  }

  lemma TwoMarks(a: string, b: string, mark: string)
    requires mark == "?" && '?' !in a && '?' !in b
    ensures Dialect.CountMarks(a + mark + b + mark) == 2
  {
    Dialect.CountMarksAppend(a + mark + b, mark);
    Dialect.CountMarksAppend(a + mark, b);
    Dialect.CountMarksAppend(a, mark);
    Dialect.NoMarksIn(a);
    Dialect.NoMarksIn(b);
    assert mark[1..] == "";
  }

  lemma LastMarks(order: string)
    requires Plain(order)
    ensures Dialect.CountMarks(order + " LIMIT ? OFFSET ?") == 2
    ensures Dialect.DigitFree(order + " LIMIT ? OFFSET ?") && Dialect.NoDollar(order + " LIMIT ? OFFSET ?")
  {
    var limit, mark, offset := " LIMIT ", "?", " OFFSET ";
    var s := order + limit + mark + offset + mark;
    assert s == order + " LIMIT ? OFFSET ?";
    TwoMarks(order + limit, offset, mark);
    assert forall i :: 0 <= i < |s| && s[i] == '?' ==> i == |order| + 7 || i == |s| - 1;
    assert s[|order| + 8] == ' ';
  }

  lemma OrderPlain(order: seq<string>)
    requires Plain(Strings.JoinComma(order))
    ensures Plain(if order == [] then "" else " ORDER BY " + Strings.JoinComma(order))
  {
  }

  /** As many `?` in the statement as there are arguments: none before the clause, the
      clause's own, and the last two for limit and offset. */
  lemma PlaceholdersAlign(def: ProjectionDef, policy: PolicyDef, request: Request, ctx: AuthCtx)
    requires ValidProjection(def) && PlanQuery(def, policy, request, ctx).Ready? && '?' !in policy.using
    ensures var p := PlanQuery(def, policy, request, ctx).plan;
            && Dialect.CountMarks(Head(p.select, p.table)) == 0
            && Dialect.CountMarks(p.Where()) == 1 + |p.UsingArgs()| + |p.FilterArgs()|
            && Dialect.CountMarks(Tail(p.order)) == 2
            && Dialect.CountMarks(p.Statement()) == |p.Args()|
  {
    var p := PlanQuery(def, policy, request, ctx).plan;
    NamesPlain(def, policy, request, ctx);
    HeadPlain(Strings.JoinComma(p.select), p.table);
    Dialect.NoMarksIn(Head(p.select, p.table));
    OrderPlain(p.order);
    LastMarks(if p.order == [] then "" else " ORDER BY " + Strings.JoinComma(p.order));
    WhereMarks(def, policy, request, ctx);
    Dialect.CountMarksAppend(Head(p.select, p.table) + p.Where(), Tail(p.order));
    Dialect.CountMarksAppend(Head(p.select, p.table), p.Where());
  }

  lemma WhereMarks(def: ProjectionDef, policy: PolicyDef, request: Request, ctx: AuthCtx)
    requires ValidProjection(def) && PlanQuery(def, policy, request, ctx).Ready? && '?' !in policy.using
    ensures var p := PlanQuery(def, policy, request, ctx).plan;
            Dialect.CountMarks(p.Where()) == 1 + |p.UsingArgs()| + |p.FilterArgs()|
  {
    var p := PlanQuery(def, policy, request, ctx).plan;
    PlanStaysAllowed(def, policy, request, ctx);
    PlanParts(def, policy, request, ctx);
    UsingCount(p, policy.using, ctx);
    Dialect.LexMarks(p.Where());
    LexWhere(p.UsingText(), p.filter);
    ClauseMarks(p.UsingText(), p.filter);
  }

  lemma FilterMarks(filter: Option<Filter>)
    requires filter.Some? ==> Printable(filter.value)
    ensures Sql.Marks(FilterTokens(filter)) == match filter case None => 0 case Some(f) => |ArgsOf(f)|
  {
    if filter.Some? {
      TokensCount(filter.value);
      Sql.MarksAppend([Sql.AND], Tokens(filter.value));
      PositionalNoMarks([Sql.AND], 0);
    }
  }

  lemma ClauseMarks(using: Option<string>, filter: Option<Filter>)
    requires filter.Some? ==> Printable(filter.value)
    ensures Sql.Marks(ClauseTokens(using, filter)) == 1 + UsingMarks(using) + match filter case None => 0
            case Some(f) => |ArgsOf(f)|
  {
    TenantMarks();
    NumberOwnUsing(using);
    FilterMarks(filter);
    NumberThree(TenantTokens(), UsingTokens(using), FilterTokens(filter), 0);
  }

  // ── renumbering for Postgres ─────────────────────────────────────────────────

  /** Safe to renumber, alone and before any text that does not start with a digit. */
  ghost predicate Numberable(s: string) { Dialect.DigitFree(s) && Dialect.NoDollar(s) }

  predicate NoDigitFirst(s: string) { s == "" || !('0' <= s[0] <= '9') }

  lemma NumberableAppend(a: string, b: string)
    requires Numberable(a) && Numberable(b) && (NoDigitFirst(b) || a == "" || a[|a| - 1] != '?')
    ensures Numberable(a + b)
  {
    var s := a + b;
    forall i | 0 <= i < |s| - 1 && s[i] == '?' ensures !('0' <= s[i + 1] <= '9') {
      if i + 1 < |a| {
        assert a[i] == '?' && a[i + 1] == s[i + 1];
      } else if i >= |a| {
        assert b[i - |a|] == '?' && b[i - |a| + 1] == s[i + 1];
      }
    }
  }

  lemma PlainNumberable(s: string)
    requires Plain(s)
    ensures Numberable(s)
  {
  }

  lemma {:induction false} PlaceholdersNumberable(n: nat)
    ensures Numberable(Placeholders(n)) && NoDigitFirst(Placeholders(n))
  {
    if n > 1 {
      PlaceholdersNumberable(n - 1);
      NumberableAppend("?, ", Placeholders(n - 1));
    }
  }

  /** Printed filters leave a space, a comma, a parenthesis or the end after every `?`. */
  lemma {:induction false} PrintNumberable(f: Filter)
    requires Printable(f)
    ensures Numberable(Print(f))
    decreases f, 0
  {
    match f
    case Always =>
    case Never =>
    case NullTest(c, negated) => IdentifierPlain(c);
    case OneOf(c, values) =>
      IdentifierPlain(c);
      PlaceholdersNumberable(|values|);
      PlainNumberable(c + " IN (");
      NumberableAppend(c + " IN (", Placeholders(|values|));
      NumberableAppend(c + " IN (" + Placeholders(|values|), ")");
    case Compare(c, op, v) =>
      IdentifierPlain(c);
      OpPlain(op);
      PlainNumberable(c + " " + op);
      NumberableAppend(c + " " + op, " ?");
    case Group(joiner, parts) =>
      PrintAllNumberable(parts, joiner);
      NumberableAppend("(", PrintAll(parts, joiner));
      NumberableAppend("(" + PrintAll(parts, joiner), ")");
  }

  lemma OpPlain(op: string)
    requires IsOp(op)
    ensures Plain(op)
  {
  }

  lemma {:induction false} PrintAllNumberable(parts: seq<Filter>, joiner: string)
    requires AllPrintable(parts) && (joiner == "AND" || joiner == "OR")
    ensures Numberable(PrintAll(parts, joiner))
    decreases parts, 1
  {
    if parts != [] {
      PrintNumberable(parts[0]);
      if |parts| > 1 {
        PrintAllNumberable(parts[1..], joiner);
        var between := " " + joiner + " ";
        PlainNumberable(between);
        NumberableAppend(Print(parts[0]), between);
        NumberableAppend(Print(parts[0]) + between, PrintAll(parts[1..], joiner));
        assert Print(parts[0]) + between + PrintAll(parts[1..], joiner) == PrintAll(parts, joiner);
      }
    }
  }

  /** The policy text has no placeholder or dollar sign of its own. */
  predicate Unmarked(using: string) { '?' !in using && '$' !in using }

  lemma UsingNumberable(using: string, ctx: AuthCtx)
    requires Unmarked(using) && BindUsing(using, ctx).Bound?
    ensures Dialect.NoDollar(BindUsing(using, ctx).text)
    ensures Dialect.DigitFree(BindUsing(using, ctx).text) <==> TokensApart(Pieces(using))
  {
    PiecesChars(using);
    ReplacedDigits(Pieces(using), ctx);
  }

  lemma WhereNumberable(using: Option<string>, filter: Option<string>)
    requires using.Some? ==> Numberable(using.value)
    requires filter.Some? ==> Numberable(filter.value)
    ensures Numberable(WhereText(using, filter))
  {
    var tenant, open, close, and := "tenant = ?", " AND (", ")", " AND ";
    var middle := if using.Some? then open + using.value + close else "";
    if using.Some? {
      NumberableAppend(open, using.value);
      NumberableAppend(open + using.value, close);
    }
    NumberableAppend(tenant, middle);
    if filter.Some? {
      NumberableAppend(and, filter.value);
      NumberableAppend(tenant + middle, and + filter.value);
    } else {
      assert tenant + middle + "" == tenant + middle;
    }
  }

  lemma WhereNoDollar(using: Option<string>, filter: Option<string>)
    requires using.Some? ==> Dialect.NoDollar(using.value)
    requires filter.Some? ==> Dialect.NoDollar(filter.value)
    ensures Dialect.NoDollar(WhereText(using, filter))
  {
  }

  /** A clause holds its policy fragment between parentheses. */
  lemma WhereAround(using: string, filter: Option<string>) returns (front: string, back: string)
    ensures WhereText(Some(using), filter) == front + using + back
  {
    front := "tenant = ?" + " AND (";
    back := ")" + (match filter case None => "" case Some(f) => " AND " + f);
  }

  lemma InnerDigitFree(a: string, b: string, c: string)
    requires Dialect.DigitFree(a + b + c)
    ensures Dialect.DigitFree(b)
  {
    var s := a + b + c;
    forall i | 0 <= i < |b| - 1 && b[i] == '?' ensures !('0' <= b[i + 1] <= '9') {
      assert s[|a| + i] == '?' && s[|a| + i + 1] == b[i + 1];
    }
  }

  /** The clause of a plan numbers safely exactly when its policy's tokens keep away from
      digits, and so does the statement around it. */
  lemma PlanNumberable(def: ProjectionDef, policy: PolicyDef, request: Request, ctx: AuthCtx)
    requires ValidProjection(def) && PlanQuery(def, policy, request, ctx).Ready? && Unmarked(policy.using)
    ensures var p := PlanQuery(def, policy, request, ctx).plan;
            && Dialect.NoDollar(p.Where())
            && (Dialect.DigitFree(p.Where()) <==> TokensApart(Pieces(policy.using)))
  {
    var p := PlanQuery(def, policy, request, ctx).plan;
    PlanParts(def, policy, request, ctx);
    PlanStaysAllowed(def, policy, request, ctx);
    if p.filter.Some? {
      PrintNumberable(p.filter.value);
    }
    if p.using.Some? {
      UsingNumberable(policy.using, ctx);
      if Dialect.DigitFree(p.Where()) {
        var front, back := WhereAround(p.using.value.text, p.FilterText());
        InnerDigitFree(front, p.using.value.text, back);
      }
    } else {
      NoUsing(def, policy, request, ctx);
    }
    WhereNoDollar(p.UsingText(), p.FilterText());
    if TokensApart(Pieces(policy.using)) {
      WhereNumberable(p.UsingText(), p.FilterText());
    }
  }

  lemma NoUsing(def: ProjectionDef, policy: PolicyDef, request: Request, ctx: AuthCtx)
    requires PlanQuery(def, policy, request, ctx).Ready? && PlanQuery(def, policy, request, ctx).plan.using.None?
    ensures TokensApart(Pieces(policy.using))
  {
  }

  lemma StatementNumberable(def: ProjectionDef, policy: PolicyDef, request: Request, ctx: AuthCtx)
    requires ValidProjection(def) && PlanQuery(def, policy, request, ctx).Ready? && Unmarked(policy.using)
    ensures var p := PlanQuery(def, policy, request, ctx).plan;
            Dialect.NoDollar(p.Statement()) && (Dialect.DigitFree(p.Statement()) <==> Dialect.DigitFree(p.Where()))
  {
    var p := PlanQuery(def, policy, request, ctx).plan;
    var head, tail := Head(p.select, p.table), Tail(p.order);
    NamesPlain(def, policy, request, ctx);
    HeadPlain(Strings.JoinComma(p.select), p.table);
    PlainNumberable(head);
    OrderPlain(p.order);
    LastMarks(if p.order == [] then "" else " ORDER BY " + Strings.JoinComma(p.order));
    PlanNumberable(def, policy, request, ctx);
    assert tail[0] == ' ';
    Around(head, p.Where(), tail);
  }

  lemma Around(head: string, where: string, tail: string)
    requires Plain(head) && Numberable(tail) && NoDigitFirst(tail) && Dialect.NoDollar(where)
    ensures Dialect.NoDollar(head + where + tail)
    ensures Dialect.DigitFree(head + where + tail) <==> Dialect.DigitFree(where)
  {
    if Dialect.DigitFree(where) {
      PlainNumberable(head);
      assert head == "" || head[|head| - 1] in head;
      NumberableAppend(head, where);
      NumberableAppend(head + where, tail);
    }
    if Dialect.DigitFree(head + where + tail) {
      InnerDigitFree(head, where, tail);
    }
  }

  /** The whole statement, read by SQLite as it is and by Postgres rewritten, binds the same
      arguments exactly when no token of the policy touches a digit; then both bind in
      position. */
  lemma BothDialectsAgree(def: ProjectionDef, policy: PolicyDef, request: Request, ctx: AuthCtx)
    requires ValidProjection(def) && PlanQuery(def, policy, request, ctx).Ready? && Unmarked(policy.using)
    ensures var q := PlanQuery(def, policy, request, ctx).plan.Statement();
            Sql.Numbered(Sql.Lex(Dialect.RewriteFrom(q, 1))) == Sql.Sqlite(Sql.Lex(q), 0)
            <==> TokensApart(Pieces(policy.using))
    ensures var q := PlanQuery(def, policy, request, ctx).plan.Statement();
            TokensApart(Pieces(policy.using)) ==> Sql.Sqlite(Sql.Lex(q), 0) == Sql.Positional(Sql.Lex(q), 0)
  {
    var q := PlanQuery(def, policy, request, ctx).plan.Statement();
    PlanNumberable(def, policy, request, ctx);
    StatementNumberable(def, policy, request, ctx);
    Dialect.RewriteFaithful(q, 1);
    if TokensApart(Pieces(policy.using)) {
      Dialect.DigitFreeInPosition(q, 0);
    }
  }

  /** The clause as either engine reads it is then the clause bound in position. */
  lemma EnginesBindInPosition(def: ProjectionDef, policy: PolicyDef, request: Request, ctx: AuthCtx)
    requires ValidProjection(def) && PlanQuery(def, policy, request, ctx).Ready?
    requires Unmarked(policy.using) && TokensApart(Pieces(policy.using))
    ensures var w := PlanQuery(def, policy, request, ctx).plan.Where(); var inPosition := Sql.Positional(Sql.Lex(w), 0);
            Sql.Sqlite(Sql.Lex(w), 0) == inPosition && Sql.Numbered(Sql.Lex(Dialect.RewriteFrom(w, 1))) == inPosition
  {
    var w := PlanQuery(def, policy, request, ctx).plan.Where();
    PlanNumberable(def, policy, request, ctx);
    Dialect.RewriteFaithful(w, 1);
    Dialect.DigitFreeInPosition(w, 0);
  }

  lemma OwnerText(using: string, owner: string, token: string, one: string, ctx: AuthCtx)
    requires owner == "owner = " && token == ":auth_uid" && one == "1" && using == owner + (token + one)
    requires ctx.uid != ""
    ensures Replaced(Pieces(using), ctx) == owner + ("?" + one) && Missing(Pieces(using), ctx) == []
    ensures !TokensApart(Pieces(using))
  {
    assert AuthValue(ctx, token).Some? by {
      assert token[|TOKEN|..] == "uid";
    }
    assert HasPrefix(token, TOKEN);
    CopiesPlain(owner, token + one, ctx);
    CutToken(token, one, ctx);
    CopiesPlain(one, "", ctx);
    assert one + "" == one;
    TokenThenDigit(Pieces(owner), Pieces(token + one), token, Pieces(one), one);
  }

  /** A token right before the piece of a digit. */
  lemma TokenThenDigit(front: seq<Piece>, ps: seq<Piece>, token: string, back: seq<Piece>, one: string)
    requires ps == [Token(token)] + back && one == "1" && back == Pieces(one)
    ensures !TokensApart(front + ps)
  {
    assert Pieces(one)[0] == Char('1');
    var all := front + ps;
    assert all[|front|] == Token(token) && all[|front| + 1] == Char('1');
  }

  lemma LexNumbered(mark: string, one: string)
    requires one == "1" && mark == "?" + one
    ensures Sql.Lex(mark) == [Sql.Mark(one)]
  {
    assert mark[1..] == one;
    Sql.SpanUnique(Decimal.IsDigit, one, 1);
    Sql.FirstMark(mark, 1);
    Sql.LexStep(mark);
    assert mark[2..] == "" && mark[1..2] == one;
  }

  lemma LexThree(a: string, b: string, c: string)
    ensures Sql.Lex(a + " " + b + " " + c) == Sql.Lex(a) + Sql.Lex(b) + Sql.Lex(c)
  {
    LexSpaced(a, b);
    LexSpaced(a + " " + b, c);
  }

  lemma LexOwner(word: string, eq: string)
    requires word == "owner" && eq == "="
    ensures Sql.Lex(word) == [Sql.Word(word)] && Sql.Lex(eq) == [Sql.Operator(eq)]
  {
    Sql.LexWord(word);
    Sql.LexOperator(eq);
  }

  lemma OwnerBinds(word: Sql.Token, op: Sql.Token, one: string)
    requires word.Word? && op.Operator? && one == "1"
    ensures Sql.Positional([word, op] + [Sql.Mark(one)], 1) == [word, op, Sql.Param(1)]
    ensures Sql.Sqlite([word, op] + [Sql.Mark(one)], 1) == [word, op, Sql.Param(0)]
  {
    var mark := [Sql.Mark(one)];
    assert Decimal.ParseDigits(one) == 1 && Decimal.AllDigits(one);
    assert mark[1..] == [];
    assert ([op] + mark)[1..] == mark && ([word, op] + mark)[1..] == [op] + mark;
    assert Sql.Positional(mark, 1) == [Sql.Param(1)] && Sql.Sqlite(mark, 1) == [Sql.Param(0)];
  }

  lemma OwnerReads(text: string)
    requires text == "owner = ?1"
    ensures Sql.Positional(Sql.Lex(text), 1) == [Sql.Word("owner"), Sql.Operator("="), Sql.Param(1)]
    ensures Sql.Sqlite(Sql.Lex(text), 1) == [Sql.Word("owner"), Sql.Operator("="), Sql.Param(0)]
  {
    var word, eq, one := "owner", "=", "1";
    OwnerLexes(text, word, eq, one);
    OwnerBinds(Sql.Word(word), Sql.Operator(eq), one);
  }

  lemma OwnerSpelled(text: string, word: string, eq: string, one: string)
    requires text == "owner = ?1" && word == "owner" && eq == "=" && one == "1"
    ensures text == word + " " + eq + " " + ("?" + one)
  {
  }

  lemma OwnerLexes(text: string, word: string, eq: string, one: string)
    requires text == "owner = ?1" && word == "owner" && eq == "=" && one == "1"
    ensures Sql.Lex(text) == [Sql.Word(word), Sql.Operator(eq)] + [Sql.Mark(one)]
  {
    var mark := "?" + one;
    OwnerSpelled(text, word, eq, one);
    LexNumbered(mark, one);
    LexOwner(word, eq);
    LexThree(word, eq, mark);
    assert [Sql.Word(word)] + [Sql.Operator(eq)] == [Sql.Word(word), Sql.Operator(eq)];
  }

  lemma SpellOwner(using: string, owner: string, token: string, one: string, text: string)
    requires using == "owner = :auth_uid1" && owner == "owner = " && token == ":auth_uid" && one == "1"
             && text == "owner = ?1"
    ensures using == owner + (token + one) && text == owner + ("?" + one)
    ensures Unmarked(using) && ';' !in using
  {
  }

  lemma OwnerBound(using: string, text: string, ctx: AuthCtx)
    requires using == "owner = :auth_uid1" && text == "owner = ?1" && ctx.uid != ""
    ensures Unmarked(using) && !TokensApart(Pieces(using)) && BindUsing(using, ctx).Bound?
            && BindUsing(using, ctx).text == text
  {
    var owner, token, one := "owner = ", ":auth_uid", "1";
    SpellOwner(using, owner, token, one, text);
    OwnerText(using, owner, token, one, ctx);
  }

  lemma EmptyRequest(def: ProjectionDef, policy: PolicyDef, ctx: AuthCtx)
    requires policy.using != "" && BindUsing(policy.using, ctx).Bound?
    ensures PlanQuery(def, policy, map[], ctx).Ready?
  {
  }

  lemma UsingBound(def: ProjectionDef, policy: PolicyDef, request: Request, ctx: AuthCtx)
    requires PlanQuery(def, policy, request, ctx).Ready? && policy.using != ""
    ensures var p := PlanQuery(def, policy, request, ctx).plan;
            p.using == Some(BindUsing(policy.using, ctx)) && p.using.value.Bound? && p.Args()[0] == Text(ctx.tenant)
  {
  }

  /** Why a token must not touch a digit: the policy `owner = :auth_uid1` binds the text
      `owner = ?1`, which SQLite reads as the first argument, the tenant, where the caller's
      uid was meant; and Postgres reads yet another number. */
  lemma DigitAfterToken(def: ProjectionDef, policy: PolicyDef, request: Request, ctx: AuthCtx)
    requires ValidProjection(def) && policy.using == "owner = :auth_uid1" && ctx.uid != ""
    ensures PlanQuery(def, policy, map[], ctx).Ready?
    ensures PlanQuery(def, policy, request, ctx).Ready? ==>
              var p := PlanQuery(def, policy, request, ctx).plan; var q := p.Statement();
              && Sql.Numbered(Sql.Lex(Dialect.RewriteFrom(q, 1))) != Sql.Sqlite(Sql.Lex(q), 0)
              && p.using.Some? && p.using.value.Bound?
              && Sql.Positional(Sql.Lex(p.using.value.text), 1) == [Sql.Word("owner"), Sql.Operator("="), Sql.Param(1)]
              && Sql.Sqlite(Sql.Lex(p.using.value.text), 1) == [Sql.Word("owner"), Sql.Operator("="), Sql.Param(0)]
              && p.Args()[0] == Text(ctx.tenant)
  {
    var text := "owner = ?1";
    OwnerBound(policy.using, text, ctx);
    OwnerReads(text);
    EmptyRequest(def, policy, ctx);
    if PlanQuery(def, policy, request, ctx).Ready? {
      BothDialectsAgree(def, policy, request, ctx);
      UsingBound(def, policy, request, ctx);
    }
  }

  // ── the tenant test is a top-level conjunct ──────────────────────────────────

  function StepOf(t: Sql.Token): int { if t == Sql.LParen then 1 else if t == Sql.RParen then -1 else 0 }

  function Depth(ts: seq<Sql.Token>): int { if ts == [] then 0 else StepOf(ts[0]) + Depth(ts[1..]) }

  /** Starting d levels deep, the tokens never come back to the top level. */
  predicate StaysInside(ts: seq<Sql.Token>, d: int) { d >= 1 && (ts == [] || StaysInside(ts[1..], d + StepOf(ts[0]))) }

  /** Parentheses match up within the text. */
  predicate Balanced(ts: seq<Sql.Token>) { StaysInside(ts, 1) && Depth(ts) == 0 }

  /** The tokens outside all parentheses. */
  function TopLevel(ts: seq<Sql.Token>, d: int): seq<Sql.Token> {
    if ts == [] then []
    else (if d == 0 && StepOf(ts[0]) == 0 then [ts[0]] else []) + TopLevel(ts[1..], d + StepOf(ts[0]))
  }

  lemma {:induction false} DepthAppend(a: seq<Sql.Token>, b: seq<Sql.Token>)
    ensures Depth(a + b) == Depth(a) + Depth(b)
  {
    if a == [] {
      assert a + b == b;
    } else {
      assert (a + b)[0] == a[0] && (a + b)[1..] == a[1..] + b;
      DepthAppend(a[1..], b);
    }
  }

  lemma {:induction false} TopLevelAppend(a: seq<Sql.Token>, b: seq<Sql.Token>, d: int)
    ensures TopLevel(a + b, d) == TopLevel(a, d) + TopLevel(b, d + Depth(a))
    decreases |a|
  {
    if a == [] {
      assert a + b == b;
    } else {
      var t, rest := a[0], a[1..];
      assert a == [t] + rest && a + b == [t] + (rest + b);
      TopFirst(t, rest, d);
      TopFirst(t, rest + b, d);
      TopLevelAppend(rest, b, d + StepOf(t));
      assert d + StepOf(t) + Depth(rest) == d + Depth(a);
      Grouped(Shown(t, d), TopLevel(rest, d + StepOf(t)), TopLevel(b, d + Depth(a)));
    }
  }

  lemma Grouped(a: seq<Sql.Token>, b: seq<Sql.Token>, c: seq<Sql.Token>)
    ensures a + (b + c) == a + b + c
  {
  }

  function Shown(t: Sql.Token, d: int): seq<Sql.Token> { if d == 0 && StepOf(t) == 0 then [t] else [] }

  lemma TopFirst(t: Sql.Token, rest: seq<Sql.Token>, d: int)
    ensures TopLevel([t] + rest, d) == Shown(t, d) + TopLevel(rest, d + StepOf(t))
    ensures Depth([t] + rest) == StepOf(t) + Depth(rest)
  {
    assert ([t] + rest)[1..] == rest;
  }

  lemma {:induction false} InsideAppend(a: seq<Sql.Token>, b: seq<Sql.Token>, d: int)
    requires StaysInside(a, d) && StaysInside(b, d + Depth(a))
    ensures StaysInside(a + b, d)
  {
    if a == [] {
      assert a + b == b;
    } else {
      assert (a + b)[0] == a[0] && (a + b)[1..] == a[1..] + b;
      InsideAppend(a[1..], b, d + StepOf(a[0]));
    }
  }

  lemma OneToken(t: Sql.Token, d: int)
    ensures Depth([t]) == StepOf(t) && TopLevel([t], d) == if d == 0 && StepOf(t) == 0 then [t] else []
    ensures d >= 1 && d + StepOf(t) >= 1 ==> StaysInside([t], d)
  {
    assert [t][1..] == [];
  }

  lemma {:induction false} InsideIsHidden(ts: seq<Sql.Token>, d: int)
    requires StaysInside(ts, d)
    ensures TopLevel(ts, d) == []
  {
    if ts != [] {
      InsideIsHidden(ts[1..], d + StepOf(ts[0]));
    }
  }

  lemma {:induction false} FlatTokens(ts: seq<Sql.Token>, d: int)
    requires forall t :: t in ts ==> StepOf(t) == 0
    ensures Depth(ts) == 0 && (d >= 1 ==> StaysInside(ts, d)) && TopLevel(ts, 0) == ts
  {
    if ts != [] {
      assert ts[0] in ts;
      FlatTokens(ts[1..], d);
    }
  }

  lemma {:induction false} MarksFlat(n: nat)
    ensures forall t :: t in MarkTokens(n) ==> t == Sql.BARE || t == Sql.Comma
  {
    if n > 1 {
      MarksFlat(n - 1);
    }
  }

  lemma WrappedDepth(front: seq<Sql.Token>, inner: seq<Sql.Token>)
    requires (forall t :: t in front ==> StepOf(t) == 0) && Depth(inner) == 0
    ensures Depth(front) == 0 && Depth(front + [Sql.LParen]) == 1 && Depth(front + [Sql.LParen] + inner) == 1
    ensures Depth(front + [Sql.LParen] + inner + [Sql.RParen]) == 0
  {
    FlatTokens(front, 1);
    DepthAppend(front, [Sql.LParen]);
    DepthAppend(front + [Sql.LParen], inner);
    DepthAppend(front + [Sql.LParen] + inner, [Sql.RParen]);
    OneToken(Sql.LParen, 1);
    OneToken(Sql.RParen, 2);
  }

  lemma WrappedInside(front: seq<Sql.Token>, inner: seq<Sql.Token>, d: int)
    requires (forall t :: t in front ==> StepOf(t) == 0) && Depth(inner) == 0 && d >= 1 && StaysInside(inner, d + 1)
    ensures StaysInside(front + [Sql.LParen] + inner + [Sql.RParen], d)
  {
    FlatTokens(front, d);
    WrappedDepth(front, inner);
    OneToken(Sql.LParen, d);
    OneToken(Sql.RParen, d + 1);
    InsideAppend(front, [Sql.LParen], d);
    InsideAppend(front + [Sql.LParen], inner, d);
    InsideAppend(front + [Sql.LParen] + inner, [Sql.RParen], d);
  }

  lemma WrappedTop(front: seq<Sql.Token>, inner: seq<Sql.Token>)
    requires (forall t :: t in front ==> StepOf(t) == 0) && Depth(inner) == 0 && StaysInside(inner, 1)
    ensures TopLevel(front + [Sql.LParen] + inner + [Sql.RParen], 0) == front
  {
    var open := front + [Sql.LParen] + inner;
    OpenTop(front, inner);
    OneToken(Sql.RParen, 1);
    TopLevelAppend(open, [Sql.RParen], 0);
    assert front + [] == front;
  }

  lemma OpenTop(front: seq<Sql.Token>, inner: seq<Sql.Token>)
    requires (forall t :: t in front ==> StepOf(t) == 0) && Depth(inner) == 0 && StaysInside(inner, 1)
    ensures TopLevel(front + [Sql.LParen] + inner, 0) == front && Depth(front + [Sql.LParen] + inner) == 1
  {
    FlatTokens(front, 1);
    InsideIsHidden(inner, 1);
    OneToken(Sql.LParen, 0);
    ThreeTops(front, [Sql.LParen], inner);
    DepthAppend(front, [Sql.LParen]);
    DepthAppend(front + [Sql.LParen], inner);
    assert front + [] + [] == front;
  }

  lemma ThreeTops(a: seq<Sql.Token>, b: seq<Sql.Token>, c: seq<Sql.Token>)
    ensures TopLevel(a + b + c, 0) == TopLevel(a, 0) + TopLevel(b, Depth(a)) + TopLevel(c, Depth(a) + Depth(b))
  {
    DepthAppend(a, b);
    TopLevelAppend(a + b, c, 0);
    TopLevelAppend(a, b, 0);
  }

  lemma WrappedTokens(front: seq<Sql.Token>, inner: seq<Sql.Token>, d: int)
    requires (forall t :: t in front ==> StepOf(t) == 0) && StaysInside(inner, 1) && StaysInside(inner, d + 1)
             && Depth(inner) == 0 && d >= 0
    ensures var ts := front + [Sql.LParen] + inner + [Sql.RParen];
            Depth(ts) == 0 && (d >= 1 ==> StaysInside(ts, d)) && TopLevel(ts, 0) == front
  {
    WrappedDepth(front, inner);
    if d >= 1 {
      WrappedInside(front, inner, d);
    }
    WrappedTop(front, inner);
  }

  /** A printed filter is balanced, and shows no OR outside parentheses. */
  lemma {:induction false} FilterBalanced(f: Filter, d: int)
    requires Printable(f) && d >= 0
    ensures Depth(Tokens(f)) == 0 && (d >= 1 ==> StaysInside(Tokens(f), d)) && Sql.OR !in TopLevel(Tokens(f), 0)
    decreases f, 0
  {
    match f
    case Always => FlatAtom(f, d);
    case Never => FlatAtom(f, d);
    case NullTest(c, negated) => FlatAtom(f, d);
    case OneOf(c, values) => ListBalanced(f, d);
    case Compare(c, op, v) => FlatAtom(f, d);
    case Group(joiner, parts) =>
      AllBalanced(parts, joiner, 1);
      AllBalanced(parts, joiner, d + 1);
      WrappedTokens([], TokensAll(parts, joiner), d);
      assert [] + [Sql.LParen] == [Sql.LParen];
  }

  lemma ListBalanced(f: Filter, d: int)
    requires Printable(f) && f.OneOf? && d >= 0
    ensures Depth(Tokens(f)) == 0 && (d >= 1 ==> StaysInside(Tokens(f), d)) && Sql.OR !in TopLevel(Tokens(f), 0)
  {
    var marks := MarkTokens(|f.values|);
    NotAKeyword(f.column);
    MarksFlat(|f.values|);
    FlatTokens(marks, 1);
    FlatTokens(marks, d + 1);
    WrappedTokens([Sql.Word(f.column), Sql.Word("IN")], marks, d);
    assert [Sql.Word(f.column), Sql.Word("IN"), Sql.LParen] == [Sql.Word(f.column), Sql.Word("IN")] + [Sql.LParen];
  }

  lemma FlatAtom(f: Filter, d: int)
    requires Printable(f) && !f.OneOf? && !f.Group? && d >= 0
    ensures Depth(Tokens(f)) == 0 && (d >= 1 ==> StaysInside(Tokens(f), d)) && Sql.OR !in TopLevel(Tokens(f), 0)
  {
    match f
    case Always => FlatConstant(f, d);
    case Never => FlatConstant(f, d);
    case NullTest(c, negated) => FlatNullTest(c, negated, d);
    case Compare(c, op, v) => FlatCompare(c, op, v, d);
  }

  ghost predicate Flat(ts: seq<Sql.Token>, d: int) {
    Depth(ts) == 0 && (d >= 1 ==> StaysInside(ts, d)) && Sql.OR !in TopLevel(ts, 0)
  }

  lemma FlatConstant(f: Filter, d: int)
    requires f.Always? || f.Never?
    ensures Flat(Tokens(f), d)
  {
    FlatTokens(Tokens(f), d);
  }

  lemma FlatNullTest(c: string, negated: bool, d: int)
    requires IsIdentifier(c)
    ensures Flat(Tokens(NullTest(c, negated)), d)
  {
    FlatTokens(Tokens(NullTest(c, negated)), d);
    NotAKeyword(c);
  }

  lemma FlatCompare(c: string, op: string, v: Value, d: int)
    requires IsIdentifier(c)
    ensures Flat(Tokens(Compare(c, op, v)), d)
  {
    FlatTokens(Tokens(Compare(c, op, v)), d);
    NotAKeyword(c);
  }

  lemma NotAKeyword(c: string)
    requires IsIdentifier(c)
    ensures c != "OR"
  {
  }

  lemma JoinedBalanced(a: seq<Sql.Token>, joiner: Sql.Token, b: seq<Sql.Token>, d: int)
    requires Depth(a) == 0 && StaysInside(a, d) && Depth(b) == 0 && StaysInside(b, d) && StepOf(joiner) == 0 && d >= 1
    ensures Depth(a + [joiner] + b) == 0 && StaysInside(a + [joiner] + b, d)
  {
    OneToken(joiner, d);
    DepthAppend(a, [joiner]);
    DepthAppend(a + [joiner], b);
    InsideAppend(a, [joiner], d);
    InsideAppend(a + [joiner], b, d);
  }

  lemma {:induction false} AllBalanced(parts: seq<Filter>, joiner: string, d: int)
    requires AllPrintable(parts) && d >= 1
    ensures Depth(TokensAll(parts, joiner)) == 0 && StaysInside(TokensAll(parts, joiner), d)
    decreases parts, 1
  {
    if parts != [] {
      FilterBalanced(parts[0], d);
      if |parts| > 1 {
        AllBalanced(parts[1..], joiner, d);
        JoinedBalanced(Tokens(parts[0]), Sql.Word(joiner), TokensAll(parts[1..], joiner), d);
      }
    }
  }

  /** Whatever the client's tree, and whatever the policy's text as long as its parentheses
      match up: outside all parentheses the clause starts with `tenant = ?` and holds no OR,
      so it is a conjunction and the tenant test is one of its conjuncts. */
  lemma TenantStaysTopLevel(using: Option<string>, filter: Option<Filter>)
    requires filter.Some? ==> Printable(filter.value)
    requires using.Some? ==> Balanced(Sql.Lex(using.value))
    ensures var top := TopLevel(Sql.Lex(WhereText(using,
                                                  match filter case None => None case Some(f) => Some(Print(f)))), 0);
            && TenantTokens() <= top
            && Sql.OR !in top
  {
    LexWhere(using, filter);
    ClauseTop(using, filter);
  }

  lemma JoinedTop(t: seq<Sql.Token>, u: seq<Sql.Token>, f: seq<Sql.Token>, or: Sql.Token)
    requires TopLevel(t, 0) == t && Depth(t) == 0 && Depth(u) == 0
    requires or !in t && or !in TopLevel(u, 0) && or !in TopLevel(f, 0)
    ensures t <= TopLevel(t + u + f, 0) && or !in TopLevel(t + u + f, 0)
  {
    ThreeTops(t, u, f);
  }

  lemma ClauseTop(using: Option<string>, filter: Option<Filter>)
    requires filter.Some? ==> Printable(filter.value)
    requires using.Some? ==> Balanced(Sql.Lex(using.value))
    ensures TenantTokens() <= TopLevel(ClauseTokens(using, filter), 0)
            && Sql.OR !in TopLevel(ClauseTokens(using, filter), 0)
  {
    var t := TenantTokens();
    FlatTokens(t, 1);
    UsingTop(using);
    FilterTop(filter);
    JoinedTop(t, UsingTokens(using), FilterTokens(filter), Sql.OR);
  }

  lemma UsingTop(using: Option<string>)
    requires using.Some? ==> Balanced(Sql.Lex(using.value))
    ensures Depth(UsingTokens(using)) == 0 && Sql.OR !in TopLevel(UsingTokens(using), 0)
  {
    if using.Some? {
      var inner := Sql.Lex(using.value);
      WrappedTokens([Sql.AND], inner, 0);
      assert UsingTokens(using) == [Sql.AND] + [Sql.LParen] + inner + [Sql.RParen];
    }
  }

  lemma FilterTop(filter: Option<Filter>)
    requires filter.Some? ==> Printable(filter.value)
    ensures Sql.OR !in TopLevel(FilterTokens(filter), 0)
  {
    if filter.Some? {
      FilterBalanced(filter.value, 0);
      OneToken(Sql.AND, 0);
      TopLevelAppend([Sql.AND], Tokens(filter.value), 0);
    }
  }
}
