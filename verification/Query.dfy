/** Assembling a query statement (go/internal/readmodel/query.go, `ExecQuery`) and what it
    selects: the tenant's rows that the policy and the client's filter both let through. */
module Query {
  import opened Basics
  import opened JsonValues
  import opened Definitions
  import opened Sorting
  import opened Policy
  import opened Where
  import opened WhereMeaning
  import Binary64
  import Dialect
  import Sql
  import Strings = Text

  const DEFAULT_LIMIT := 1000
  const MAX_LIMIT := 10000

  type Request = map<string, Json>

  /** A request field, absent when it is missing or null. */
  function Field(request: Request, name: string): Option<Json> {
    if name in request && !request[name].Null? then Some(request[name]) else None
  }

  // ── the parts of a request ───────────────────────────────────────────────────

  function SelectNames(items: seq<Json>, cols: set<string>): Option<seq<string>> {
    if items == [] then Some([])
    else if !items[0].Str? || !IsIdentifier(items[0].s) || items[0].s !in cols then None
    else
      match SelectNames(items[1..], cols)
      case None => None
      case Some(names) => Some([items[0].s] + names)
  }

  /** The columns to select: those asked for, or all that are allowed, in order. */
  ghost function SelectList(request: Request, cols: set<string>): Option<seq<string>> {
    match Field(request, "select")
    case None => Some(Sorted(cols))
    case Some(raw) =>
      if !raw.Arr? then None
      else
        match SelectNames(raw.items, cols)
        case None => None
        case Some(names) => Some(if names == [] then Sorted(cols) else names)
  }

  predicate IsSort(s: string) { IsIdentifier(s) || (s != "" && s[0] == '-' && IsIdentifier(s[1..])) }

  function SortColumn(s: string): string { if HasPrefix(s, "-") then s[1..] else s }

  function SortTerm(s: string): string { if HasPrefix(s, "-") then s[1..] + " DESC" else s + " ASC" }

  function SortTerms(items: seq<Json>, cols: set<string>): Option<seq<string>> {
    if items == [] then Some([])
    else if !items[0].Str? || !IsSort(items[0].s) || SortColumn(items[0].s) !in cols then None
    else
      match SortTerms(items[1..], cols)
      case None => None
      case Some(terms) => Some([SortTerm(items[0].s)] + terms)
  }

  function OrderList(request: Request, cols: set<string>): Option<seq<string>> {
    match Field(request, "sort")
    case None => Some([])
    case Some(raw) => if raw.Arr? then SortTerms(raw.items, cols) else None
  }

  function NumberField(request: Request, name: string): Option<real> {
    if name in request && request[name].Num? then Some(request[name].d.Value()) else None
  }

  /** Never more than the cap; a missing, non-numeric or non-positive limit is the default. */
  function Limit(request: Request): (n: int)
    ensures 0 <= n <= MAX_LIMIT
  {
    var asked := match NumberField(request, "limit") case Some(f) => (if f > 0.0 then f.Floor else DEFAULT_LIMIT)
        case None => DEFAULT_LIMIT;
    if asked > MAX_LIMIT then MAX_LIMIT else asked
  }

  function Offset(request: Request): (n: int)
    ensures n >= 0
  {
    match NumberField(request, "offset") case Some(f) => (if f >= 0.0 then f.Floor else 0) case None => 0
  }

  // ── the statement ────────────────────────────────────────────────────────────

  /** `tenant = ?`, then the policy's fragment in parentheses, then the client's filter. */
  function WhereText(using: Option<string>, filter: Option<string>): string {
    "tenant = ?"
    + (match using case None => "" case Some(u) => " AND (" + u + ")")
    + (match filter case None => "" case Some(f) => " AND " + f)
  }

  function Head(select: seq<string>, table: string): string {
    "SELECT " + Strings.JoinComma(select) + " FROM " + table + " WHERE "
  }

  function Tail(order: seq<string>): string {
    (if order == [] then "" else " ORDER BY " + Strings.JoinComma(order)) + " LIMIT ? OFFSET ?"
  }

  /** A query before it is text. */
  datatype Plan = Plan(
    select: seq<string>, table: string, using: Option<Using>, filter: Option<Filter>, order: seq<string>,
    tenant: string, limit: int, offset: int)
  {
    function UsingText(): Option<string> {
      match using case None => None case Some(u) => if u.Bound? then Some(u.text) else None
    }

    function UsingArgs(): seq<Value> { match using case None => [] case Some(u) => if u.Bound? then u.args else [] }

    function FilterText(): Option<string> { match filter case None => None case Some(f) => Some(Print(f)) }

    function FilterArgs(): seq<Value> { match filter case None => [] case Some(f) => ArgsOf(f) }

    function Where(): string { WhereText(UsingText(), FilterText()) }

    function Statement(): string { Head(select, table) + Where() + Tail(order) }

    function Args(): seq<Value> {
      [Text(tenant)] + UsingArgs() + FilterArgs() + [Number(limit as real), Number(offset as real)]
    }
  }

  datatype Planned = Ready(plan: Plan) | Forbidden(token: string) | Refused

  /** The plan of a request, or the first thing wrong with it: the select list, then the
      policy, then the where tree, then the sort list. */
  ghost function PlanQuery(def: ProjectionDef, policy: PolicyDef, request: Request, ctx: AuthCtx): Planned {
    var cols := AllowedColumns(def, policy);
    match SelectList(request, cols)
    case None => Refused
    case Some(select) =>
      var using := if policy.using == "" then None else Some(BindUsing(policy.using, ctx));
      if using.Some? && using.value.NotAFragment? then Refused
      else if using.Some? && using.value.Denied? then Forbidden(using.value.token)
      else
        var where := match Field(request, "where") case None => None case Some(node) => Some(Build(node, cols));
        if where.Some? && where.value.Rejected? then Refused
        else
          match OrderList(request, cols)
          case None => Refused
          case Some(order) =>
            Ready(Plan(select, def.TableOf(), using, (match where case None => None case Some(w) => Some(w.filter)),
                       order,
                       ctx.tenant, Limit(request), Offset(request)))
  }

  // ── the code, loop by loop ───────────────────────────────────────────────────

  /** Names read so far, with the rest of the list after them. */
  function Then(names: seq<string>, rest: Option<seq<string>>): Option<seq<string>> {
    match rest case None => None case Some(more) => Some(names + more)
  }

  lemma ThenOne(names: seq<string>, name: string, rest: Option<seq<string>>)
    ensures Then(names, Then([name], rest)) == Then(names + [name], rest)
    ensures Then([], rest) == rest
  {
    if rest.Some? {
      assert names + ([name] + rest.value) == names + [name] + rest.value;
      assert [] + rest.value == rest.value;
    }
  }

  method ReadSelect(request: Request, cols: set<string>) returns (r: Option<seq<string>>)
    ensures r == SelectList(request, cols)
  {
    var names: seq<string> := [];
    if Field(request, "select").Some? {
      var raw := request["select"];
      if !raw.Arr? {
        return None;
      }
      assert raw.items[0..] == raw.items;
      ThenOne([], "", SelectNames(raw.items, cols));
      for i := 0 to |raw.items|
        invariant Then(names, SelectNames(raw.items[i..], cols)) == SelectNames(raw.items, cols)
      {
        assert raw.items[i..][0] == raw.items[i] && raw.items[i..][1..] == raw.items[i + 1..];
        var c := raw.items[i];
        if !c.Str? || !IsIdentifier(c.s) || c.s !in cols {
          return None;
        }
        ThenOne(names, c.s, SelectNames(raw.items[i + 1..], cols));
        names := names + [c.s];
      }
      assert raw.items[|raw.items|..] == [] && names + [] == names;
    }
    if |names| == 0 {
      names := SortKeys(cols);
    }
    return Some(names);
  }

  method ReadOrder(request: Request, cols: set<string>) returns (r: Option<seq<string>>)
    ensures r == OrderList(request, cols)
  {
    var terms: seq<string> := [];
    if Field(request, "sort").Some? {
      var raw := request["sort"];
      if !raw.Arr? {
        return None;
      }
      assert raw.items[0..] == raw.items;
      ThenOne([], "", SortTerms(raw.items, cols));
      for i := 0 to |raw.items|
        invariant Then(terms, SortTerms(raw.items[i..], cols)) == SortTerms(raw.items, cols)
      {
        assert raw.items[i..][0] == raw.items[i] && raw.items[i..][1..] == raw.items[i + 1..];
        var entry := raw.items[i];
        if !entry.Str? || !IsSort(entry.s) || SortColumn(entry.s) !in cols {
          return None;
        }
        ThenOne(terms, SortTerm(entry.s), SortTerms(raw.items[i + 1..], cols));
        terms := terms + [SortTerm(entry.s)];
      }
      assert raw.items[|raw.items|..] == [] && terms + [] == terms;
    }
    return Some(terms);
  }

  datatype Outcome = Query(text: string, args: seq<Value>) | Denial(token: string) | BadRequest

  ghost function UsingPart(policy: PolicyDef, ctx: AuthCtx): Option<Using> {
    if policy.using == "" then None else Some(BindUsing(policy.using, ctx))
  }

  ghost function FilterPart(request: Request, cols: set<string>): Option<Compiled> {
    match Field(request, "where") case None => None case Some(node) => Some(Build(node, cols))
  }

  /** The conjuncts in the order they are joined: tenant, policy, client filter. */
  method BuildWhere(policy: PolicyDef, request: Request, ctx: AuthCtx, cols: set<string>)
    returns (stop: Option<Outcome>, where: string, args: seq<Value>)
    ensures var u, w := UsingPart(policy, ctx), FilterPart(request, cols);
            if u.Some? && u.value.NotAFragment? then stop == Some(BadRequest)
            else if u.Some? && u.value.Denied? then stop == Some(Denial(u.value.token))
            else if w.Some? && w.value.Rejected? then stop == Some(BadRequest)
            else
              && stop == None
              && where == WhereText(if u.Some? then Some(u.value.text) else None,
                                    if w.Some? then Some(Print(w.value.filter)) else None)
              && args == [Text(ctx.tenant)] + (if u.Some? then u.value.args else [])
                 + (if w.Some? then ArgsOf(w.value.filter) else [])
  {
    stop, where, args := None, "tenant = ?", [Text(ctx.tenant)];
    if policy.using != "" {
      var using := CompileUsing(policy.using, ctx);
      match using {
        case NotAFragment => stop := Some(BadRequest); return;
        case Denied(token) => stop := Some(Denial(token)); return;
        case Bound(text, uArgs) =>
          where := where + (" AND (" + text + ")");
          args := args + uArgs;
      }
    }
    if Field(request, "where").Some? {
      var out := CompileWhere(request["where"], cols);
      match out {
        case Invalid => stop := Some(BadRequest); return;
        case Output(text, wArgs) =>
          where := where + (" AND " + text);
          args := args + wArgs;
      }
    }
  }

  /** `ExecQuery` up to the database call: the statement and arguments of the plan. */
  method BuildQuery(def: ProjectionDef, policy: PolicyDef, request: Request, ctx: AuthCtx) returns (r: Outcome)
    ensures r == match PlanQuery(def, policy, request, ctx)
                 case Ready(p) => Query(p.Statement(), p.Args())
                 case Forbidden(token) => Denial(token)
                 case Refused => BadRequest
  {
    var cols := ComputeAllowed(def, policy);
    var select := ReadSelect(request, cols);
    if select.None? {
      return BadRequest;
    }
    var stop, where, args := BuildWhere(policy, request, ctx, cols);
    if stop.Some? {
      return stop.value;
    }
    var order := ReadOrder(request, cols);
    if order.None? {
      return BadRequest;
    }
    return Query(Head(select.value, def.TableOf()) + where + Tail(order.value),
                 args + [Number(Limit(request) as real), Number(Offset(request) as real)]);
  }

  // ── what a clause means ──────────────────────────────────────────────────────

  function TenantTokens(): seq<Sql.Token> { [Sql.Word("tenant"), Sql.Operator("="), Sql.BARE] }

  lemma LexTenant()
    ensures Sql.Lex("tenant = ?") == TenantTokens()
  {
    var tenant, eq := "tenant", "=";
    SpellCompare(tenant, eq);
    LexTest(tenant, eq);
  }

  lemma LexTest(col: string, eq: string)
    requires IsIdentifier(col) && eq == "="
    ensures Sql.Lex(col + " " + eq + " ?") == [Sql.Word(col), Sql.Operator(eq), Sql.BARE]
  {
    LexCompare(col, eq, NullValue);
    assert Print(Compare(col, eq, NullValue)) == col + " " + eq + " ?";
  }

  lemma SpellCompare(tenant: string, eq: string)
    requires tenant == "tenant" && eq == "="
    ensures tenant + " " + eq + " ?" == "tenant = ?"
  {
  }

  /** The clause with its conjuncts: tenant, then policy, then filter. */
  function ClauseTokens(using: Option<string>, filter: Option<Filter>): seq<Sql.Token> {
    TenantTokens()
    + (match using case None => [] case Some(u) => [Sql.AND] + ([Sql.LParen] + Sql.Lex(u) + [Sql.RParen]))
    + (match filter case None => [] case Some(f) => [Sql.AND] + Tokens(f))
  }

  lemma LexAnd(a: string, joiner: string, b: string)
    requires joiner == "AND"
    ensures Sql.Lex(a + (" " + joiner + " " + b)) == Sql.Lex(a) + [Sql.Word(joiner)] + Sql.Lex(b)
  {
    LexJoined(a, joiner, b);
    Regroup(a, " ", joiner, b);
  }

  lemma Regroup(a: string, space: string, joiner: string, b: string)
    ensures a + (space + joiner + space + b) == a + space + joiner + space + b
  {
    var tail := space + joiner + space;
    assert a + space + joiner + space == a + tail;
    ThreeParts(a, tail, b);
  }

  lemma SpellAnd(joiner: string, b: string)
    requires joiner == "AND"
    ensures " " + joiner + " " + b == " AND " + b
    ensures " " + joiner + " " + ("(" + b + ")") == " AND (" + b + ")"
  {
  }

  lemma LexWhere(using: Option<string>, filter: Option<Filter>)
    requires filter.Some? ==> Printable(filter.value)
    ensures Sql.Lex(WhereText(using, match filter case None => None case Some(f) => Some(Print(f))))
            == ClauseTokens(using, filter)
  {
    var joiner := "AND";
    var tenant := "tenant = ?";
    var middle := match using case None => "" case Some(u) => " AND (" + u + ")";
    var middleTokens := match using case None => []
        case Some(u) => [Sql.AND] + ([Sql.LParen] + Sql.Lex(u) + [Sql.RParen]);
    LexTenant();
    if using.Some? {
      LexParens(using.value);
      LexAnd(tenant, joiner, "(" + using.value + ")");
      SpellAnd(joiner, using.value);
      Reassociate(Sql.Lex(tenant), [Sql.AND], [Sql.LParen] + Sql.Lex(using.value) + [Sql.RParen]);
    } else {
      EmptyEnd(tenant, Sql.Lex(tenant));
    }
    assert Sql.Lex(tenant + middle) == TenantTokens() + middleTokens;
    if filter.Some? {
      LexPrint(filter.value);
      LexAnd(tenant + middle, joiner, Print(filter.value));
      SpellAnd(joiner, Print(filter.value));
      Reassociate(TenantTokens() + middleTokens, [Sql.AND], Tokens(filter.value));
    } else {
      EmptyEnd(tenant + middle, TenantTokens() + middleTokens);
    }
  }

  lemma Reassociate(a: seq<Sql.Token>, b: seq<Sql.Token>, c: seq<Sql.Token>)
    ensures a + b + c == a + (b + c)
  {
  }

  lemma EmptyEnd(s: string, ts: seq<Sql.Token>)
    ensures s + "" == s && ts + [] == ts
  {
  }

  /** What the clause parses to, given what the policy's fragment parses to. */
  function ClauseExpr(policy: Option<Sql.Expr>, filter: Option<Filter>, base: nat): Sql.Expr {
    var tenant := Sql.Leaf(Sql.Atom.Compare("tenant", "=", 0));
    match filter
    case None => (match policy case None => tenant case Some(p) => Sql.And(tenant, p))
    case Some(f) =>
      var own := ToExpr(f, base);
      match policy case None => Sql.And(tenant, own) case Some(p) => Sql.And(tenant, Sql.And(p, own))
  }

  /** What the fragment's own placeholders, which follow the tenant's, parse to. */
  ghost predicate PolicyParses(using: Option<string>, policy: Option<Sql.Expr>) {
    match using
    case None => policy.None?
    case Some(u) => policy.Some? && Sql.ParseClause(Sql.Positional(Sql.Lex(u), 1)) == policy
  }

  function UsingMarks(using: Option<string>): nat { match using case None => 0 case Some(u) => Dialect.CountMarks(u) }

  lemma ParseParens(ts: seq<Sql.Token>, e: Sql.Expr, rest: seq<Sql.Token>)
    requires ts != [] && ts[0] == Sql.LParen && Sql.ParseExpr(ts[1..]) == Some(Sql.Parsed(e, [Sql.RParen] + rest))
    ensures Sql.ParseFactor(ts) == Some(Sql.Parsed(e, rest))
  {
    assert ([Sql.RParen] + rest)[1..] == rest;
  }

  lemma ParsePolicy(u: string, policy: Sql.Expr, rest: seq<Sql.Token>)
    requires Sql.ParseClause(Sql.Positional(Sql.Lex(u), 1)) == Some(policy)
    ensures Sql.ParseFactor([Sql.LParen] + Sql.Positional(Sql.Lex(u), 1) + [Sql.RParen] + rest)
            == Some(Sql.Parsed(policy, rest))
  {
    ParseWrapped(Sql.Positional(Sql.Lex(u), 1), policy, rest);
  }

  lemma ParseWrapped(inner: seq<Sql.Token>, e: Sql.Expr, rest: seq<Sql.Token>)
    requires Sql.ParseClause(inner) == Some(e)
    ensures Sql.ParseFactor([Sql.LParen] + inner + [Sql.RParen] + rest) == Some(Sql.Parsed(e, rest))
  {
    var close := [Sql.RParen] + rest;
    var ts := [Sql.LParen] + inner + [Sql.RParen] + rest;
    ClauseBefore(inner, e, close);
    Opened(inner, rest);
    ParseParens(ts, e, rest);
  }

  lemma Opened(inner: seq<Sql.Token>, rest: seq<Sql.Token>)
    ensures var ts := [Sql.LParen] + inner + [Sql.RParen] + rest;
            ts[0] == Sql.LParen && ts[1..] == inner + ([Sql.RParen] + rest)
  {
  }

  /** A clause parses the same before a closing parenthesis. */
  lemma ClauseBefore(inner: seq<Sql.Token>, e: Sql.Expr, close: seq<Sql.Token>)
    requires Sql.ParseClause(inner) == Some(e) && close != [] && close[0] == Sql.RParen
    ensures Sql.ParseExpr(inner + close) == Some(Sql.Parsed(e, close))
  {
    Sql.ExprStable(inner, close);
    assert [] + close == close;
  }

  lemma ParseTenant(rest: seq<Sql.Token>)
    ensures Sql.ParseFactor(Sql.Positional(TenantTokens(), 0) + rest)
            == Some(Sql.Parsed(Sql.Leaf(Sql.Atom.Compare("tenant", "=", 0)), rest))
  {
    ParseCompare("tenant", "=", NullValue, 0, rest);
  }

  function UsingTokens(using: Option<string>): seq<Sql.Token> {
    match using case None => [] case Some(u) => [Sql.AND] + ([Sql.LParen] + Sql.Lex(u) + [Sql.RParen])
  }

  function FilterTokens(filter: Option<Filter>): seq<Sql.Token> {
    match filter case None => [] case Some(f) => [Sql.AND] + Tokens(f)
  }

  function NumberedUsing(using: Option<string>): seq<Sql.Token> {
    match using
    case None => []
    case Some(u) => [Sql.AND] + ([Sql.LParen] + Sql.Positional(Sql.Lex(u), 1) + [Sql.RParen])
  }

  function NumberedFilter(filter: Option<Filter>, base: nat): seq<Sql.Token> {
    match filter case None => [] case Some(f) => [Sql.AND] + Sql.Positional(Tokens(f), base)
  }

  lemma NumberThree(t: seq<Sql.Token>, u: seq<Sql.Token>, f: seq<Sql.Token>, base: nat)
    ensures Sql.Positional(t + u + f, base)
            == Sql.Positional(t, base) + Sql.Positional(u, base + Sql.Marks(t))
                + Sql.Positional(f, base + Sql.Marks(t) + Sql.Marks(u))
    ensures Sql.Marks(t + u + f) == Sql.Marks(t) + Sql.Marks(u) + Sql.Marks(f)
  {
    Sql.PositionalAppend(t + u, f, base);
    Sql.PositionalAppend(t, u, base);
    Sql.MarksAppend(t, u);
    Sql.MarksAppend(t + u, f);
  }

  lemma TenantMarks()
    ensures Sql.Marks(TenantTokens()) == 1
  {
    var front := [Sql.Word("tenant"), Sql.Operator("=")];
    PositionalNoMarks(front, 0);
    Sql.MarksAppend(front, [Sql.BARE]);
    assert TenantTokens() == front + [Sql.BARE] && [Sql.BARE][1..] == [];
  }

  lemma NumberFilter(f: Filter, base: nat)
    ensures Sql.Positional([Sql.AND] + Tokens(f), base) == [Sql.AND] + Sql.Positional(Tokens(f), base)
  {
    PositionalNoMarks([Sql.AND], base);
    Sql.PositionalAppend([Sql.AND], Tokens(f), base);
  }

  lemma NumberParts(t: seq<Sql.Token>, u: seq<Sql.Token>, f: seq<Sql.Token>, marks: nat, us: seq<Sql.Token>,
                    fs: seq<Sql.Token>)
    requires Sql.Marks(t) == 1 && Sql.Marks(u) == marks
    requires Sql.Positional(u, 1) == us && Sql.Positional(f, 1 + marks) == fs
    ensures Sql.Positional(t + u + f, 0) == Sql.Positional(t, 0) + us + fs
  {
    NumberThree(t, u, f, 0);
  }

  lemma NumberClause(using: Option<string>, filter: Option<Filter>)
    ensures Sql.Positional(ClauseTokens(using, filter), 0)
            == Sql.Positional(TenantTokens(), 0) + NumberedUsing(using) + NumberedFilter(filter, 1 + UsingMarks(using))
  {
    TenantMarks();
    NumberOwnUsing(using);
    NumberOwnFilter(filter, 1 + UsingMarks(using));
    NumberParts(TenantTokens(), UsingTokens(using), FilterTokens(filter), UsingMarks(using),
                NumberedUsing(using), NumberedFilter(filter, 1 + UsingMarks(using)));
  }

  lemma NumberOwnFilter(filter: Option<Filter>, base: nat)
    ensures Sql.Positional(FilterTokens(filter), base) == NumberedFilter(filter, base)
  {
    if filter.Some? {
      NumberFilter(filter.value, base);
    }
  }

  lemma NumberOwnUsing(using: Option<string>)
    ensures Sql.Positional(UsingTokens(using), 1) == NumberedUsing(using)
    ensures Sql.Marks(UsingTokens(using)) == UsingMarks(using)
  {
    if using.Some? {
      NumberUsing(using.value);
    }
  }

  lemma NumberWrapped(front: seq<Sql.Token>, inner: seq<Sql.Token>, back: seq<Sql.Token>)
    requires forall t :: t in front || t in back ==> !t.Mark?
    ensures Sql.Positional(front + inner + back, 1) == front + Sql.Positional(inner, 1) + back
    ensures Sql.Marks(front + inner + back) == Sql.Marks(inner)
  {
    NumberThree(front, inner, back, 1);
    PositionalNoMarks(front, 1);
    PositionalNoMarks(back, 1 + Sql.Marks(inner));
  }

  lemma OpenGroup(and: Sql.Token, open: Sql.Token, inner: seq<Sql.Token>, back: seq<Sql.Token>)
    ensures [and] + ([open] + inner + back) == [and, open] + inner + back
  {
  }

  lemma NumberUsing(u: string)
    ensures Sql.Positional([Sql.AND] + ([Sql.LParen] + Sql.Lex(u) + [Sql.RParen]), 1)
            == [Sql.AND] + ([Sql.LParen] + Sql.Positional(Sql.Lex(u), 1) + [Sql.RParen])
    ensures Sql.Marks([Sql.AND] + ([Sql.LParen] + Sql.Lex(u) + [Sql.RParen])) == Dialect.CountMarks(u)
  {
    var inner := Sql.Lex(u);
    Dialect.LexMarks(u);
    NumberWrapped([Sql.AND, Sql.LParen], inner, [Sql.RParen]);
    OpenGroup(Sql.AND, Sql.LParen, inner, [Sql.RParen]);
    OpenGroup(Sql.AND, Sql.LParen, Sql.Positional(inner, 1), [Sql.RParen]);
  }

  /** Two factors joined, and three. */
  lemma ParseTwo(head: seq<Sql.Token>, h: Sql.Expr, own: seq<Sql.Token>, e: Sql.Expr)
    requires Sql.ParseFactor(head + ([Sql.AND] + own)) == Some(Sql.Parsed(h, [Sql.AND] + own))
    requires Sql.ParseTerm(own) == Some(Sql.Parsed(e, []))
    ensures Sql.ParseTerm(head + ([Sql.AND] + own)) == Some(Sql.Parsed(Sql.And(h, e), []))
    ensures Sql.ParseClause(head + ([Sql.AND] + own)) == Some(Sql.And(h, e))
  {
    AndFactor(head + ([Sql.AND] + own), h, own, e, []);
  }

  lemma ParseOwn(f: Filter, base: nat)
    requires Printable(f)
    ensures Sql.ParseTerm(Sql.Positional(Tokens(f), base)) == Some(Sql.Parsed(ToExpr(f, base), []))
  {
    var own := Sql.Positional(Tokens(f), base);
    ParseFilter(f, base, []);
    assert own + [] == own;
    LoneFactor(own, ToExpr(f, base), []);
  }

  function PolicyGroup(u: string): seq<Sql.Token> { [Sql.LParen] + Sql.Positional(Sql.Lex(u), 1) + [Sql.RParen] }

  lemma ParseGroup(u: string, policy: Sql.Expr)
    requires Sql.ParseClause(Sql.Positional(Sql.Lex(u), 1)) == Some(policy)
    ensures Sql.ParseTerm(PolicyGroup(u)) == Some(Sql.Parsed(policy, []))
  {
    ParsePolicy(u, policy, []);
    assert PolicyGroup(u) + [] == PolicyGroup(u);
    LoneFactor(PolicyGroup(u), policy, []);
  }

  lemma Glue(a: seq<Sql.Token>, b: seq<Sql.Token>, c: seq<Sql.Token>)
    ensures a + ([Sql.AND] + b) + ([Sql.AND] + c) == a + ([Sql.AND] + (b + ([Sql.AND] + c)))
    ensures a + [] + ([Sql.AND] + c) == a + ([Sql.AND] + c) && a + ([Sql.AND] + b) + [] == a + ([Sql.AND] + b)
    ensures a + [] + [] == a
  {
  }

  /** The clause parses as tenant AND policy AND filter, in that order, whatever the tree. */
  lemma ParseWhere(using: Option<string>, policy: Option<Sql.Expr>, filter: Option<Filter>)
    requires PolicyParses(using, policy) && (filter.Some? ==> Printable(filter.value))
    ensures Sql.ParseClause(Sql.Positional(ClauseTokens(using, filter), 0))
            == Some(ClauseExpr(policy, filter, 1 + UsingMarks(using)))
  {
    var base := 1 + UsingMarks(using);
    var tenant := Sql.Leaf(Sql.Atom.Compare("tenant", "=", 0));
    var head := Sql.Positional(TenantTokens(), 0);
    var group := if using.Some? then PolicyGroup(using.value) else [];
    var own := if filter.Some? then Sql.Positional(Tokens(filter.value), base) else [];
    NumberClause(using, filter);
    Glue(head, group, own);
    if filter.Some? {
      ParseOwn(filter.value, base);
    }
    if using.Some? && filter.Some? {
      ParsePolicy(using.value, policy.value, [Sql.AND] + own);
      ParseTwo(group, policy.value, own, ToExpr(filter.value, base));
      ParseTenant([Sql.AND] + (group + ([Sql.AND] + own)));
      ParseTwo(head, tenant, group + ([Sql.AND] + own), Sql.And(policy.value, ToExpr(filter.value, base)));
    } else if filter.Some? {
      ParseTenant([Sql.AND] + own);
      ParseTwo(head, tenant, own, ToExpr(filter.value, base));
    } else if using.Some? {
      ParseGroup(using.value, policy.value);
      ParseTenant([Sql.AND] + group);
      ParseTwo(head, tenant, group, policy.value);
    } else {
      ParseTenant([]);
      assert head + [] == head;
      LoneFactor(head, tenant, []);
    }
  }
}
