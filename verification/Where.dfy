/** Compiling a client's where tree to SQL text and arguments
    (go/internal/readmodel/query.go, `compileWhere`, `compileGroup`, `normalize`). */
module Where {
  import opened Basics
  import opened JsonValues
  import opened Sorting
  import Definitions
  import Projector
  import Sql

  /** What a where tree comes down to, before it is printed. */
  datatype Filter =
    | Always
    | Never
    | NullTest(column: string, negated: bool)
    | OneOf(column: string, values: seq<Value>)
    | Compare(column: string, op: string, value: Value)
    | Group(joiner: string, parts: seq<Filter>)

  datatype Compiled = Compiled(filter: Filter) | Rejected

  /** Booleans bind as 0 and 1. */
  function Normalize(v: Json): Value { Projector.Stored(v) }

  const OPS := map["gt" := ">", "gte" := ">=", "lt" := "<", "lte" := "<=", "like" := "LIKE"]

  // ── the tree ─────────────────────────────────────────────────────────────────

  datatype Clause = Clause(filter: Filter) | Ignored | BadClause

  function NormalizeAll(items: seq<Json>): (r: seq<Value>)
    ensures |r| == |items|
  {
    if items == [] then [] else [Normalize(items[0])] + NormalizeAll(items[1..])
  }

  /** One operator on one column. A null operand is ignored except by `eq` and `ne`, and
      so it is before the operator is even looked up. */
  function BuildOp(col: string, op: string, value: Json): Clause {
    if value.Null? && op != "eq" && op != "ne" then Ignored
    else if op == "in" then
      if !value.Arr? then BadClause
      else if value.items == [] then Clause(Never)
      else Clause(OneOf(col, NormalizeAll(value.items)))
    else if op == "eq" then Clause(if value.Null? then NullTest(col, false) else Compare(col, "=", Normalize(value)))
    else if op == "ne" then Clause(if value.Null? then NullTest(col, true) else Compare(col, "!=", Normalize(value)))
    else if op in OPS then Clause(Compare(col, OPS[op], Normalize(value)))
    else BadClause
  }

  function BuildOps(col: string, m: map<string, Json>, keys: seq<string>): Option<seq<Filter>>
    requires forall k :: k in keys ==> k in m
  {
    if keys == [] then Some([])
    else
      match BuildOp(col, keys[0], m[keys[0]])
      case BadClause => None
      case Ignored => BuildOps(col, m, keys[1..])
      case Clause(f) =>
        match BuildOps(col, m, keys[1..])
        case None => None
        case Some(fs) => Some([f] + fs)
  }

  ghost function BuildColumns(m: map<string, Json>, keys: seq<string>, cols: set<string>): Option<seq<Filter>>
    requires forall k :: k in keys ==> k in m
  {
    if keys == [] then Some([])
    else if keys[0] !in cols || !m[keys[0]].Obj? then None
    else
      match BuildOps(keys[0], m[keys[0]].fields, Sorted(m[keys[0]].fields.Keys))
      case None => None
      case Some(fs) =>
        match BuildColumns(m, keys[1..], cols)
        case None => None
        case Some(gs) => Some(fs + gs)
  }

  /** `and` wins over `or`, and either wins over column filters beside it. */
  ghost function Build(node: Json, cols: set<string>): Compiled
    decreases node, 0
  {
    if !node.Obj? then Compiled(Always)
    else if "and" in node.fields then BuildGroup(node.fields["and"], cols, "AND", Always)
    else if "or" in node.fields then BuildGroup(node.fields["or"], cols, "OR", Never)
    else
      match BuildColumns(node.fields, Sorted(node.fields.Keys), cols)
      case None => Rejected
      case Some(fs) => Compiled(if fs == [] then Always else Group("AND", fs))
  }

  ghost function BuildGroup(raw: Json, cols: set<string>, joiner: string, empty: Filter): Compiled
    decreases raw, 2
  {
    if !raw.Arr? then Rejected
    else if raw.items == [] then Compiled(empty)
    else
      match BuildEach(raw.items, cols)
      case None => Rejected
      case Some(fs) => Compiled(Group(joiner, fs))
  }

  ghost function BuildEach(items: seq<Json>, cols: set<string>): (r: Option<seq<Filter>>)
    ensures r.Some? ==> |r.value| == |items|
    decreases items, 1
  {
    if items == [] then Some([])
    else
      match Build(items[0], cols)
      case Rejected => None
      case Compiled(f) =>
        match BuildEach(items[1..], cols)
        case None => None
        case Some(fs) => Some([f] + fs)
  }

  // ── printing ─────────────────────────────────────────────────────────────────

  function Placeholders(n: nat): string {
    if n == 0 then "" else if n == 1 then "?" else "?, " + Placeholders(n - 1)
  }

  function Print(f: Filter): string
    decreases f, 0
  {
    match f
    case Always => "1=1"
    case Never => "1=0"
    case NullTest(c, negated) => if negated then c + " IS NOT NULL" else c + " IS NULL"
    case OneOf(c, values) => c + " IN (" + Placeholders(|values|) + ")"
    case Compare(c, op, _) => c + " " + op + " ?"
    case Group(joiner, parts) => "(" + PrintAll(parts, joiner) + ")"
  }

  function PrintAll(parts: seq<Filter>, joiner: string): string
    decreases parts, 1
  {
    if parts == [] then ""
    else if |parts| == 1 then Print(parts[0])
    else Print(parts[0]) + " " + joiner + " " + PrintAll(parts[1..], joiner)
  }

  function ArgsOf(f: Filter): seq<Value>
    decreases f, 0
  {
    match f
    case Always => []
    case Never => []
    case NullTest(_, _) => []
    case OneOf(_, values) => values
    case Compare(_, _, v) => [v]
    case Group(_, parts) => ArgsOfAll(parts)
  }

  function ArgsOfAll(parts: seq<Filter>): seq<Value>
    decreases parts, 1
  {
    if parts == [] then [] else ArgsOf(parts[0]) + ArgsOfAll(parts[1..])
  }

  // ── the compiler, with its loops ─────────────────────────────────────────────

  datatype Output = Output(text: string, args: seq<Value>) | Invalid

  /** The text and arguments of a list of clauses, grown one at a time. */
  datatype Clauses = Clauses(texts: seq<string>, args: seq<Value>)

  function Texts(fs: seq<Filter>): (r: seq<string>)
    ensures |r| == |fs|
  {
    if fs == [] then [] else [Print(fs[0])] + Texts(fs[1..])
  }

  function JoinWith(parts: seq<string>, joiner: string): string {
    if parts == [] then ""
    else if |parts| == 1 then parts[0] else parts[0] + " " + joiner + " " + JoinWith(parts[1..], joiner)
  }

  lemma {:induction false} JoinTexts(fs: seq<Filter>, joiner: string)
    ensures JoinWith(Texts(fs), joiner) == PrintAll(fs, joiner)
  {
    if |fs| > 1 {
      JoinTexts(fs[1..], joiner);
      assert Texts(fs)[1..] == Texts(fs[1..]);
    }
  }

  lemma {:induction false} TextsAppend(a: seq<Filter>, b: seq<Filter>)
    ensures Texts(a + b) == Texts(a) + Texts(b) && ArgsOfAll(a + b) == ArgsOfAll(a) + ArgsOfAll(b)
    decreases |a|
  {
    if a == [] {
      assert a + b == b;
    } else {
      var f, rest := a[0], a[1..];
      assert a == [f] + rest && a + b == [f] + (rest + b);
      TextsFirst(f, rest);
      TextsFirst(f, rest + b);
      TextsAppend(rest, b);
    }
  }

  lemma TextsFirst(f: Filter, rest: seq<Filter>)
    ensures Texts([f] + rest) == [Print(f)] + Texts(rest) && ArgsOfAll([f] + rest) == ArgsOf(f) + ArgsOfAll(rest)
  {
    assert ([f] + rest)[1..] == rest;
  }

  /** `acc` with the clauses of `fs` after it. */
  function After(acc: Clauses, fs: Option<seq<Filter>>): Option<Clauses> {
    match fs
    case None => None
    case Some(fs) => Some(Clauses(acc.texts + Texts(fs), acc.args + ArgsOfAll(fs)))
  }

  lemma AfterOne(acc: Clauses, f: Filter, rest: seq<Filter>)
    ensures After(acc, Some([f] + rest)) == After(Clauses(acc.texts + [Print(f)], acc.args + ArgsOf(f)), Some(rest))
  {
    assert ([f] + rest)[1..] == rest;
    assert acc.texts + ([Print(f)] + Texts(rest)) == acc.texts + [Print(f)] + Texts(rest);
    assert acc.args + (ArgsOf(f) + ArgsOfAll(rest)) == acc.args + ArgsOf(f) + ArgsOfAll(rest);
  }

  lemma AfterMany(acc: Clauses, fs: seq<Filter>, rest: seq<Filter>)
    ensures After(acc, Some(fs + rest)) == After(After(acc, Some(fs)).value, Some(rest))
  {
    TextsAppend(fs, rest);
    assert acc.texts + (Texts(fs) + Texts(rest)) == acc.texts + Texts(fs) + Texts(rest);
    assert acc.args + (ArgsOfAll(fs) + ArgsOfAll(rest)) == acc.args + ArgsOfAll(fs) + ArgsOfAll(rest);
  }

  lemma AfterNone(acc: Clauses)
    ensures After(acc, Some([])) == Some(acc)
  {
    assert acc.texts + [] == acc.texts && acc.args + [] == acc.args;
  }

  method PlaceholderList(n: nat) returns (s: string)
    requires n > 0
    ensures s == Placeholders(n)
  {
    s := "?";
    for i := 1 to n
      invariant s == Placeholders(i)
    {
      s := "?, " + s;
    }
  }

  /** One clause: nothing, a clause with its arguments, or a refusal. */
  method CompileOp(col: string, op: string, value: Json) returns (r: Option<Clauses>)
    ensures r == match BuildOp(col, op, value)
                 case BadClause => None
                 case Ignored => Some(Clauses([], []))
                 case Clause(f) => Some(Clauses([Print(f)], ArgsOf(f)))
  {
    if value.Null? && op != "eq" && op != "ne" {
      return Some(Clauses([], []));
    }
    if op == "in" {
      if !value.Arr? {
        return None;
      }
      if value.items == [] {
        return Some(Clauses(["1=0"], []));
      }
      var ph := PlaceholderList(|value.items|);
      return Some(Clauses([col + " IN (" + ph + ")"], NormalizeAll(value.items)));
    } else if op == "eq" {
      return Some(if value.Null? then Clauses([col + " IS NULL"], [])
                  else Clauses([col + " " + "=" + " ?"], [Normalize(value)]));
    } else if op == "ne" {
      return Some(if value.Null? then Clauses([col + " IS NOT NULL"], [])
                  else Clauses([col + " " + "!=" + " ?"], [Normalize(value)]));
    } else if op in OPS {
      return Some(Clauses([col + " " + OPS[op] + " ?"], [Normalize(value)]));
    } else {
      return None;
    }
  }

  lemma OpsStep(col: string, m: map<string, Json>, keys: seq<string>, i: nat, acc: Clauses)
    requires i < |keys| && forall k :: k in keys ==> k in m
    ensures After(acc, BuildOps(col, m, keys[i..]))
            == match BuildOp(col, keys[i], m[keys[i]])
               case BadClause => None
               case Ignored => After(acc, BuildOps(col, m, keys[i + 1..]))
               case Clause(f) => After(Clauses(acc.texts + [Print(f)], acc.args + ArgsOf(f)),
                                       BuildOps(col, m, keys[i + 1..]))
  {
    assert keys[i..][0] == keys[i] && keys[i..][1..] == keys[i + 1..];
    var c, rest := BuildOp(col, keys[i], m[keys[i]]), BuildOps(col, m, keys[i + 1..]);
    if c.Clause? && rest.Some? {
      AfterOne(acc, c.filter, rest.value);
    }
  }

  method CompileOps(col: string, m: map<string, Json>, start: Clauses) returns (r: Option<Clauses>)
    ensures r == After(start, BuildOps(col, m, Sorted(m.Keys)))
  {
    var keys := SortKeys(m.Keys);
    var acc := start;
    for i := 0 to |keys|
      invariant After(acc, BuildOps(col, m, keys[i..])) == After(start, BuildOps(col, m, keys))
    {
      assert keys[i] in keys;
      OpsStep(col, m, keys, i, acc);
      var c := CompileOp(col, keys[i], m[keys[i]]);
      if c.None? {
        return None;
      }
      AfterNone(acc);
      acc := Clauses(acc.texts + c.value.texts, acc.args + c.value.args);
    }
    AfterNone(acc);
    return Some(acc);
  }

  lemma ColumnsStep(m: map<string, Json>, keys: seq<string>, cols: set<string>, i: nat, acc: Clauses)
    requires i < |keys| && forall k :: k in keys ==> k in m
    ensures After(acc, BuildColumns(m, keys[i..], cols))
            == if keys[i] !in cols || !m[keys[i]].Obj? then None
               else
                 match After(acc, BuildOps(keys[i], m[keys[i]].fields, Sorted(m[keys[i]].fields.Keys)))
                 case None => None
                 case Some(next) => After(next, BuildColumns(m, keys[i + 1..], cols))
  {
    assert keys[i..][0] == keys[i] && keys[i..][1..] == keys[i + 1..];
    if keys[i] in cols && m[keys[i]].Obj? {
      var fs := BuildOps(keys[i], m[keys[i]].fields, Sorted(m[keys[i]].fields.Keys));
      var rest := BuildColumns(m, keys[i + 1..], cols);
      if fs.Some? && rest.Some? {
        AfterMany(acc, fs.value, rest.value);
      }
    }
  }

  const NOTHING := Clauses([], [])

  /** The leaf: every column of the node, every operator of the column. */
  method CompileColumns(m: map<string, Json>, cols: set<string>) returns (r: Option<Clauses>)
    ensures r == After(NOTHING, BuildColumns(m, Sorted(m.Keys), cols))
  {
    var keys := SortKeys(m.Keys);
    var acc := NOTHING;
    for i := 0 to |keys|
      invariant After(acc, BuildColumns(m, keys[i..], cols)) == After(NOTHING, BuildColumns(m, keys, cols))
    {
      assert keys[i] in keys;
      ColumnsStep(m, keys, cols, i, acc);
      if keys[i] !in cols || !m[keys[i]].Obj? {
        return None;
      }
      var c := CompileOps(keys[i], m[keys[i]].fields, acc);
      if c.None? {
        return None;
      }
      acc := c.value;
    }
    AfterNone(acc);
    return Some(acc);
  }

  /** A leaf's clauses joined and parenthesised, or the neutral clause when there are none. */
  method CompileLeaf(m: map<string, Json>, cols: set<string>) returns (r: Output)
    ensures r == match BuildColumns(m, Sorted(m.Keys), cols)
                 case None => Invalid
                 case Some(fs) =>
                   if fs == [] then Output("1=1", [])
                   else Output(Print(Group("AND", fs)), ArgsOf(Group("AND", fs)))
  {
    var c := CompileColumns(m, cols);
    if c.None? {
      return Invalid;
    }
    ghost var fs := BuildColumns(m, Sorted(m.Keys), cols).value;
    if c.value.texts == [] {
      assert fs == [];
      return Output("1=1", []);
    }
    assert c.value.texts == Texts(fs) && c.value.args == ArgsOfAll(fs);
    JoinTexts(fs, "AND");
    return Output("(" + JoinWith(c.value.texts, "AND") + ")", c.value.args);
  }

  /** The compiler prints what it builds and passes that filter's operands, in order. */
  method CompileWhere(node: Json, cols: set<string>) returns (r: Output)
    ensures r == match Build(node, cols) case Rejected => Invalid case Compiled(f) => Output(Print(f), ArgsOf(f))
    decreases node, 0
  {
    if !node.Obj? {
      return Output("1=1", []);
    }
    if "and" in node.fields {
      r := CompileGroup(node.fields["and"], cols, "AND", Always);
    } else if "or" in node.fields {
      r := CompileGroup(node.fields["or"], cols, "OR", Never);
    } else {
      r := CompileLeaf(node.fields, cols);
    }
  }

  method CompileGroup(raw: Json, cols: set<string>, joiner: string, empty: Filter) returns (r: Output)
    requires empty.Always? || empty.Never?
    ensures r == match BuildGroup(raw, cols, joiner, empty) case Rejected => Invalid
            case Compiled(f) => Output(Print(f), ArgsOf(f))
    decreases raw, 1
  {
    if !raw.Arr? {
      return Invalid;
    }
    if raw.items == [] {
      return Output(Print(empty), []);
    }
    var acc := NOTHING;
    for i := 0 to |raw.items|
      invariant After(acc, BuildEach(raw.items[i..], cols)) == After(NOTHING, BuildEach(raw.items, cols))
    {
      EachStep(raw.items, cols, i, acc);
      var c := CompileWhere(raw.items[i], cols);
      if c.Invalid? {
        return Invalid;
      }
      acc := Clauses(acc.texts + [c.text], acc.args + c.args);
    }
    AfterNone(acc);
    GroupOutput(raw, cols, joiner, empty, acc);
    return Output("(" + JoinWith(acc.texts, joiner) + ")", acc.args);
  }

  /** The collected clauses, joined in parentheses, are the printed group. */
  lemma GroupOutput(raw: Json, cols: set<string>, joiner: string, empty: Filter, acc: Clauses)
    requires raw.Arr? && raw.items != [] && Some(acc) == After(NOTHING, BuildEach(raw.items, cols))
    ensures BuildGroup(raw, cols, joiner, empty).Compiled?
    ensures var f := BuildGroup(raw, cols, joiner, empty).filter;
            Output("(" + JoinWith(acc.texts, joiner) + ")", acc.args) == Output(Print(f), ArgsOf(f))
  {
    var fs := BuildEach(raw.items, cols).value;
    FromNothing(fs);
    JoinTexts(fs, joiner);
  }

  lemma FromNothing(fs: seq<Filter>)
    ensures After(NOTHING, Some(fs)) == Some(Clauses(Texts(fs), ArgsOfAll(fs)))
  {
    assert [] + Texts(fs) == Texts(fs) && [] + ArgsOfAll(fs) == ArgsOfAll(fs);
  }

  lemma EachStep(items: seq<Json>, cols: set<string>, i: nat, acc: Clauses)
    requires i < |items|
    ensures After(acc, BuildEach(items[i..], cols))
            == match Build(items[i], cols)
               case Rejected => None
               case Compiled(f) => After(Clauses(acc.texts + [Print(f)], acc.args + ArgsOf(f)),
                                         BuildEach(items[i + 1..], cols))
  {
    assert items[i..][0] == items[i] && items[i..][1..] == items[i + 1..];
    var c, rest := Build(items[i], cols), BuildEach(items[i + 1..], cols);
    if c.Compiled? && rest.Some? {
      AfterOne(acc, c.filter, rest.value);
    }
  }
}
