/** The Python authoring layer (clients/python/foldbase/schema.py): column types are inferred
    from the event models, and what a typed client may emit is what the models admit. */
module Authoring {
  import opened Basics
  import opened JsonValues
  import opened Definitions
  import opened Projector
  import opened Paths
  import opened Text
  import Binary64

  // ── annotations ──────────────────────────────────────────────────────────────

  /** A field annotation. `Union` is `typing.Union` and so `Optional`; `Pipe` is `X | Y`,
      which the layer does not look into. */
  datatype Ty =
    | NoneType | BoolType | IntType | FloatType | StrType | EnumType | LiteralType | ListType | DictType
    | Union(args: seq<Ty>)
    | Pipe(args: seq<Ty>)
    | Model(fields: map<string, Ty>)

  function NotNone(args: seq<Ty>): seq<Ty> {
    if args == [] then [] else (if args[0].NoneType? then [] else [args[0]]) + NotNone(args[1..])
  }

  /** `_unwrap_optional` */
  function Unwrap(t: Ty): Ty { if t.Union? && |NotNone(t.args)| == 1 then NotNone(t.args)[0] else t }

  /** `_col_type_of` */
  function ColTypeOf(t: Ty): string {
    match Unwrap(t)
    case BoolType => "boolean"
    case IntType => "integer"
    case FloatType => "real"
    case _ => "text"
  }

  datatype Inferred = Column(t: string) | AuthorError

  /** `_col_type_from_path`: the first step must be a field, a nested path folds to text. */
  function ColTypeFromPath(fields: map<string, Ty>, path: string): Inferred {
    var parts := Segments(path);
    if parts[0] !in fields then AuthorError
    else if |parts| != 1 then Column("text")
    else Column(ColTypeOf(fields[parts[0]]))
  }

  /** The annotation at the end of a path, seen through optional models. */
  function LeafType(t: Ty, parts: seq<string>): Option<Ty>
    decreases |parts|
  {
    if parts == [] then Some(t)
    else
      var m := Unwrap(t);
      if m.Model? && parts[0] in m.fields then LeafType(m.fields[parts[0]], parts[1..]) else None
  }

  function NumberColumn(leaf: Option<Ty>): Inferred {
    if leaf.Some? && (ColTypeOf(leaf.value) == "integer" || ColTypeOf(leaf.value) == "real") then
      Column(ColTypeOf(leaf.value))
    else AuthorError
  }

  function IncColTypeFromPath(fields: map<string, Ty>, path: string): Inferred {
    NumberColumn(LeafType(Model(fields), Segments(path)))
  }

  /** `_inc_col_type_from_path`: the walk as the layer does it. */
  method IncColType(fields: map<string, Ty>, path: string) returns (r: Inferred)
    ensures r == IncColTypeFromPath(fields, path)
  {
    var parts := Segments(path);
    var annotation := Model(fields);
    for i := 0 to |parts|
      invariant LeafType(Model(fields), parts) == LeafType(annotation, parts[i..])
    {
      var m := Unwrap(annotation);
      if !m.Model? || parts[i] !in m.fields {
        return AuthorError;
      }
      annotation := m.fields[parts[i]];
      assert parts[i..][1..] == parts[i + 1..];
    }
    var col := ColTypeOf(annotation);
    return if col == "integer" || col == "real" then Column(col) else AuthorError;
  }

  // ── what a model admits ──────────────────────────────────────────────────────

  /** The JSON that a validated value of this type dumps to. Every field of a model is
      dumped, given or defaulted. */
  predicate Admits(t: Ty, j: Json)
    decreases t
  {
    match t
    case NoneType => j.Null?
    case BoolType => j.Bool?
    case IntType => j.Num?
    case FloatType => j.Num?
    case StrType => j.Str?
    case EnumType => true
    case LiteralType => true
    case ListType => j.Arr?
    case DictType => j.Obj?
    case Union(args) => exists i :: 0 <= i < |args| && Admits(args[i], j)
    case Pipe(args) => exists i :: 0 <= i < |args| && Admits(args[i], j)
    case Model(fields) => j.Obj? && forall f :: f in fields ==> f in j.fields && Admits(fields[f], j.fields[f])
  }

  /** As `typing` builds them: a union has at least two members, no two alike. */
  predicate WellFormed(t: Ty)
    decreases t
  {
    match t
    case Union(args) => |args| >= 2 && (forall i, j :: 0 <= i < j < |args| ==> args[i] != args[j])
        && forall i :: 0 <= i < |args| ==> WellFormed(args[i])
    case Pipe(args) => |args| >= 2 && forall i :: 0 <= i < |args| ==> WellFormed(args[i])
    case Model(fields) => forall f :: f in fields ==> WellFormed(fields[f])
    case _ => true
  }

  /** No field before the last on the path is optional. */
  predicate Direct(t: Ty, parts: seq<string>)
    decreases |parts|
  {
    parts == [] || (t.Model? && parts[0] in t.fields && Direct(t.fields[parts[0]], parts[1..]))
  }

  // ── an inferred inc path always resolves ─────────────────────────────────────

  lemma {:induction false} NotNoneMembers(args: seq<Ty>, t: Ty)
    ensures t in NotNone(args) <==> t in args && !t.NoneType?
  {
    if args != [] {
      NotNoneMembers(args[1..], t);
      assert args == [args[0]] + args[1..];
    }
  }

  /** A numeric leaf holds a number or, when it is optional, null. */
  lemma NumericLeaf(t: Ty, j: Json)
    requires NumberColumn(Some(t)).Column? && Admits(t, j)
    ensures j.Null? || j.Num?
  {
    if t.Union? {
      var i :| 0 <= i < |t.args| && Admits(t.args[i], j);
      var only := NotNone(t.args);
      NotNoneMembers(t.args, t.args[i]);
      if t.args[i] in only {
        assert t.args[i] == only[0];
      }
    }
  }

  lemma {:induction false} DirectPathsResolve(t: Ty, j: Json, parts: seq<string>)
    requires Admits(t, j) && LeafType(t, parts).Some? && Direct(t, parts)
    ensures Lookup(j, parts).Some? && Admits(LeafType(t, parts).value, Lookup(j, parts).value)
    decreases |parts|
  {
    if parts != [] {
      DirectPathsResolve(t.fields[parts[0]], j.fields[parts[0]], parts[1..]);
    }
  }

  // ── and only then: an optional step can be null ──────────────────────────────

  /** Some JSON a well-formed type admits. */
  function Sample(t: Ty): Json
    requires WellFormed(t)
    decreases t
  {
    match t
    case NoneType => Null
    case BoolType => Bool(false)
    case IntType => Num(Binary64.Fin(0.0))
    case FloatType => Num(Binary64.Fin(0.0))
    case StrType => Str("")
    case EnumType => Null
    case LiteralType => Null
    case ListType => Arr([])
    case DictType => Obj(map[])
    case Union(args) => Sample(args[0])
    case Pipe(args) => Sample(args[0])
    case Model(fields) => Obj(map f | f in fields :: Sample(fields[f]))
  }

  lemma {:induction false} SampleAdmitted(t: Ty)
    requires WellFormed(t)
    ensures Admits(t, Sample(t))
    decreases t
  {
    match t
    case Union(args) => SampleAdmitted(args[0]);
    case Pipe(args) => SampleAdmitted(args[0]);
    case Model(fields) =>
      forall f | f in fields ensures Admits(fields[f], Sample(fields[f])) {
        SampleAdmitted(fields[f]);
      }
    case _ =>
  }

  /** A union with one member besides None has None. */
  lemma OptionalAdmitsNull(t: Ty)
    requires t.Union? && WellFormed(t) && |NotNone(t.args)| == 1
    ensures Admits(t, Null)
  {
    var only := NotNone(t.args);
    NotNoneMembers(t.args, t.args[0]);
    NotNoneMembers(t.args, t.args[1]);
    assert only == [only[0]];
    assert t.args[0].NoneType? || t.args[1].NoneType?;
    if t.args[0].NoneType? {
      assert Admits(t.args[0], Null);
    } else {
      assert Admits(t.args[1], Null);
    }
  }

  /** Null at the first optional step, anything admissible elsewhere. */
  function NullOnTheWay(t: Ty, parts: seq<string>): Json
    requires WellFormed(t)
    decreases |parts|
  {
    if parts == [] || !t.Model? || parts[0] !in t.fields then Null
    else
      Obj(map f | f in t.fields :: if f == parts[0] then NullOnTheWay(t.fields[f], parts[1..]) else Sample(t.fields[f]))
  }

  lemma {:induction false} NullBlocks(t: Ty, parts: seq<string>)
    requires WellFormed(t) && LeafType(t, parts).Some? && !Direct(t, parts)
    ensures Admits(t, NullOnTheWay(t, parts)) && Lookup(NullOnTheWay(t, parts), parts).None?
    decreases |parts|
  {
    if t.Model? {
      var j := NullOnTheWay(t, parts);
      NullBlocks(t.fields[parts[0]], parts[1..]);
      forall f | f in t.fields ensures Admits(t.fields[f], j.fields[f]) {
        SampleAdmitted(t.fields[f]);
      }
    } else {
      OptionalAdmitsNull(t);
    }
  }

  predicate Conforms(fields: map<string, Ty>, payload: Payload) { Admits(Model(fields), Obj(payload)) }

  /** For a path the layer infers an `inc` column from: no payload the model admits makes the
      fold fail on it, if and only if no field before the last is optional. */
  lemma IncPathSafeIff(fields: map<string, Ty>, path: string)
    requires WellFormed(Model(fields)) && HasPrefix(path, "$.") && IncColTypeFromPath(fields, path).Column?
    ensures (forall payload :: Conforms(fields, payload) ==> ResolveInc(payload, Str(path)).Some?)
            <==> Direct(Model(fields), Segments(path))
  {
    var parts := Segments(path);
    var t := Model(fields);
    if Direct(t, parts) {
      forall payload | Conforms(fields, payload) ensures ResolveInc(payload, Str(path)).Some? {
        InferredIncResolves(fields, path, payload);
      }
    } else {
      NullBlocks(t, parts);
      var payload := NullOnTheWay(t, parts).fields;
      assert Obj(payload) == NullOnTheWay(t, parts);
      assert Conforms(fields, payload) && ResolveInc(payload, Str(path)).None?;
    }
  }

  lemma InferredIncResolves(fields: map<string, Ty>, path: string, payload: Payload)
    requires HasPrefix(path, "$.") && IncColTypeFromPath(fields, path).Column? && Direct(Model(fields), Segments(path))
    requires Conforms(fields, payload)
    ensures ResolveInc(payload, Str(path)).Some?
  {
    var parts := Segments(path);
    DirectPathsResolve(Model(fields), Obj(payload), parts);
    NumericLeaf(LeafType(Model(fields), parts).value, Lookup(Obj(payload), parts).value);
  }

  // ── define_projection ────────────────────────────────────────────────────────

  /** What feeds a column: a captured path, or a literal. */
  datatype Feed =
    | FromPath(path: string)
    | FromBool(b: bool)
    | FromInt(n: int)
    | FromFloat(x: real)
    | FromText(s: string)
    | FromNone

  /** A built rule; `evt` is the event type its builder was taken from. */
  datatype RawRule = RawRule(op: string, evt: string, key: string, sets: seq<(string, Feed)>, incs: seq<(string, Feed)>)

  type Catalog = map<string, map<string, Ty>>

  function ColTypeFromLiteral(v: Feed): string {
    match v
    case FromBool(_) => "boolean"
    case FromInt(_) => "integer"
    case FromFloat(_) => "real"
    case _ => "text"
  }

  function SetType(catalog: Catalog, evt: string, v: Feed): Inferred {
    if v.FromPath? then (if evt in catalog then ColTypeFromPath(catalog[evt], v.path) else AuthorError)
    else Column(ColTypeFromLiteral(v))
  }

  function IncType(catalog: Catalog, evt: string, v: Feed): Inferred {
    if v.FromPath? then (if evt in catalog then IncColTypeFromPath(catalog[evt], v.path) else AuthorError)
    else Column(ColTypeFromLiteral(v))
  }

  /** A column and the type one feed of it would give it. */
  datatype Claim = Claim(col: string, inferred: Inferred)

  function SetClaims(catalog: Catalog, evt: string, sets: seq<(string, Feed)>): seq<Claim> {
    if sets == [] then []
    else
      var n := |sets| - 1;
      SetClaims(catalog, evt, sets[..n]) + [Claim(sets[n].0, SetType(catalog, evt, sets[n].1))]
  }

  function IncClaims(catalog: Catalog, evt: string, incs: seq<(string, Feed)>): seq<Claim> {
    if incs == [] then []
    else
      var n := |incs| - 1;
      IncClaims(catalog, evt, incs[..n]) + [Claim(incs[n].0, IncType(catalog, evt, incs[n].1))]
  }

  function RuleClaims(catalog: Catalog, r: RawRule): seq<Claim> {
    if r.op == "delete" then [] else SetClaims(catalog, r.evt, r.sets) + IncClaims(catalog, r.evt, r.incs)
  }

  function Claims(catalog: Catalog, rules: seq<(string, RawRule)>): seq<Claim> {
    if rules == [] then [] else Claims(catalog, rules[..|rules| - 1]) + RuleClaims(catalog, rules[|rules| - 1].1)
  }

  type Columns = map<string, string>

  /** `_infer` for one claim, unless the column is declared. */
  function Infer(fixed: Columns, cols: Columns, c: Claim): Option<Columns> {
    if c.col in fixed then Some(cols)
    else if c.inferred.AuthorError? then None
    else if c.col in cols && cols[c.col] != c.inferred.t then None
    else Some(cols[c.col := c.inferred.t])
  }

  function InferFrom(fixed: Columns, start: Option<Columns>, claims: seq<Claim>): Option<Columns> {
    if claims == [] then start
    else match InferFrom(fixed, start, claims[..|claims| - 1]) case None => None
        case Some(cols) => Infer(fixed, cols, claims[|claims| - 1])
  }

  function InferAll(fixed: Columns, claims: seq<Claim>): Option<Columns> { InferFrom(fixed, Some(fixed), claims) }

  /** Every open feed has a type and any two of one column agree. */
  ghost predicate Agree(fixed: Columns, claims: seq<Claim>) {
    && (forall c :: c in claims && c.col !in fixed ==> c.inferred.Column?)
    && forall c, d :: c in claims && d in claims && c.col == d.col && c.col !in fixed ==> c.inferred == d.inferred
  }

  /** The columns are the declared ones and one for each open feed, of its type. */
  ghost predicate Typed(fixed: Columns, claims: seq<Claim>, cols: Columns) {
    && (forall col :: col in fixed ==> col in cols && cols[col] == fixed[col])
    && (forall c :: c in claims && c.col !in fixed ==> c.col in cols && Column(cols[c.col]) == c.inferred)
    && forall col :: col in cols ==> col in fixed || exists c :: c in claims && c.col == col
  }

  /** Inference succeeds exactly when all feeds of each column agree. */
  lemma {:induction false} InferenceIff(fixed: Columns, claims: seq<Claim>)
    ensures InferAll(fixed, claims).Some? <==> Agree(fixed, claims)
    ensures InferAll(fixed, claims).Some? ==> Typed(fixed, claims, InferAll(fixed, claims).value)
  {
    if claims != [] {
      var before := claims[..|claims| - 1];
      var c := claims[|claims| - 1];
      assert claims == before + [c];
      InferenceIff(fixed, before);
      if InferAll(fixed, before).Some? {
        InferenceStep(fixed, before, c, InferAll(fixed, before).value);
      }
    }
  }

  lemma InferenceStep(fixed: Columns, before: seq<Claim>, c: Claim, cols: Columns)
    requires Agree(fixed, before) && Typed(fixed, before, cols)
    ensures Infer(fixed, cols, c).Some? <==> Agree(fixed, before + [c])
    ensures Infer(fixed, cols, c).Some? ==> Typed(fixed, before + [c], Infer(fixed, cols, c).value)
  {
    var after := before + [c];
    assert c in after && forall d :: d in before ==> d in after;
    if c.col !in fixed && c.col in cols && c.inferred.Column? && cols[c.col] != c.inferred.t {
      var d :| d in before && d.col == c.col;
      assert d in after && d.inferred != c.inferred;
    }
  }

  /** Whatever order the feeds come in, the verdict and the columns are the same. */
  lemma ClaimOrderIrrelevant(fixed: Columns, a: seq<Claim>, b: seq<Claim>)
    requires forall c :: c in a <==> c in b
    ensures InferAll(fixed, a) == InferAll(fixed, b)
  {
    InferenceIff(fixed, a);
    InferenceIff(fixed, b);
    if InferAll(fixed, a).Some? {
      var x, y := InferAll(fixed, a).value, InferAll(fixed, b).value;
      SameColumns(fixed, a, b, x, y);
      SameColumns(fixed, b, a, y, x);
      assert x == y;
    }
  }

  lemma SameColumns(fixed: Columns, a: seq<Claim>, b: seq<Claim>, x: Columns, y: Columns)
    requires Typed(fixed, a, x) && Typed(fixed, b, y) && forall c :: c in a <==> c in b
    ensures forall col :: col in x ==> col in y && x[col] == y[col]
  {
    forall col | col in x ensures col in y && x[col] == y[col] {
      if col !in fixed {
        var c :| c in a && c.col == col;
      }
    }
  }

  // ── compiling the definition ─────────────────────────────────────────────────

  function WireValue(v: Feed): Json {
    match v
    case FromPath(path) => Str(path)
    case FromBool(b) => Bool(b)
    case FromInt(n) => Num(Binary64.Fin(n as real))
    case FromFloat(x) => Num(Binary64.Fin(x))
    case FromText(s) => Str(s)
    case FromNone => Null
  }

  function WireMap(feeds: seq<(string, Feed)>): map<string, Json> {
    if feeds == [] then map[]
    else WireMap(feeds[..|feeds| - 1])[feeds[|feeds| - 1].0 := WireValue(feeds[|feeds| - 1].1)]
  }

  function WireRule(r: RawRule): OpRule {
    if r.op == "delete" then OpRule("delete", r.key, map[], map[])
    else OpRule("upsert", r.key, WireMap(r.sets), WireMap(r.incs))
  }

  function WireOn(rules: seq<(string, RawRule)>): map<string, OpRule> {
    if rules == [] then map[] else WireOn(rules[..|rules| - 1])[rules[|rules| - 1].0 := WireRule(rules[|rules| - 1].1)]
  }

  function Define(name: string, catalog: Catalog, rules: seq<(string, RawRule)>, fixed: Columns,
                  table: string): Option<ProjectionDef> {
    match InferAll(fixed, Claims(catalog, rules))
    case None => None
    case Some(cols) => Some(ProjectionDef(name, table, cols, WireOn(rules)))
  }

  /** The rules come as a dictionary: one per event type. */
  predicate OnePerEvent(rules: seq<(string, RawRule)>) {
    forall i, j :: 0 <= i < j < |rules| ==> rules[i].0 != rules[j].0
  }

  lemma {:induction false} ClaimMembers(catalog: Catalog, rules: seq<(string, RawRule)>, claim: Claim)
    ensures claim in Claims(catalog, rules) <==> exists r :: r in rules && claim in RuleClaims(catalog, r.1)
  {
    if rules != [] {
      var before, last := rules[..|rules| - 1], rules[|rules| - 1];
      ClaimMembers(catalog, before, claim);
      assert rules == before + [last];
    }
  }

  lemma {:induction false} WireOnLookup(rules: seq<(string, RawRule)>, evt: string)
    requires OnePerEvent(rules)
    ensures evt in WireOn(rules) <==> exists r :: r in rules && r.0 == evt
    ensures forall r :: r in rules && r.0 == evt ==> WireOn(rules)[evt] == WireRule(r.1)
    decreases |rules|
  {
    if rules != [] {
      var before, last := rules[..|rules| - 1], rules[|rules| - 1];
      LastRule(rules);
      WireOnLookup(before, evt);
    }
  }

  lemma LastRule(rules: seq<(string, RawRule)>)
    requires OnePerEvent(rules) && rules != []
    ensures var before, last := rules[..|rules| - 1], rules[|rules| - 1];
            && OnePerEvent(before) && (forall r :: r in rules <==> r in before || r == last)
            && forall r :: r in before ==> r.0 != last.0
  {
    var before, last := rules[..|rules| - 1], rules[|rules| - 1];
    assert rules == before + [last];
    forall r | r in before ensures r.0 != last.0 {
      var i :| 0 <= i < |before| && before[i] == r;
      assert rules[i] == r;
    }
  }

  lemma WireOrderIrrelevant(a: seq<(string, RawRule)>, b: seq<(string, RawRule)>)
    requires OnePerEvent(a) && OnePerEvent(b) && forall r :: r in a <==> r in b
    ensures WireOn(a) == WireOn(b)
  {
    forall evt: string
      ensures (evt in WireOn(a) <==> evt in WireOn(b)) && (evt in WireOn(a) ==> WireOn(a)[evt] == WireOn(b)[evt])
    {
      WireOnLookup(a, evt);
      WireOnLookup(b, evt);
      if evt in WireOn(a) {
        var r :| r in a && r.0 == evt;
      }
    }
    SameMaps(WireOn(a), WireOn(b));
  }

  lemma SameMaps(a: map<string, OpRule>, b: map<string, OpRule>)
    requires forall k: string :: (k in a <==> k in b) && (k in a ==> a[k] == b[k])
    ensures a == b
  {
    assert forall k :: k in a.Keys <==> k in b.Keys;
  }

  /** The same rules in any order define the same projection, or are refused alike. */
  lemma InferenceOrderIrrelevant(name: string, catalog: Catalog, a: seq<(string, RawRule)>, b: seq<(string, RawRule)>,
                                 fixed: Columns, table: string)
    requires OnePerEvent(a) && OnePerEvent(b) && forall r :: r in a <==> r in b
    ensures Define(name, catalog, a, fixed, table) == Define(name, catalog, b, fixed, table)
  {
    forall claim ensures claim in Claims(catalog, a) <==> claim in Claims(catalog, b) {
      ClaimMembers(catalog, a, claim);
      ClaimMembers(catalog, b, claim);
    }
    ClaimOrderIrrelevant(fixed, Claims(catalog, a), Claims(catalog, b));
    WireOrderIrrelevant(a, b);
  }

  lemma {:induction false} InferFromNone(fixed: Columns, claims: seq<Claim>)
    ensures InferFrom(fixed, None, claims) == None
  {
    if claims != [] {
      InferFromNone(fixed, claims[..|claims| - 1]);
    }
  }

  lemma {:induction false} InferFromAppend(fixed: Columns, start: Option<Columns>, a: seq<Claim>, b: seq<Claim>)
    ensures InferFrom(fixed, start, a + b) == InferFrom(fixed, InferFrom(fixed, start, a), b)
  {
    if b == [] {
      assert a + b == a;
    } else {
      var n := |b| - 1;
      assert (a + b)[..|a| + n] == a + b[..n] && (a + b)[|a| + n] == b[n];
      InferFromAppend(fixed, start, a, b[..n]);
    }
  }

  function FeedClaims(catalog: Catalog, evt: string, feeds: seq<(string, Feed)>, counters: bool): seq<Claim> {
    if counters then IncClaims(catalog, evt, feeds) else SetClaims(catalog, evt, feeds)
  }

  function FeedClaim(catalog: Catalog, evt: string, feed: (string, Feed), counters: bool): Claim {
    Claim(feed.0, if counters then IncType(catalog, evt, feed.1) else SetType(catalog, evt, feed.1))
  }

  /** The state of one inner loop after its first feeds. */
  function FedBy(catalog: Catalog, fixed: Columns, cols: Columns, evt: string, feeds: seq<(string, Feed)>,
                 counters: bool): Option<Columns> {
    InferFrom(fixed, Some(cols), FeedClaims(catalog, evt, feeds, counters))
  }

  lemma FedByStep(catalog: Catalog, fixed: Columns, cols: Columns, evt: string, feeds: seq<(string, Feed)>,
                  counters: bool, i: nat)
    requires i < |feeds|
    ensures WireMap(feeds[..i + 1]) == WireMap(feeds[..i])[feeds[i].0 := WireValue(feeds[i].1)]
    ensures FedBy(catalog, fixed, cols, evt, feeds[..i + 1], counters)
            == match FedBy(catalog, fixed, cols, evt, feeds[..i], counters)
               case None => None
               case Some(held) => Infer(fixed, held, FeedClaim(catalog, evt, feeds[i], counters))
  {
    assert feeds[..i + 1][..i] == feeds[..i];
    var now, claim := FeedClaims(catalog, evt, feeds[..i], counters), FeedClaim(catalog, evt, feeds[i], counters);
    assert FeedClaims(catalog, evt, feeds[..i + 1], counters) == now + [claim];
    assert (now + [claim])[..|now|] == now;
  }

  /** Once a feed is refused the rule is, whatever follows. */
  lemma {:induction false} FeedRefused(catalog: Catalog, fixed: Columns, cols: Columns, evt: string,
                                       feeds: seq<(string, Feed)>, counters: bool, i: nat)
    requires i <= |feeds| && FedBy(catalog, fixed, cols, evt, feeds[..i], counters).None?
    ensures FedBy(catalog, fixed, cols, evt, feeds, counters).None?
    decreases |feeds| - i
  {
    if i < |feeds| {
      FedByStep(catalog, fixed, cols, evt, feeds, counters, i);
      FeedRefused(catalog, fixed, cols, evt, feeds, counters, i + 1);
    } else {
      assert feeds[..i] == feeds;
    }
  }

  /** One of the two inner loops: wire values collected, column types inferred. */
  method Feeds(catalog: Catalog, fixed: Columns, cols: Columns, evt: string, feeds: seq<(string, Feed)>, counters: bool)
    returns (r: Option<Columns>, wire: map<string, Json>)
    ensures r == FedBy(catalog, fixed, cols, evt, feeds, counters) && (r.Some? ==> wire == WireMap(feeds))
  {
    wire := map[];
    var held := cols;
    for i := 0 to |feeds|
      invariant Some(held) == FedBy(catalog, fixed, cols, evt, feeds[..i], counters)
      invariant wire == WireMap(feeds[..i])
    {
      FedByStep(catalog, fixed, cols, evt, feeds, counters, i);
      wire := wire[feeds[i].0 := WireValue(feeds[i].1)];
      var next := Infer(fixed, held, FeedClaim(catalog, evt, feeds[i], counters));
      if next.None? {
        FeedRefused(catalog, fixed, cols, evt, feeds, counters, i + 1);
        return None, wire;
      }
      held := next.value;
    }
    assert feeds[..|feeds|] == feeds;
    return Some(held), wire;
  }

  /** One rule of the outer loop. */
  method OneRule(catalog: Catalog, fixed: Columns, cols: Columns, raw: RawRule)
    returns (r: Option<Columns>, wire: OpRule)
    ensures r == InferFrom(fixed, Some(cols), RuleClaims(catalog, raw)) && (r.Some? ==> wire == WireRule(raw))
  {
    if raw.op == "delete" {
      return Some(cols), OpRule("delete", raw.key, map[], map[]);
    }
    var wset, winc := map[], map[];
    InferFromAppend(fixed, Some(cols), SetClaims(catalog, raw.evt, raw.sets), IncClaims(catalog, raw.evt, raw.incs));
    r, wset := Feeds(catalog, fixed, cols, raw.evt, raw.sets, false);
    if r.Some? {
      r, winc := Feeds(catalog, fixed, r.value, raw.evt, raw.incs, true);
    } else {
      InferFromNone(fixed, IncClaims(catalog, raw.evt, raw.incs));
    }
    wire := OpRule("upsert", raw.key, wset, winc);
  }

  lemma RulesStep(fixed: Columns, catalog: Catalog, rules: seq<(string, RawRule)>, i: nat)
    requires i < |rules|
    ensures WireOn(rules[..i + 1]) == WireOn(rules[..i])[rules[i].0 := WireRule(rules[i].1)]
    ensures InferAll(fixed, Claims(catalog, rules[..i + 1]))
            == InferFrom(fixed, InferAll(fixed, Claims(catalog, rules[..i])), RuleClaims(catalog, rules[i].1))
  {
    assert rules[..i + 1][..i] == rules[..i];
    InferFromAppend(fixed, Some(fixed), Claims(catalog, rules[..i]), RuleClaims(catalog, rules[i].1));
  }

  lemma {:induction false} RulesRefused(fixed: Columns, catalog: Catalog, rules: seq<(string, RawRule)>, i: nat)
    requires i <= |rules| && InferAll(fixed, Claims(catalog, rules[..i])).None?
    ensures InferAll(fixed, Claims(catalog, rules)).None?
    decreases |rules| - i
  {
    if i < |rules| {
      RulesStep(fixed, catalog, rules, i);
      InferFromNone(fixed, RuleClaims(catalog, rules[i].1));
      RulesRefused(fixed, catalog, rules, i + 1);
    } else {
      assert rules[..i] == rules;
    }
  }

  /** `define_projection`: one pass over the rules, refused at the first disagreement. */
  method DefineProjection(name: string, catalog: Catalog, rules: seq<(string, RawRule)>, fixed: Columns, table: string)
    returns (def: Option<ProjectionDef>)
    ensures def == Define(name, catalog, rules, fixed, table)
  {
    var cols := fixed;
    var wireOn: map<string, OpRule> := map[];
    for i := 0 to |rules|
      invariant InferAll(fixed, Claims(catalog, rules[..i])) == Some(cols)
      invariant wireOn == WireOn(rules[..i])
    {
      RulesStep(fixed, catalog, rules, i);
      var next, wire := OneRule(catalog, fixed, cols, rules[i].1);
      if next.None? {
        RulesRefused(fixed, catalog, rules, i + 1);
        return None;
      }
      cols := next.value;
      wireOn := wireOn[rules[i].0 := wire];
    }
    assert rules[..|rules|] == rules;
    return Some(ProjectionDef(name, table, cols, wireOn));
  }

  // ── from the model to the fold ───────────────────────────────────────────────

  /** Counters that are numbers, or direct paths; on a column declared by hand the layer does
      not look at the path, so it must name a number there. */
  predicate SafeCounters(fixed: Columns, fields: map<string, Ty>, incs: seq<(string, Feed)>) {
    forall x :: x in incs ==>
      match x.1
      case FromPath(path) =>
        && HasPrefix(path, "$.") && Direct(Model(fields), Segments(path))
        && (x.0 in fixed ==> IncColTypeFromPath(fields, path).Column?)
      case FromInt(_) => true
      case FromFloat(_) => true
      case _ => false
  }

  lemma {:induction false} WireMapMembers(feeds: seq<(string, Feed)>, c: string)
    requires c in WireMap(feeds)
    ensures exists v :: (c, v) in feeds && WireMap(feeds)[c] == WireValue(v)
  {
    var n := |feeds| - 1;
    if c == feeds[n].0 {
      assert (c, feeds[n].1) in feeds;
    } else {
      WireMapMembers(feeds[..n], c);
      var v :| (c, v) in feeds[..n] && WireMap(feeds[..n])[c] == WireValue(v);
      assert (c, v) in feeds;
    }
  }

  lemma {:induction false} WireOnMember(rules: seq<(string, RawRule)>, evt: string)
    requires evt in WireOn(rules)
    ensures exists i :: 0 <= i < |rules| && rules[i].0 == evt && WireOn(rules)[evt] == WireRule(rules[i].1)
  {
    var n := |rules| - 1;
    if rules[n].0 != evt {
      WireOnMember(rules[..n], evt);
      var i :| 0 <= i < n && rules[..n][i].0 == evt && WireOn(rules[..n])[evt] == WireRule(rules[..n][i].1);
      assert rules[i].0 == evt;
    }
  }

  lemma {:induction false} IncClaimIn(catalog: Catalog, evt: string, incs: seq<(string, Feed)>, c: string, v: Feed)
    requires (c, v) in incs
    ensures Claim(c, IncType(catalog, evt, v)) in IncClaims(catalog, evt, incs)
  {
    var n := |incs| - 1;
    if incs[n] != (c, v) {
      assert (c, v) in incs[..n];
      IncClaimIn(catalog, evt, incs[..n], c, v);
    }
  }

  lemma {:induction false} RuleClaimIn(catalog: Catalog, rules: seq<(string, RawRule)>, i: nat, claim: Claim)
    requires i < |rules| && claim in RuleClaims(catalog, rules[i].1)
    ensures claim in Claims(catalog, rules)
    decreases |rules|
  {
    var n := |rules| - 1;
    if i < n {
      assert rules[..n][i] == rules[i];
      RuleClaimIn(catalog, rules[..n], i, claim);
    }
  }

  /** One counter of a defined projection resolves on every payload its model admits. */
  lemma CounterResolves(catalog: Catalog, rules: seq<(string, RawRule)>, fixed: Columns, i: nat, c: string,
                        payload: Payload)
    requires InferAll(fixed, Claims(catalog, rules)).Some?
    requires i < |rules| && rules[i].1.op != "delete" && rules[i].1.evt in catalog
    requires SafeCounters(fixed, catalog[rules[i].1.evt], rules[i].1.incs) && Conforms(catalog[rules[i].1.evt], payload)
    requires c in WireMap(rules[i].1.incs)
    ensures ResolveInc(payload, WireMap(rules[i].1.incs)[c]).Some?
  {
    var raw := rules[i].1;
    WireMapMembers(raw.incs, c);
    var v :| (c, v) in raw.incs && WireMap(raw.incs)[c] == WireValue(v);
    if v.FromPath? && c !in fixed {
      var claim := Claim(c, IncType(catalog, raw.evt, v));
      IncClaimIn(catalog, raw.evt, raw.incs, c, v);
      RuleClaimIn(catalog, rules, i, claim);
      InferenceIff(fixed, Claims(catalog, rules));
      assert claim.inferred.Column?;
    }
    if v.FromPath? {
      InferredIncResolves(catalog[raw.evt], v.path, payload);
    }
  }

  /** An event emitted through the typed client never makes the fold fail on the counters of
      a projection the layer defined, each rule built from its own event's builder and no
      optional step before the last: the only thing that can make it unfoldable is a key that
      does not resolve. */
  lemma EmittedEventsFold(name: string, catalog: Catalog, rules: seq<(string, RawRule)>, fixed: Columns, table: string,
                          e: EventLike, t: Table)
    requires Define(name, catalog, rules, fixed, table).Some?
    requires forall i :: 0 <= i < |rules| && rules[i].0 == e.eventType ==>
               && rules[i].1.evt == e.eventType && e.eventType in catalog
               && SafeCounters(fixed, catalog[e.eventType], rules[i].1.incs)
    requires e.eventType in catalog ==> Conforms(catalog[e.eventType], e.payload)
    ensures var def := Define(name, catalog, rules, fixed, table).value;
            ApplyTo(def, e, t).NotFoldable? <==> e.eventType in def.on && ResolveKey(def.on[e.eventType], e).None?
  {
    var def := Define(name, catalog, rules, fixed, table).value;
    if e.eventType in def.on {
      WireOnMember(rules, e.eventType);
      var i :| 0 <= i < |rules| && rules[i].0 == e.eventType && def.on[e.eventType] == WireRule(rules[i].1);
      var rule := def.on[e.eventType];
      if rules[i].1.op != "delete" {
        forall c | c in IncColumns(def, rule) ensures ResolveInc(e.payload, rule.incs[c]).Some? {
          CounterResolves(catalog, rules, fixed, i, c, e.payload);
        }
      }
    }
  }
}
