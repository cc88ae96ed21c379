/** The registered definitions held in memory, and the indexes derived from them on every
    reload (go/internal/readmodel/registry.go). */
module Registry {
  import opened Basics
  import opened Definitions
  import opened Projector
  import opened ReadModels
  import LogTable
  import UpsertStatement

  /** Primary key of `_policies`. */
  datatype PolicyRow = PolicyRow(name: string, role: string, action: string)

  function PolicyKey(name: string, role: string): string { name + " " + role }

  predicate ValidPolicy(p: PolicyDef) {
    && IsIdentifier(p.name) && p.role != "" && p.action == "select"
    && (forall c :: c in p.allow ==> IsIdentifier(c)) && (forall c :: c in p.deny ==> IsIdentifier(c))
  }

  /** An absent action means select. */
  function WithAction(p: PolicyDef): PolicyDef { if p.action == "" then p.(action := "select") else p }

  lemma IdentifierHasNoSpace(s: string)
    requires IsIdentifier(s)
    ensures ' ' !in s
  {
  }

  lemma SpaceFreePrefixes(a: string, b: string, s: string, t: string)
    requires ' ' !in a && ' ' !in b && a + " " + s == b + " " + t
    ensures a == b && s == t
  {
    var whole := a + " " + s;
    assert whole[|a|] == ' ' && whole[|b|] == ' ';
    assert forall i :: 0 <= i < |a| ==> whole[i] == a[i] && a[i] in a;
    assert forall i :: 0 <= i < |b| ==> whole[i] == b[i] && b[i] in b;
    assert whole[..|a|] == a && whole[..|b|] == b;
    assert whole[|a| + 1..] == s && whole[|b| + 1..] == t;
  }

  lemma ForeignKeyCuts(other: string, role: string, name: string, mine: string)
    requires IsIdentifier(other) && other != name && PolicyKey(other, role) == PolicyKey(name, mine)
    ensures |other| < |name| && name[|other|] == ' ' && name[..|other|] == other
  {
    IdentifierHasNoSpace(other);
    var whole := PolicyKey(name, mine);
    if ' ' !in name {
      SpaceFreePrefixes(other, name, role, mine);
    }
    var i :| 0 <= i < |name| && name[i] == ' ';
    assert forall j :: 0 <= j < |other| ==> whole[j] == other[j] && other[j] in other;
    assert whole[i] == ' ' && |other| <= i;
    assert whole[|other|] == ' ' && name[|other|] == whole[|other|];
    assert name[..|other|] == whole[..|other|] == other;
  }

  lemma SpaceMakesForeignKey(name: string, i: nat)
    requires i < |name| && name[i] == ' ' && IsIdentifier(name[..i])
    ensures PolicyKey(name[..i], name[i + 1..] + " r") == PolicyKey(name, "r")
  {
    assert name == name[..i] + " " + name[i + 1..];
  }

  /** A lookup name's key can hit another projection's policy exactly when the name holds a
      space with an identifier before it; an identifier never does. */
  lemma ForeignKeys(name: string)
    ensures (exists other, role, mine ::
             IsIdentifier(other) && other != name
             && PolicyKey(other, role) == PolicyKey(name, mine))
            <==> exists i :: 0 <= i < |name| && name[i] == ' ' && IsIdentifier(name[..i])
  {
    if other, role, mine :| IsIdentifier(other) && other != name && PolicyKey(other, role) == PolicyKey(name, mine) {
      ForeignKeyCuts(other, role, name, mine);
    }
    if i :| 0 <= i < |name| && name[i] == ' ' && IsIdentifier(name[..i]) {
      SpaceMakesForeignKey(name, i);
      assert name[..i] != name;
    }
  }

  // ── the index by event type ──────────────────────────────────────────────────

  type Index = map<string, seq<ProjectionDef>>

  function Listed(index: Index, evt: string): seq<ProjectionDef> { if evt in index then index[evt] else [] }

  ghost predicate AgreesOn(index: Index, defs: set<ProjectionDef>, evt: string) {
    && NoDuplicates(Listed(index, evt))
    && forall d :: d in Listed(index, evt) <==> d in defs && evt in d.on
  }

  /** Every event type lists exactly the projections with a rule for it, once each. */
  ghost predicate Agrees(index: Index, defs: set<ProjectionDef>) { forall evt: string :: AgreesOn(index, defs, evt) }

  method AddToIndex(index: Index, d: ProjectionDef, ghost defs: set<ProjectionDef>) returns (r: Index)
    requires Agrees(index, defs) && d !in defs
    ensures Agrees(r, defs + {d})
  {
    r := index;
    var left := d.on.Keys;
    while left != {}
      invariant left <= d.on.Keys
      invariant forall evt: string :: Listed(r, evt)
                  == if evt in d.on && evt !in left then Listed(index, evt) + [d] else Listed(index, evt)
    {
      var evt :| evt in left;
      r := r[evt := Listed(r, evt) + [d]];
      left := left - {evt};
    }
    forall evt: string ensures AgreesOn(r, defs + {d}, evt) {
      OneMoreAgrees(index, r, d, defs, evt);
    }
  }

  lemma OneMoreAgrees(index: Index, r: Index, d: ProjectionDef, defs: set<ProjectionDef>, evt: string)
    requires AgreesOn(index, defs, evt) && d !in defs
    requires Listed(r, evt) == if evt in d.on then Listed(index, evt) + [d] else Listed(index, evt)
    ensures AgreesOn(r, defs + {d}, evt)
  {
  }

  lemma {:induction false} FilterKeepsDistinct(p: ProjectionDef -> bool, defs: seq<ProjectionDef>)
    requires DistinctTables(defs)
    ensures DistinctTables(Filter(p, defs))
  {
    if defs != [] {
      DistinctTail(defs);
      FilterKeepsDistinct(p, defs[1..]);
      var rest := Filter(p, defs[1..]);
      forall d | d in rest ensures d.TableOf() != defs[0].TableOf() {
        FilterMembers(p, defs[1..], d);
      }
      assert forall j :: 0 <= j < |rest| ==> rest[j] in rest;
    }
  }

  lemma DistinctSublist(sub: seq<ProjectionDef>, defs: seq<ProjectionDef>)
    requires NoDuplicates(sub) && DistinctTables(defs) && forall d :: d in sub ==> d in defs
    ensures DistinctTables(sub)
  {
    forall i, j | 0 <= i < j < |sub| ensures sub[i].TableOf() != sub[j].TableOf() {
      assert sub[i] in defs && sub[j] in defs;
    }
  }

  /** Folding an event through the index is folding it into every projection: the same
      verdict, and on success the same table everywhere, in whatever order each list is. */
  lemma IndexedFoldIsFullFold(index: Index, defs: seq<ProjectionDef>, e: EventLike, ts: Tables)
    requires DistinctTables(defs) && AgreesOn(index, (set d | d in defs), e.eventType)
    ensures var some := FoldAll(Listed(index, e.eventType), e, ts); var all := FoldAll(defs, e, ts);
            && (some.outcome.Done? <==> all.outcome.Done?)
            && (some.outcome.Done? ==> forall name: string :: TableIn(some.tables, name) == TableIn(all.tables, name))
  {
    var p := (d: ProjectionDef) => e.eventType in d.on;
    var listed, filtered := Listed(index, e.eventType), Filter(p, defs);
    DistinctSublist(listed, defs);
    FilterKeepsDistinct(p, defs);
    forall d ensures d in listed <==> d in filtered {
      FilterMembers(p, defs, d);
    }
    FoldOrderIrrelevant(listed, filtered, e, ts);
    FoldSkipsOthers(defs, e, ts);
  }

  // ── what a reload derives from the rows ──────────────────────────────────────

  ghost predicate ProjectionRowsValid(rows: map<string, ProjectionDef>) {
    forall name :: name in rows ==> rows[name].name == name && ValidProjection(rows[name])
  }

  ghost predicate PolicyRowsValid(rows: map<PolicyRow, PolicyDef>) {
    forall r :: r in rows ==> ValidPolicy(rows[r]) && r == PolicyRow(rows[r].name, rows[r].role, rows[r].action)
  }

  method BuildIndex(rows: map<string, ProjectionDef>) returns (index: Index)
    requires ProjectionRowsValid(rows)
    ensures Agrees(index, rows.Values)
  {
    index := map[];
    var left := rows.Keys;
    ghost var done: set<ProjectionDef> := {};
    while left != {}
      invariant left <= rows.Keys
      invariant forall name :: name in left ==> rows[name] !in done
      invariant forall d :: d in done <==> exists name :: name in rows && name !in left && rows[name] == d
      invariant Agrees(index, done)
    {
      var name :| name in left;
      index := AddToIndex(index, rows[name], done);
      done := done + {rows[name]};
      left := left - {name};
    }
    assert done == rows.Values;
  }

  function Held(policies: map<string, PolicyDef>, key: string): Option<PolicyDef> {
    if key in policies then Some(policies[key]) else None
  }

  /** Each row is held under the key of its name and role, and nothing else is. */
  ghost predicate PoliciesAgree(policies: map<string, PolicyDef>, rows: map<PolicyRow, PolicyDef>) {
    && (forall r :: r in rows ==> Held(policies, PolicyKey(r.name, r.role)) == Some(rows[r]))
    && (forall key :: key in policies ==> exists r :: r in rows && key == PolicyKey(r.name, r.role))
  }

  lemma PolicyKeysDistinct(rows: map<PolicyRow, PolicyDef>, q: PolicyRow, r: PolicyRow)
    requires PolicyRowsValid(rows) && q in rows && r in rows && PolicyKey(q.name, q.role) == PolicyKey(r.name, r.role)
    ensures q == r
  {
    IdentifierHasNoSpace(q.name);
    IdentifierHasNoSpace(r.name);
    SpaceFreePrefixes(q.name, r.name, q.role, r.role);
  }

  function Except(rows: map<PolicyRow, PolicyDef>, left: set<PolicyRow>): map<PolicyRow, PolicyDef> {
    map r | r in rows && r !in left :: rows[r]
  }

  lemma PolicyAdded(policies: map<string, PolicyDef>, rows: map<PolicyRow, PolicyDef>, left: set<PolicyRow>,
                    r: PolicyRow)
    requires PolicyRowsValid(rows) && r in left && left <= rows.Keys && PoliciesAgree(policies, Except(rows, left))
    ensures PoliciesAgree(policies[PolicyKey(r.name, r.role) := rows[r]], Except(rows, left - {r}))
  {
    var after := policies[PolicyKey(r.name, r.role) := rows[r]];
    var more := Except(rows, left - {r});
    forall q | q in more ensures Held(after, PolicyKey(q.name, q.role)) == Some(more[q]) {
      if PolicyKey(q.name, q.role) == PolicyKey(r.name, r.role) {
        PolicyKeysDistinct(rows, q, r);
      } else {
        assert q in Except(rows, left);
      }
    }
    forall key | key in after ensures exists q :: q in more && key == PolicyKey(q.name, q.role) {
      if key in policies {
        var q :| q in Except(rows, left) && key == PolicyKey(q.name, q.role);
        assert q in more;
      } else {
        assert r in more;
      }
    }
  }

  method BuildPolicies(rows: map<PolicyRow, PolicyDef>) returns (policies: map<string, PolicyDef>)
    requires PolicyRowsValid(rows)
    ensures PoliciesAgree(policies, rows)
  {
    policies := map[];
    var left := rows.Keys;
    while left != {}
      invariant left <= rows.Keys
      invariant PoliciesAgree(policies, Except(rows, left))
    {
      var r :| r in left;
      PolicyAdded(policies, rows, left, r);
      policies := policies[PolicyKey(r.name, r.role) := rows[r]];
      left := left - {r};
    }
    assert Except(rows, left) == rows;
  }

  // ── the physical tables ──────────────────────────────────────────────────────

  type Schema = map<string, set<string>>

  /** Declared columns an existing table does not have yet. */
  function MissingColumns(schema: Schema, d: ProjectionDef): set<string> {
    if d.TableOf() in schema then d.columns.Keys - schema[d.TableOf()] else {}
  }

  /** What saving a definition sends: the table, the look at its columns, one statement for each
      missing column, and the row. */
  function Statements(schema: Schema, d: ProjectionDef): nat { 3 + |MissingColumns(schema, d)| }

  /** A new table cannot have a column twice. */
  predicate Creatable(schema: Schema, d: ProjectionDef) {
    d.TableOf() in schema || UpsertStatement.SPINE !! d.columns.Keys
  }

  /** Columns are only ever added. */
  ghost predicate Grown(before: Schema, after: Schema) {
    forall name, c :: name in before && c in before[name] ==> name in after && c in after[name]
  }

  /** After `CREATE TABLE IF NOT EXISTS`. */
  function Created(schema: Schema, d: ProjectionDef): (r: Schema)
    ensures d.TableOf() in r
  {
    if d.TableOf() in schema then schema else schema[d.TableOf() := UpsertStatement.SPINE + d.columns.Keys]
  }

  lemma MissingNow(schema: Schema, d: ProjectionDef)
    ensures d.columns.Keys - Created(schema, d)[d.TableOf()] == MissingColumns(schema, d)
    ensures Grown(schema, Created(schema, d))
  {
  }

  lemma ColumnsAdded(before: Schema, schema: Schema, table: string, added: set<string>, cols: set<string>)
    requires Grown(before, schema) && table in schema
    ensures Grown(before, schema[table := schema[table] + added])
    ensures cols - schema[table] == added ==> cols <= schema[table] + added
  {
  }

  lemma {:induction false} Fewer(a: set<string>, b: set<string>)
    requires a <= b
    ensures |a| <= |b|
  {
    if a != {} {
      var x :| x in a;
      Fewer(a - {x}, b - {x});
    }
  }

  lemma Passed(cols: set<string>, todo: set<string>, existing: set<string>, c: string)
    requires c in existing
    ensures cols - (todo - {c}) - existing == cols - todo - existing
  {
  }

  lemma AddedOne(cols: set<string>, todo: set<string>, existing: set<string>, c: string)
    requires c in cols && c in todo && c !in existing
    ensures c !in cols - todo - existing && c in cols - existing && cols - todo - existing <= cols - existing
    ensures cols - (todo - {c}) - existing == cols - todo - existing + {c}
  {
  }

  lemma OneTooMany(missing: set<string>, added: set<string>, c: string)
    requires added <= missing && c in missing && c !in added
    ensures |added| < |missing|
  {
    Fewer(added + {c}, missing);
  }

  /** One `ALTER TABLE` for each declared column the table has not got, while the database
      takes them. */
  method AddMissing(existing: set<string>, cols: set<string>, taken: nat)
    returns (ok: bool, left: nat, added: set<string>)
    ensures added <= cols - existing
    ensures ok <==> taken >= |cols - existing|
    ensures ok ==> added == cols - existing && left == taken - |cols - existing|
  {
    var todo := cols;
    added, left := {}, taken;
    while todo != {}
      invariant todo <= cols
      invariant added == cols - todo - existing && left == taken - |added|
    {
      var c :| c in todo;
      ghost var before := todo;
      todo := todo - {c};
      if c in existing {
        Passed(cols, before, existing, c);
      } else {
        AddedOne(cols, before, existing, c);
        if left == 0 {
          OneTooMany(cols - existing, added, c);
          return false, 0, added;
        }
        added := added + {c};
        left := left - 1;
      }
    }
    assert cols - todo - existing == cols - existing;
    ok := true;
  }

  // ── listing ──────────────────────────────────────────────────────────────────

  /** The definitions of all names but those left, once each. */
  ghost predicate ListedSoFar(defs: seq<ProjectionDef>, rows: map<string, ProjectionDef>, left: set<string>) {
    && NoDuplicates(defs)
    && forall d :: d in defs <==> d.name in rows && d.name !in left && rows[d.name] == d
  }

  lemma OneMoreListed(defs: seq<ProjectionDef>, rows: map<string, ProjectionDef>, left: set<string>, name: string)
    requires ProjectionRowsValid(rows) && ListedSoFar(defs, rows, left) && name in rows && name in left
    ensures ListedSoFar(defs + [rows[name]], rows, left - {name})
  {
    assert rows[name].name == name;
  }

  // ── the registry ─────────────────────────────────────────────────────────────

  class Registry {
    const db: Database
    /** The rows of `_projections` and `_policies`. */
    var projectionRows: map<string, ProjectionDef>
    var policyRows: map<PolicyRow, PolicyDef>
    /** The columns of the tables that exist. */
    var schema: Schema
    /** What is held in memory. */
    var projections: map<string, ProjectionDef>
    var byEventType: Index
    var policies: map<string, PolicyDef>

    /** Only validated definitions are ever stored, each under its own key. */
    ghost predicate RowsValid()
      reads this`projectionRows, this`policyRows
    {
      ProjectionRowsValid(projectionRows) && PolicyRowsValid(policyRows)
    }

    function PolicyFor(name: string, role: string): Option<PolicyDef>
      reads this`policyRows
    {
      var r := PolicyRow(name, role, "select");
      if r in policyRows then Some(policyRows[r]) else None
    }

    /** Memory agrees with the stored rows. */
    ghost predicate Synced()
      reads this`projectionRows, this`policyRows, this`projections, this`byEventType, this`policies
    {
      && RowsValid()
      && projections == projectionRows
      && Agrees(byEventType, projectionRows.Values)
      && PoliciesAgree(policies, policyRows)
    }

    /** The log's table exists before any other. */
    constructor (db: Database)
      ensures Synced() && projectionRows == map[] && policyRows == map[] && this.db == db
      ensures schema == map[LogTable.LOG_TABLE := LogTable.LOG_COLUMNS]
    {
      this.db := db;
      projectionRows, policyRows, schema := map[], map[], map[LogTable.LOG_TABLE := LogTable.LOG_COLUMNS];
      projections, byEventType, policies := map[], map[], map[];
    }

    /** Rebuilds all three maps from the rows, then swaps them in. */
    method Reload()
      requires RowsValid()
      modifies this`projections, this`byEventType, this`policies
      ensures Synced()
    {
      var index := BuildIndex(projectionRows);
      var held := BuildPolicies(policyRows);
      projections, byEventType, policies := projectionRows, index, held;
    }

    /** `ensureTable`: creates the table or adds its missing columns. What the database refused
        half way stays half done. */
    method EnsureTable(d: ProjectionDef) returns (ok: bool)
      modifies this`schema, db`budget
      ensures ok <==> Creatable(old(schema), d) && old(db.budget) >= 2 + |MissingColumns(old(schema), d)|
      ensures ok ==> db.budget == old(db.budget) - 2 - |MissingColumns(old(schema), d)|
      ensures ok ==> d.TableOf() in schema && d.columns.Keys <= schema[d.TableOf()]
      ensures Grown(old(schema), schema)
    {
      var table := d.TableOf();
      if db.budget == 0 || !Creatable(schema, d) {
        db.budget := Spent(db.budget);
        return false;
      }
      MissingNow(schema, d);
      schema := Created(schema, d);
      if db.budget == 1 {
        db.budget := 0;
        return false;
      }
      var left, added;
      ok, left, added := AddMissing(schema[table], d.columns.Keys, db.budget - 2);
      db.budget := left;
      ColumnsAdded(old(schema), schema, table, added, d.columns.Keys);
      schema := schema[table := schema[table] + added];
    }

    /** A definition that fails validation changes nothing. A valid one gets its table, and
        then its row is replaced and memory follows; if the database refuses before that, the
        registered definitions stay as they were and the table may have gained columns. */
    method SaveProjection(d: ProjectionDef) returns (ok: bool)
      requires Synced()
      modifies this, db`budget
      ensures Synced() && policyRows == old(policyRows) && Grown(old(schema), schema)
      ensures ok <==> ValidProjection(d) && Creatable(old(schema), d) && old(db.budget) >= Statements(old(schema), d)
      ensures ok ==> db.budget == old(db.budget) - Statements(old(schema), d)
      ensures projectionRows == if ok then old(projectionRows)[d.name := d] else old(projectionRows)
      ensures ok ==> d.TableOf() in schema && d.columns.Keys <= schema[d.TableOf()]
      ensures !ValidProjection(d) ==> schema == old(schema) && db.budget == old(db.budget)
    {
      ok := ValidateProjection(d);
      if ok {
        ok := EnsureTable(d);
        if ok && db.budget > 0 {
          db.budget := db.budget - 1;
          projectionRows := projectionRows[d.name := d];
          Reload();
        } else {
          ok := false;
        }
      }
    }

    /** The policy's row is replaced and memory follows, or nothing changes. */
    method SavePolicy(p: PolicyDef) returns (ok: bool)
      requires Synced()
      modifies this, db`budget
      ensures Synced() && projectionRows == old(projectionRows) && schema == old(schema)
      ensures ok <==> ValidPolicy(WithAction(p)) && old(db.budget) > 0
      ensures policyRows
              == if ok then old(policyRows)[PolicyRow(p.name, p.role, "select") := WithAction(p)] else old(policyRows)
      ensures db.budget == if ValidPolicy(WithAction(p)) then Spent(old(db.budget)) else old(db.budget)
    {
      var q := WithAction(p);
      ok := ValidPolicy(q) && db.budget > 0;
      if ok {
        policyRows := policyRows[PolicyRow(q.name, q.role, q.action) := q];
        Reload();
      }
      if ValidPolicy(q) {
        db.budget := Spent(db.budget);
      }
    }

    /** The registered projections, in whatever order the map yields them. */
    method ListProjections() returns (defs: seq<ProjectionDef>)
      requires Synced()
      ensures NoDuplicates(defs)
      ensures forall d :: d in defs <==> d in projectionRows.Values
    {
      defs := [];
      var left := projections.Keys;
      while left != {}
        invariant left <= projections.Keys && ListedSoFar(defs, projections, left)
      {
        var name :| name in left;
        OneMoreListed(defs, projections, left, name);
        defs := defs + [projections[name]];
        left := left - {name};
      }
    }

    /** The projections with a rule for the event type, each once. */
    method DefsForEvent(evt: string) returns (defs: seq<ProjectionDef>)
      requires Synced()
      ensures NoDuplicates(defs)
      ensures forall d :: d in defs <==> d in projectionRows.Values && evt in d.on
    {
      assert AgreesOn(byEventType, projectionRows.Values, evt);
      defs := Listed(byEventType, evt);
    }

    /** The exact-role policy if there is one, else the `*` one, never another
        projection's: for any name an identifier could be, and so for any registered one. */
    method GetPolicy(name: string, role: string) returns (p: Option<PolicyDef>)
      requires Synced()
      ensures ' ' !in name ==>
                p == if role != "" && PolicyFor(name, role).Some? then PolicyFor(name, role) else PolicyFor(name, "*")
      ensures p.Some? && ' ' !in name ==> p.value.name == name && (p.value.role == role || p.value.role == "*")
    {
      MemoryIsRows(name, role);
      MemoryIsRows(name, "*");
      if role != "" && PolicyKey(name, role) in policies {
        return Some(policies[PolicyKey(name, role)]);
      }
      return Held(policies, PolicyKey(name, "*"));
    }

    lemma MemoryIsRows(name: string, role: string)
      requires Synced()
      ensures ' ' !in name ==> Held(policies, PolicyKey(name, role)) == PolicyFor(name, role)
    {
      if ' ' !in name {
        if Held(policies, PolicyKey(name, role)).Some? {
          var r :| r in policyRows && PolicyKey(name, role) == PolicyKey(r.name, r.role);
          IdentifierHasNoSpace(r.name);
          SpaceFreePrefixes(name, r.name, role, r.role);
        } else if PolicyFor(name, role).Some? {
          var r := PolicyRow(name, role, "select");
          assert Held(policies, PolicyKey(r.name, r.role)) == Some(policyRows[r]);
        }
      }
    }
  }
}
