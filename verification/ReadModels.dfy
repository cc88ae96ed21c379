/** The fold over the whole database: every projection with a rule for an event, and the
    rebuilds that repair a view from the log. */
module ReadModels {
  import opened Basics
  import opened JsonValues
  import opened Definitions
  import opened Projector
  import opened UpsertStatement
  import opened LogTable
  import opened EventLog
  import Store

  type Tables = map<string, Table>

  function TableIn(ts: Tables, name: string): Table { if name in ts then ts[name] else map[] }

  datatype Outcome = Done | FoldError | SqlError

  function OutcomeOf(r: FoldResult): Outcome {
    match r
    case Folded(_) => Done
    case NotFoldable => FoldError
    case SqlFailure => SqlError
  }

  /** One event into one projection's table. */
  function FoldInto(def: ProjectionDef, e: EventLike, ts: Tables): Tables {
    match ApplyTo(def, e, TableIn(ts, def.TableOf()))
    case Folded(t) => ts[def.TableOf() := t]
    case _ => ts
  }

  datatype FoldAllResult = FoldAllResult(tables: Tables, outcome: Outcome)

  /** One event into each of a list of projections, stopping at the first that fails. */
  function FoldAll(defs: seq<ProjectionDef>, e: EventLike, ts: Tables): FoldAllResult {
    if defs == [] then FoldAllResult(ts, Done)
    else
      var r := ApplyTo(defs[0], e, TableIn(ts, defs[0].TableOf()));
      if !r.Folded? then FoldAllResult(ts, OutcomeOf(r))
      else FoldAll(defs[1..], e, FoldInto(defs[0], e, ts))
  }

  ghost predicate DistinctTables(defs: seq<ProjectionDef>) {
    forall i, j :: 0 <= i < j < |defs| ==> defs[i].TableOf() != defs[j].TableOf()
  }

  predicate Elsewhere(defs: seq<ProjectionDef>, name: string) { forall d :: d in defs ==> d.TableOf() != name }

  lemma {:induction false} FoldAllElsewhere(defs: seq<ProjectionDef>, e: EventLike, ts: Tables, name: string)
    requires Elsewhere(defs, name)
    ensures TableIn(FoldAll(defs, e, ts).tables, name) == TableIn(ts, name)
  {
    if defs != [] && ApplyTo(defs[0], e, TableIn(ts, defs[0].TableOf())).Folded? {
      assert defs[0] in defs;
      FoldAllElsewhere(defs[1..], e, FoldInto(defs[0], e, ts), name);
    }
  }

  predicate Folds(d: ProjectionDef, e: EventLike, ts: Tables) { ApplyTo(d, e, TableIn(ts, d.TableOf())).Folded? }

  /** The projection's table holds its own fold of the event. */
  predicate FoldedAlone(d: ProjectionDef, e: EventLike, before: Tables, after: Tables) {
    Folds(d, e, before) && TableIn(after, d.TableOf()) == ApplyTo(d, e, TableIn(before, d.TableOf())).table
  }

  lemma DistinctTail(defs: seq<ProjectionDef>)
    requires defs != [] && DistinctTables(defs)
    ensures DistinctTables(defs[1..]) && Elsewhere(defs[1..], defs[0].TableOf())
  {
    forall d | d in defs[1..] ensures d.TableOf() != defs[0].TableOf() {
      var i :| 0 <= i < |defs[1..]| && defs[1..][i] == d;
      assert d == defs[i + 1];
    }
    forall i, j | 0 <= i < j < |defs[1..]| ensures defs[1..][i].TableOf() != defs[1..][j].TableOf() {
      assert defs[1..][i] == defs[i + 1] && defs[1..][j] == defs[j + 1];
    }
  }

  /** Folding into one table is not seen by projections with another. */
  lemma FoldsApart(d: ProjectionDef, e: EventLike, ts: Tables, x: ProjectionDef)
    requires x.TableOf() != d.TableOf()
    ensures TableIn(FoldInto(d, e, ts), x.TableOf()) == TableIn(ts, x.TableOf())
    ensures Folds(x, e, FoldInto(d, e, ts)) <==> Folds(x, e, ts)
  {
  }

  lemma {:induction false} FoldAllDoneIff(defs: seq<ProjectionDef>, e: EventLike, ts: Tables)
    requires DistinctTables(defs)
    ensures FoldAll(defs, e, ts).outcome.Done? <==> forall d :: d in defs ==> Folds(d, e, ts)
    decreases |defs|
  {
    if defs != [] {
      var d, rest := defs[0], defs[1..];
      assert forall x :: x in defs <==> x == d || x in rest;
      DistinctTail(defs);
      FoldAllDoneIff(rest, e, FoldInto(d, e, ts));
      forall x | x in rest ensures Folds(x, e, FoldInto(d, e, ts)) <==> Folds(x, e, ts) {
        FoldsApart(d, e, ts, x);
      }
    }
  }

  lemma {:induction false} FoldAllAlone(defs: seq<ProjectionDef>, e: EventLike, ts: Tables, x: ProjectionDef)
    requires DistinctTables(defs) && FoldAll(defs, e, ts).outcome.Done? && x in defs
    ensures FoldedAlone(x, e, ts, FoldAll(defs, e, ts).tables)
    decreases |defs|
  {
    var d, rest := defs[0], defs[1..];
    DistinctTail(defs);
    if x in rest {
      FoldAllAlone(rest, e, FoldInto(d, e, ts), x);
      FoldsApart(d, e, ts, x);
    } else {
      assert x == d;
      FoldAllElsewhere(rest, e, FoldInto(d, e, ts), d.TableOf());
    }
  }

  /** Each projection's table after a fold that succeeded everywhere is its own fold of the
      event; nothing else changes. The fold succeeds iff every projection's own fold does. */
  lemma FoldAllIsPointwise(defs: seq<ProjectionDef>, e: EventLike, ts: Tables)
    requires DistinctTables(defs)
    ensures FoldAll(defs, e, ts).outcome.Done? <==> forall d :: d in defs ==> Folds(d, e, ts)
    ensures FoldAll(defs, e, ts).outcome.Done? ==>
            forall d :: d in defs ==> FoldedAlone(d, e, ts, FoldAll(defs, e, ts).tables)
    ensures forall name: string :: Elsewhere(defs, name) ==>
            TableIn(FoldAll(defs, e, ts).tables, name) == TableIn(ts, name)
  {
    FoldAllDoneIff(defs, e, ts);
    if FoldAll(defs, e, ts).outcome.Done? {
      forall d | d in defs ensures FoldedAlone(d, e, ts, FoldAll(defs, e, ts).tables) {
        FoldAllAlone(defs, e, ts, d);
      }
    }
    forall name: string | Elsewhere(defs, name)
      ensures TableIn(FoldAll(defs, e, ts).tables, name) == TableIn(ts, name)
    {
      FoldAllElsewhere(defs, e, ts, name);
    }
  }

  /** Two lists of the same projections, in any order: same verdict, and on success the
      same table for every projection. */
  lemma FoldOrderIrrelevant(a: seq<ProjectionDef>, b: seq<ProjectionDef>, e: EventLike, ts: Tables)
    requires DistinctTables(a) && DistinctTables(b)
    requires forall d :: d in a <==> d in b
    ensures FoldAll(a, e, ts).outcome.Done? <==> FoldAll(b, e, ts).outcome.Done?
    ensures FoldAll(a, e, ts).outcome.Done? ==>
              forall name: string :: TableIn(FoldAll(a, e, ts).tables, name) == TableIn(FoldAll(b, e, ts).tables, name)
  {
    FoldAllIsPointwise(a, e, ts);
    FoldAllIsPointwise(b, e, ts);
    if FoldAll(a, e, ts).outcome.Done? {
      forall name: string
        ensures TableIn(FoldAll(a, e, ts).tables, name) == TableIn(FoldAll(b, e, ts).tables, name)
      {
        if d :| d in a && d.TableOf() == name {
          assert FoldedAlone(d, e, ts, FoldAll(a, e, ts).tables) && FoldedAlone(d, e, ts, FoldAll(b, e, ts).tables);
        } else {
          assert Elsewhere(a, name) && Elsewhere(b, name);
        }
      }
    }
  }

  /** Projections without a rule for the event can be left out of the list. */
  lemma {:induction false} FoldSkipsOthers(defs: seq<ProjectionDef>, e: EventLike, ts: Tables)
    requires DistinctTables(defs)
    ensures var some := Filter((d: ProjectionDef) => e.eventType in d.on, defs);
            && FoldAll(some, e, ts).outcome == FoldAll(defs, e, ts).outcome
            && forall name: string ::
               TableIn(FoldAll(some, e, ts).tables, name) == TableIn(FoldAll(defs, e, ts).tables, name)
  {
    var p := (d: ProjectionDef) => e.eventType in d.on;
    if defs != [] {
      var d := defs[0];
      DistinctTail(defs);
      if e.eventType in d.on {
        assert Filter(p, defs)[1..] == Filter(p, defs[1..]);
        if ApplyTo(d, e, TableIn(ts, d.TableOf())).Folded? {
          FoldSkipsOthers(defs[1..], e, FoldInto(d, e, ts));
        }
      } else {
        FoldSkipsOthers(defs[1..], e, ts);
        SameTables(defs[1..], e, ts, FoldInto(d, e, ts));
        assert Filter(p, defs) == Filter(p, defs[1..]);
      }
    }
  }

  lemma {:induction false} SameTables(defs: seq<ProjectionDef>, e: EventLike, ts: Tables, us: Tables)
    requires forall name: string :: TableIn(ts, name) == TableIn(us, name)
    ensures FoldAll(defs, e, ts).outcome == FoldAll(defs, e, us).outcome
    ensures forall name: string ::
            TableIn(FoldAll(defs, e, ts).tables, name) == TableIn(FoldAll(defs, e, us).tables, name)
  {
    if defs != [] && ApplyTo(defs[0], e, TableIn(ts, defs[0].TableOf())).Folded? {
      assert TableIn(ts, defs[0].TableOf()) == TableIn(us, defs[0].TableOf());
      forall name: string ensures TableIn(FoldInto(defs[0], e, ts), name) == TableIn(FoldInto(defs[0], e, us), name) {
        assert TableIn(ts, name) == TableIn(us, name);
      }
      SameTables(defs[1..], e, FoldInto(defs[0], e, ts), FoldInto(defs[0], e, us));
    }
  }

  // ── batches and views ────────────────────────────────────────────────────────

  /** The events of one append, folded in order until one fails. */
  function FoldBatch(defs: seq<ProjectionDef>, batch: seq<EventLike>, ts: Tables): FoldAllResult {
    if batch == [] then FoldAllResult(ts, Done)
    else
      var r := FoldBatch(defs, batch[..|batch| - 1], ts);
      if !r.outcome.Done? then r else FoldAll(defs, batch[|batch| - 1], r.tables)
  }

  ghost predicate SameViews(ts: Tables, us: Tables) { forall name: string :: TableIn(ts, name) == TableIn(us, name) }

  /** Nothing but rows of this tenant differs. */
  ghost predicate OnlyTenant(ts: Tables, us: Tables, tenant: string) {
    forall name: string :: OtherRows(TableIn(ts, name), tenant) == OtherRows(TableIn(us, name), tenant)
  }

  /** The view is exactly what replaying the log gives. */
  predicate Faithful(def: ProjectionDef, tenant: string, ts: Tables, log: seq<EventLike>) {
    var r := Replay(def, tenant, log);
    !r.failed && TenantRows(TableIn(ts, def.TableOf()), tenant) == r.table
  }

  lemma NothingSkipped(def: ProjectionDef, tenant: string, log: seq<EventLike>)
    requires forall e :: e in log && e.tenant == tenant ==> Foldable(def, e)
    ensures Replay(def, tenant, log).skipped == 0
  {
    SkippedIsExact(def, tenant, map[], log);
    var p := (e: EventLike) => e.tenant == tenant && !Foldable(def, e);
    if Filter(p, log) != [] {
      FilterMembers(p, log, Filter(p, log)[0]);
    }
  }

  // ── the database the projector writes to ─────────────────────────────────────

  /** No declared column collides with the columns every table has; `ensureTable` could
      not have created the table otherwise. */
  predicate SpineFree(def: ProjectionDef) { SPINE !! def.columns.Keys }

  /** What the statements need: such columns, and identifiers for names, as validation asks. */
  ghost predicate Storable(def: ProjectionDef) {
    SpineFree(def) && IsIdentifier(def.TableOf()) && forall c :: c in def.columns ==> IsIdentifier(c)
  }

  lemma ValidIsStorable(def: ProjectionDef)
    requires ValidProjection(def) && SpineFree(def)
    ensures Storable(def)
  {
  }

  function Spent(budget: nat): nat { if budget == 0 then 0 else budget - 1 }

  class Database {
    /** The log is one of the tables. */
    const store: Store.EventStore
    var tables: Tables
    /** How many more statements the database takes before it starts refusing. */
    var budget: nat

    constructor (store: Store.EventStore, budget: nat)
      ensures this.store == store && tables == map[] && this.budget == budget
    {
      this.store, this.tables, this.budget := store, map[], budget;
    }

    /** Runs a DELETE with its arguments bound in position. */
    method Delete(text: string, args: seq<Value>) returns (ok: bool)
      modifies this`tables, this`budget, store`log
      ensures budget == Spent(old(budget)) && ok == (old(budget) > 0 && ReadDelete(text).Some?)
      ensures !ok ==> tables == old(tables) && store.log == old(store.log)
      ensures ok && ReadDelete(text).value.table == LOG_TABLE ==>
                && tables == old(tables)
                && store.log == Undeleted(ReadDelete(text).value.condition, args, old(store.log))
      ensures ok && ReadDelete(text).value.table != LOG_TABLE ==>
                var d := ReadDelete(text).value;
                && tables == old(tables)[d.table := Unselected(d.condition, args, TableIn(old(tables), d.table))]
                && store.log == old(store.log)
    {
      var d := ReadDelete(text);
      ok := budget > 0 && d.Some?;
      budget := Spent(budget);
      if ok {
        if d.value.table == LOG_TABLE {
          store.log := Undeleted(d.value.condition, args, store.log);
        } else {
          tables := tables[d.value.table := Unselected(d.value.condition, args, TableIn(tables, d.value.table))];
        }
      }
    }

    /** Runs an upsert with its arguments bound in position. The log has no unique constraint
        on tenant and id for the conflict clause to name, so it takes no upsert. */
    method Exec(text: string, args: seq<Value>) returns (ok: bool)
      modifies this`tables, this`budget
      ensures budget == Spent(old(budget))
      ensures ok <==> old(budget) > 0 && Upserted(text, args, old(tables)).Some?
      ensures tables == if ok then Upserted(text, args, old(tables)).value else old(tables)
    {
      var after := Upserted(text, args, tables);
      ok := budget > 0 && after.Some?;
      budget := Spent(budget);
      if ok {
        tables := after.value;
      }
    }
  }

  /** The tables after an upsert, unless it is refused. */
  function Upserted(text: string, args: seq<Value>, ts: Tables): Option<Tables> {
    match Read(text)
    case None => None
    case Some(s) =>
      if s.table == LOG_TABLE then None
      else
        match Execute(s, args, TableIn(ts, s.table))
        case None => None
        case Some(t) => Some(ts[s.table := t])
  }

  method ResolveKeyOf(rule: OpRule, e: EventLike) returns (id: Option<string>)
    ensures id == ResolveKey(rule, e)
  {
    if rule.key == "" {
      return Some(e.streamId);
    }
    var v := PayloadPath(e.payload, rule.key);
    return match v case None => None case Some(j) => KeyText(j);
  }

  /** The declared columns of a rule, in whatever order the map yields them. */
  method Declared(mentioned: set<string>, def: ProjectionDef) returns (cols: seq<string>)
    ensures Enumerates(cols, mentioned * def.columns.Keys)
  {
    cols := [];
    var left := mentioned;
    while left != {}
      invariant left <= mentioned
      invariant Enumerates(cols, (mentioned - left) * def.columns.Keys)
    {
      var c :| c in left;
      left := left - {c};
      if c in def.columns {
        cols := cols + [c];
      }
    }
  }

  /** Every increment is resolved before the database is touched. */
  method ResolveAll(def: ProjectionDef, rule: OpRule, payload: Payload, cols: seq<string>)
    returns (incs: Option<map<string, real>>)
    requires Enumerates(cols, IncColumns(def, rule))
    ensures incs == ResolveIncs(def, rule, payload)
  {
    var m: map<string, real> := map[];
    for i := 0 to |cols|
      invariant forall c :: c in m <==> c in cols[..i]
      invariant forall c :: c in m ==> c in rule.incs && ResolveInc(payload, rule.incs[c]) == Some(m[c])
    {
      assert cols[i] in IncColumns(def, rule);
      var n := ResolveInc(payload, rule.incs[cols[i]]);
      if n.None? {
        return None;
      }
      m := m[cols[i] := n.value];
    }
    assert cols[..|cols|] == cols;
    assert m.Keys == IncColumns(def, rule);
    assert forall c :: c in IncColumns(def, rule) ==> m[c] == ResolveInc(payload, rule.incs[c]).value;
    assert m == map c | c in IncColumns(def, rule) :: ResolveInc(payload, rule.incs[c]).value;
    return Some(m);
  }

  // ── a fold against a database that may refuse ────────────────────────────────

  /** Whether a fold gets as far as sending a statement. */
  predicate Sends(def: ProjectionDef, e: EventLike) { e.eventType in def.on && Foldable(def, e) }

  predicate Refused(budget: nat, def: ProjectionDef, e: EventLike) {
    Sends(def, e) && (budget == 0 || (OverLog(def) && def.on[e.eventType].op != "delete"))
  }

  function OutcomeWhen(budget: nat, def: ProjectionDef, e: EventLike, t: Table): Outcome {
    if Refused(budget, def, e) then SqlError else OutcomeOf(ApplyTo(def, e, t))
  }

  function BudgetAfter(budget: nat, def: ProjectionDef, e: EventLike): nat {
    if Sends(def, e) then Spent(budget) else budget
  }

  /** The DELETE of a rule, as text and arguments. */
  method RemoveRow(db: Database, table: string, k: RowKey) returns (ok: bool)
    requires IsIdentifier(table)
    modifies db`tables, db`budget, db.store`log
    ensures ok == (old(db.budget) > 0) && db.budget == Spent(old(db.budget))
    ensures db.tables == if ok && table != LOG_TABLE then old(db.tables)[table := TableIn(old(db.tables), table) - {k}]
                         else old(db.tables)
    ensures db.store.log == if ok && table == LOG_TABLE then WithoutEvent(old(db.store.log), k) else old(db.store.log)
  {
    DeleteRowIsFold(table, k, TableIn(db.tables, table));
    DeleteRowReads(table);
    EventUndeleted(db.store.log, k);
    ok := db.Delete(DeleteRowText(table), [Text(k.tenant), Text(k.id)]);
  }

  /** The DELETE a rebuild starts with. */
  method WipeTenant(db: Database, table: string, tenant: string) returns (ok: bool)
    requires IsIdentifier(table)
    modifies db`tables, db`budget, db.store`log
    ensures ok == (old(db.budget) > 0) && db.budget == Spent(old(db.budget))
    ensures db.tables
            == if ok && table != LOG_TABLE
               then old(db.tables)[table := OtherRows(TableIn(old(db.tables), table), tenant)]
                         else old(db.tables)
    ensures db.store.log == if ok && table == LOG_TABLE then OthersIn(old(db.store.log), tenant) else old(db.store.log)
  {
    DeleteTenantIsWipe(table, tenant, TableIn(db.tables, table));
    DeleteTenantReads(table);
    TenantUndeleted(db.store.log, tenant);
    ok := db.Delete(DeleteTenantText(table), [Text(tenant)]);
  }

  /** The upsert of a rule, as text and arguments. */
  method UpsertRow(db: Database, u: Upsert, k: RowKey, sets: map<string, Value>, incs: map<string, real>, now: int)
    returns (ok: bool)
    requires Named(u) && Enumerates(u.setCols, sets.Keys) && Enumerates(u.incCols, incs.Keys)
    requires SPINE !! sets.Keys && SPINE !! incs.Keys
    modifies db`tables, db`budget
    ensures db.budget == Spent(old(db.budget))
    ensures var t := TableIn(old(db.tables), u.table);
            && ok == (old(db.budget) > 0 && u.table != LOG_TABLE && CanAdd(RowAt(t, k), incs))
            && db.tables
               == if ok then old(db.tables)[u.table := t[k := Merge(RowAt(t, k), sets, incs)]] else old(db.tables)
  {
    StatementIsFold(u, k, sets, incs, now, TableIn(db.tables, u.table));
    ok := db.Exec(Statement(u), Arguments(u, k, sets, incs, now));
  }

  lemma DeleteRuleFolds(def: ProjectionDef, e: EventLike, id: string, t: Table)
    requires e.eventType in def.on && def.on[e.eventType].op == "delete"
             && ResolveKey(def.on[e.eventType], e) == Some(id)
    ensures Sends(def, e) && ApplyTo(def, e, t) == Folded(t - {RowKey(e.tenant, id)})
  {
  }

  lemma UpsertRuleFolds(def: ProjectionDef, e: EventLike, id: string, incs: map<string, real>, t: Table)
    requires e.eventType in def.on && def.on[e.eventType].op != "delete"
             && ResolveKey(def.on[e.eventType], e) == Some(id)
    requires ResolveIncs(def, def.on[e.eventType], e.payload) == Some(incs)
    ensures var k := RowKey(e.tenant, id); var sets := ResolveSets(def, def.on[e.eventType], e.payload);
            && Sends(def, e)
            && ApplyTo(def, e, t)
               == if CanAdd(RowAt(t, k), incs) then Folded(t[k := Merge(RowAt(t, k), sets, incs)]) else SqlFailure
  {
  }

  /** `applyTo`: whatever order it meets the columns in, it folds as specified or leaves
      every table as it was. A projection over the log's own table folds into no other. */
  method ApplyRule(db: Database, def: ProjectionDef, e: EventLike, now: int) returns (r: Outcome)
    requires Storable(def)
    modifies db`tables, db`budget, db.store`log
    ensures r == OutcomeWhen(old(db.budget), def, e, TableIn(old(db.tables), def.TableOf()))
    ensures db.budget == BudgetAfter(old(db.budget), def, e)
    ensures forall name: string :: TableIn(db.tables, name)
              == TableIn(if r.Done? && !OverLog(def) then FoldInto(def, e, old(db.tables)) else old(db.tables), name)
    ensures db.store.log == LogAfterFold(def, e, old(db.store.log), old(db.budget))
  {
    if e.eventType !in def.on {
      return Done;
    }
    var rule := def.on[e.eventType];
    var table := def.TableOf();
    var id := ResolveKeyOf(rule, e);
    if id.None? {
      return FoldError;
    }
    var k := RowKey(e.tenant, id.value);
    if rule.op == "delete" {
      DeleteRuleFolds(def, e, id.value, TableIn(db.tables, table));
      var ok := RemoveRow(db, table, k);
      return if ok then Done else SqlError;
    }
    r := ApplyUpsert(db, def, e, id.value, now);
  }

  /** The upsert of a rule: this rule's columns only, every increment resolved first. */
  method ApplyUpsert(db: Database, def: ProjectionDef, e: EventLike, id: string, now: int) returns (r: Outcome)
    requires Storable(def) && e.eventType in def.on && def.on[e.eventType].op != "delete"
    requires ResolveKey(def.on[e.eventType], e) == Some(id)
    modifies db`tables, db`budget
    ensures r == OutcomeWhen(old(db.budget), def, e, TableIn(old(db.tables), def.TableOf()))
    ensures db.budget == BudgetAfter(old(db.budget), def, e)
    ensures db.tables == if r.Done? then FoldInto(def, e, old(db.tables)) else old(db.tables)
    ensures r.Done? ==> !OverLog(def)
  {
    var rule := def.on[e.eventType];
    var setCols := Declared(rule.sets.Keys, def);
    var incCols := Declared(rule.incs.Keys, def);
    var incs := ResolveAll(def, rule, e.payload, incCols);
    if incs.None? {
      return FoldError;
    }
    var sets := ResolveSets(def, rule, e.payload);
    var u := Upsert(def.TableOf(), setCols, incCols);
    UpsertRuleFolds(def, e, id, incs.value, TableIn(db.tables, def.TableOf()));
    var done := UpsertRow(db, u, RowKey(e.tenant, id), sets, incs.value, now);
    return if done then Done else SqlError;
  }

  // ── one event into every projection ──────────────────────────────────────────

  lemma FoldAllStep(defs: seq<ProjectionDef>, i: nat, e: EventLike, ts: Tables)
    requires i < |defs|
    ensures var r := ApplyTo(defs[i], e, TableIn(ts, defs[i].TableOf()));
            FoldAll(defs[i..], e, ts)
            == if !r.Folded? then FoldAllResult(ts, OutcomeOf(r))
                else FoldAll(defs[i + 1..], e, FoldInto(defs[i], e, ts))
  {
    assert defs[i..][0] == defs[i] && defs[i..][1..] == defs[i + 1..];
  }

  /** A fold, or no fold, moves no other tenant's row. */
  lemma OthersKept(def: ProjectionDef, e: EventLike, before: Tables, after: Tables, folded: bool)
    requires forall name: string ::
             TableIn(after, name) == TableIn(if folded then FoldInto(def, e, before) else before, name)
    ensures OnlyTenant(before, after, e.tenant)
  {
    FoldIsLocal(def, e, TableIn(before, def.TableOf()));
  }

  /** How many of the projections send a statement for the event. */
  function Senders(defs: seq<ProjectionDef>, e: EventLike): nat {
    if defs == [] then 0 else (if Sends(defs[0], e) then 1 else 0) + Senders(defs[1..], e)
  }

  lemma SendersStep(defs: seq<ProjectionDef>, i: nat, e: EventLike)
    requires i < |defs|
    ensures Senders(defs[i..], e) == (if Sends(defs[i], e) then 1 else 0) + Senders(defs[i + 1..], e)
  {
    assert defs[i..][0] == defs[i] && defs[i..][1..] == defs[i + 1..];
  }

  /** Two lists of tables and a rest still to fold: what remains is as before. */
  ghost predicate SameRest(a: FoldAllResult, b: FoldAllResult) {
    a.outcome == b.outcome && SameViews(a.tables, b.tables)
  }

  lemma RestAfter(defs: seq<ProjectionDef>, i: nat, e: EventLike, whole: FoldAllResult, before: Tables, after: Tables)
    requires i < |defs| && SameRest(whole, FoldAll(defs[i..], e, before))
    requires Folds(defs[i], e, before) && SameViews(after, FoldInto(defs[i], e, before))
    ensures SameRest(whole, FoldAll(defs[i + 1..], e, after))
  {
    FoldAllStep(defs, i, e, before);
    SameTables(defs[i + 1..], e, FoldInto(defs[i], e, before), after);
  }

  lemma {:induction false} FoldAllPush(defs: seq<ProjectionDef>, i: nat, e: EventLike, ts: Tables)
    requires i < |defs| && FoldAll(defs[..i], e, ts).outcome.Done?
             && Folds(defs[i], e, FoldAll(defs[..i], e, ts).tables)
    ensures FoldAll(defs[..i + 1], e, ts) == FoldAllResult(FoldInto(defs[i], e, FoldAll(defs[..i], e, ts).tables), Done)
    decreases i
  {
    if i == 0 {
      assert defs[..1][1..] == [] && defs[..0] == [];
    } else {
      assert defs[..i][1..] == defs[1..][..i - 1] && defs[..i + 1][1..] == defs[1..][..i];
      FoldAllPush(defs[1..], i - 1, e, FoldInto(defs[0], e, ts));
    }
  }

  /** The tables after the folds of the first projections of the list. */
  ghost predicate FirstFolded(defs: seq<ProjectionDef>, e: EventLike, before: Tables, after: Tables, i: nat) {
    i <= |defs| && FoldAll(defs[..i], e, before).outcome.Done? && SameViews(after, FoldAll(defs[..i], e, before).tables)
  }

  /** Some of the list are folded, and no more. */
  ghost predicate PartFolded(defs: seq<ProjectionDef>, e: EventLike, before: Tables, after: Tables) {
    exists i: nat :: i < |defs| && FirstFolded(defs, e, before, after, i)
  }

  lemma StillFolded(defs: seq<ProjectionDef>, e: EventLike, start: Tables, before: Tables, after: Tables, i: nat)
    requires FirstFolded(defs, e, start, before, i) && SameViews(after, before)
    ensures FirstFolded(defs, e, start, after, i)
  {
    forall name: string ensures TableIn(after, name) == TableIn(FoldAll(defs[..i], e, start).tables, name) {
      assert TableIn(after, name) == TableIn(before, name);
    }
  }

  lemma OneMoreFolded(defs: seq<ProjectionDef>, e: EventLike, start: Tables, before: Tables, after: Tables, i: nat)
    requires i < |defs| && FirstFolded(defs, e, start, before, i)
    requires Folds(defs[i], e, before) && SameViews(after, FoldInto(defs[i], e, before))
    ensures FirstFolded(defs, e, start, after, i + 1)
  {
    var folded := FoldAll(defs[..i], e, start).tables;
    assert TableIn(before, defs[i].TableOf()) == TableIn(folded, defs[i].TableOf());
    FoldAllPush(defs, i, e, start);
    forall name: string ensures TableIn(after, name) == TableIn(FoldInto(defs[i], e, folded), name) {
      assert TableIn(after, name) == TableIn(FoldInto(defs[i], e, before), name)
          && TableIn(before, name) == TableIn(folded, name);
    }
  }

  /** The first i of a list are folded, and what remains is as if nothing had been. */
  ghost predicate FoldedTo(defs: seq<ProjectionDef>, e: EventLike, start: Tables, ts: Tables, i: nat) {
    && FirstFolded(defs, e, start, ts, i)
    && SameRest(FoldAll(defs, e, start), FoldAll(defs[i..], e, ts))
  }

  lemma FoldedOn(defs: seq<ProjectionDef>, e: EventLike, start: Tables, before: Tables, after: Tables, i: nat)
    requires i < |defs| && FoldedTo(defs, e, start, before, i)
    requires Folds(defs[i], e, before) && SameViews(after, FoldInto(defs[i], e, before))
    ensures FoldedTo(defs, e, start, after, i + 1)
  {
    RestAfter(defs, i, e, FoldAll(defs, e, start), before, after);
    OneMoreFolded(defs, e, start, before, after, i);
  }

  lemma FoldedNoFurther(defs: seq<ProjectionDef>, e: EventLike, start: Tables, before: Tables, after: Tables, i: nat)
    requires i < |defs| && FoldedTo(defs, e, start, before, i) && SameViews(after, before)
    ensures PartFolded(defs, e, start, after)
    ensures !Folds(defs[i], e, before) ==>
              SameRest(FoldAll(defs, e, start),
                       FoldAllResult(after, OutcomeOf(ApplyTo(defs[i], e, TableIn(before, defs[i].TableOf())))))
  {
    StillFolded(defs, e, start, before, after, i);
    FoldAllStep(defs, i, e, before);
  }

  /** The fold of the i-th of a list. */
  method FoldNext(db: Database, defs: seq<ProjectionDef>, i: nat, e: EventLike, now: int, ghost apart: bool,
                  ghost start: Tables)
    returns (r: Outcome)
    requires i < |defs| && Storable(defs[i])
    requires apart ==> !OverLog(defs[i]) && FoldedTo(defs, e, start, db.tables, i)
    modifies db`tables, db`budget, db.store`log
    ensures apart ==> db.store.log == old(db.store.log)
    ensures apart && r.Done? ==>
              && FoldedTo(defs, e, start, db.tables, i + 1)
              && (old(db.budget) >= Senders(defs[i..], e) <==> db.budget >= Senders(defs[i + 1..], e))
    ensures apart && !r.Done? ==>
              && PartFolded(defs, e, start, db.tables)
              && (old(db.budget) >= Senders(defs[i..], e) ==>
                  SameRest(FoldAll(defs, e, start), FoldAllResult(db.tables, r)))
    ensures OnlyTenant(old(db.tables), db.tables, e.tenant)
    ensures OthersIn(db.store.log, e.tenant) == OthersIn(old(db.store.log), e.tenant)
  {
    ghost var before := db.tables;
    SendersStep(defs, i, e);
    FoldErrorIsDeterministic(defs[i], e, TableIn(before, defs[i].TableOf()));
    FoldIsLocalInLog(defs[i], e, db.store.log, db.budget);
    r := ApplyRule(db, defs[i], e, now);
    OthersKept(defs[i], e, before, db.tables, r.Done? && !OverLog(defs[i]));
    if apart {
      if r.Done? {
        FoldedOn(defs, e, start, before, db.tables, i);
      } else {
        FoldedNoFurther(defs, e, start, before, db.tables, i);
      }
    }
  }

  /** `ApplyEvent` over the projections the index lists for the event. If none of them is over
      the log, it succeeds exactly when every fold does and the database takes a statement for
      each that sends one; while the database takes them it is the fold, and when it stops, what
      was folded before stays. It never touches another tenant. */
  method ApplyEvent(db: Database, defs: seq<ProjectionDef>, e: EventLike, now: int) returns (r: Outcome)
    requires forall d :: d in defs ==> Storable(d)
    modifies db`tables, db`budget, db.store`log
    ensures Elsewhere(defs, LOG_TABLE) ==>
              && db.store.log == old(db.store.log)
              && (r.Done? <==> FoldAll(defs, e, old(db.tables)).outcome.Done? && old(db.budget) >= Senders(defs, e))
              && (r.Done? || old(db.budget) >= Senders(defs, e) ==>
                  SameRest(FoldAll(defs, e, old(db.tables)), FoldAllResult(db.tables, r)))
              && (!r.Done? ==> PartFolded(defs, e, old(db.tables), db.tables))
    ensures OnlyTenant(old(db.tables), db.tables, e.tenant)
    ensures OthersIn(db.store.log, e.tenant) == OthersIn(old(db.store.log), e.tenant)
  {
    ghost var apart := Elsewhere(defs, LOG_TABLE);
    assert defs[0..] == defs;
    for i := 0 to |defs|
      invariant apart ==>
                  && db.store.log == old(db.store.log) && FoldedTo(defs, e, old(db.tables), db.tables, i)
                  && (old(db.budget) >= Senders(defs, e) <==> db.budget >= Senders(defs[i..], e))
      invariant OnlyTenant(old(db.tables), db.tables, e.tenant)
      invariant OthersIn(db.store.log, e.tenant) == OthersIn(old(db.store.log), e.tenant)
    {
      assert defs[i] in defs;
      r := FoldNext(db, defs, i, e, now, apart, old(db.tables));
      if !r.Done? {
        return;
      }
    }
    r := Done;
  }

  // ── rebuilds ─────────────────────────────────────────────────────────────────

  /** A rebuild in progress and how many more statements the database takes. */
  datatype Within = Within(state: ReplayState, left: nat)

  /** One event: of another tenant, refused, or taken as a replay takes it. */
  function StepWithin(def: ProjectionDef, tenant: string, w: Within, e: EventLike): Within {
    if w.state.failed || e.tenant != tenant then w
    else if Refused(w.left, def, e) then Within(w.state.(failed := true), Spent(w.left))
    else Within(ReplayStep(def, tenant, w.state, e), BudgetAfter(w.left, def, e))
  }

  function RefoldWithin(def: ProjectionDef, tenant: string, start: Within, events: seq<EventLike>): Within {
    if events == [] then start
    else StepWithin(def, tenant, RefoldWithin(def, tenant, start, events[..|events| - 1]), events[|events| - 1])
  }

  /** The wipe is the first statement. */
  function RebuildWithin(def: ProjectionDef, tenant: string, t: Table, events: seq<EventLike>, budget: nat): Within {
    if budget == 0 then Within(ReplayState(t, 0, true), 0)
    else RefoldWithin(def, tenant, Within(ReplayState(OtherRows(t, tenant), 0, false), budget - 1), events)
  }

  lemma WithinPrefix(def: ProjectionDef, tenant: string, start: Within, events: seq<EventLike>, i: nat)
    requires i < |events|
    ensures RefoldWithin(def, tenant, start, events[..i + 1])
            == StepWithin(def, tenant, RefoldWithin(def, tenant, start, events[..i]), events[i])
  {
    assert events[..i + 1][..i] == events[..i];
  }

  /** Once the database has refused, the rest of the log is not looked at. */
  lemma {:induction false} FailedForGood(def: ProjectionDef, tenant: string, start: Within, events: seq<EventLike>,
                                         i: nat)
    requires i <= |events| && RefoldWithin(def, tenant, start, events[..i]).state.failed
    ensures RefoldWithin(def, tenant, start, events) == RefoldWithin(def, tenant, start, events[..i])
    decreases |events|
  {
    if i == |events| {
      assert events[..i] == events;
    } else {
      var before := events[..|events| - 1];
      assert before[..i] == events[..i];
      FailedForGood(def, tenant, start, before, i);
    }
  }

  /** What is not refused has an outcome that does not depend on the log's own table. */
  lemma OutcomeOverLog(def: ProjectionDef, e: EventLike, budget: nat, t: Table, u: Table)
    requires OverLog(def)
    ensures OutcomeWhen(budget, def, e, t) == OutcomeWhen(budget, def, e, u)
  {
    FoldErrorIsDeterministic(def, e, t);
    FoldErrorIsDeterministic(def, e, u);
  }

  /** One event of a rebuild: what its outcome says of the replay. */
  lemma StepOutcome(def: ProjectionDef, tenant: string, w: Within, e: EventLike, r: Outcome)
    requires e.tenant == tenant && !w.state.failed && r == OutcomeWhen(w.left, def, e, w.state.table)
    ensures var after := StepWithin(def, tenant, w, e);
            && (after.state.failed <==> r.SqlError?) && after.left == BudgetAfter(w.left, def, e)
            && after.state.skipped == w.state.skipped + (if r.FoldError? then 1 else 0)
            && after.state.table == if r.Done? then ApplyTo(def, e, w.state.table).table else w.state.table
  {
    FoldErrorIsDeterministic(def, e, w.state.table);
  }

  /** The table a rebuild in progress writes is its state's, but over the log there is none. */
  predicate Writes(def: ProjectionDef, ts: Tables, w: Within) {
    !OverLog(def) ==> TableIn(ts, def.TableOf()) == w.state.table
  }

  /** One event of a rebuild in progress. */
  method RefoldOne(db: Database, def: ProjectionDef, tenant: string, e: EventLike, now: int, ghost w: Within)
    returns (r: Outcome)
    requires Storable(def) && e.tenant == tenant && !w.state.failed && db.budget == w.left && Writes(def, db.tables, w)
    requires OverLog(def) ==> NoneOf(db.store.log, tenant)
    modifies db`tables, db`budget, db.store`log
    ensures var after := StepWithin(def, tenant, w, e);
            && (after.state.failed <==> r.SqlError?) && db.budget == after.left && Writes(def, db.tables, after)
            && after.state.skipped == w.state.skipped + (if r.FoldError? then 1 else 0)
    ensures forall name: string :: name != def.TableOf() || OverLog(def) ==>
            TableIn(db.tables, name) == TableIn(old(db.tables), name)
    ensures db.store.log == old(db.store.log)
  {
    if OverLog(def) {
      OutcomeOverLog(def, e, db.budget, TableIn(db.tables, def.TableOf()), w.state.table);
      FoldIsLocalInLog(def, e, db.store.log, db.budget);
    }
    r := ApplyRule(db, def, e, now);
    StepOutcome(def, tenant, w, e, r);
  }

  /** `RebuildProjection`: wipe the tenant's rows, refold the log, count what it had to skip,
      stop where the database refuses. Over the log's own table the wipe is of the log. */
  method RebuildProjection(db: Database, def: ProjectionDef, tenant: string, events: seq<EventLike>, now: int)
    returns (skipped: nat, failed: bool)
    requires Storable(def)
    modifies db`tables, db`budget, db.store`log
    ensures var w := RebuildWithin(def, tenant, TableIn(old(db.tables), def.TableOf()), events, old(db.budget));
            skipped == w.state.skipped && failed == w.state.failed && db.budget == w.left && Writes(def, db.tables, w)
    ensures forall name: string :: name != def.TableOf() || OverLog(def) ==>
            TableIn(db.tables, name) == TableIn(old(db.tables), name)
    ensures db.store.log == LogAfterRebuild(def, tenant, old(db.store.log), old(db.budget))
  {
    skipped := 0;
    var wiped := WipeTenant(db, def.TableOf(), tenant);
    if !wiped {
      return 0, true;
    }
    ghost var start := Within(ReplayState(OtherRows(TableIn(old(db.tables), def.TableOf()), tenant), 0, false),
                              db.budget);
    ghost var w, log := start, db.store.log;
    NoneLeft(old(db.store.log), tenant);
    for i := 0 to |events|
      invariant w == RefoldWithin(def, tenant, start, events[..i]) && db.store.log == log
      invariant !w.state.failed && skipped == w.state.skipped && db.budget == w.left && Writes(def, db.tables, w)
      invariant forall name: string :: name != def.TableOf() || OverLog(def) ==>
                TableIn(db.tables, name) == TableIn(old(db.tables), name)
    {
      WithinPrefix(def, tenant, start, events, i);
      if events[i].tenant == tenant {
        var r := RefoldOne(db, def, tenant, events[i], now, w);
        w := StepWithin(def, tenant, w, events[i]);
        if r.FoldError? {
          skipped := skipped + 1;
        } else if r.SqlError? {
          FailedForGood(def, tenant, start, events, i + 1);
          return skipped, true;
        }
      }
    }
    assert events[..|events|] == events;
    failed := false;
  }

  lemma ReplayPrefix(def: ProjectionDef, tenant: string, t: Table, events: seq<EventLike>, i: nat)
    requires i < |events|
    ensures ReplayFrom(def, tenant, t, events[..i + 1])
            == ReplayStep(def, tenant, ReplayFrom(def, tenant, t, events[..i]), events[i])
  {
    ReplayExtends(def, tenant, t, events[..i], events[i]);
    assert events[..i] + [events[i]] == events[..i + 1];
  }

  /** How many statements refolding these events sends. */
  function RefoldStatements(def: ProjectionDef, tenant: string, events: seq<EventLike>): nat {
    if events == [] then 0
    else
      var e := events[|events| - 1];
      RefoldStatements(def, tenant, events[..|events| - 1]) + if e.tenant == tenant && Sends(def, e) then 1 else 0
  }

  /** What a rebuild that did not run to the end leaves: the wipe was refused, or the first n
      events were refolded and the next was refused. */
  ghost predicate CutShort(def: ProjectionDef, tenant: string, t: Table, events: seq<EventLike>, s: ReplayState) {
    || (s.table == t && s.skipped == 0)
    || exists n: nat :: StoppedAt(def, tenant, OtherRows(t, tenant), events, s, n)
  }

  ghost predicate StoppedAt(def: ProjectionDef, tenant: string, t: Table, events: seq<EventLike>, s: ReplayState,
                            n: nat) {
    n < |events| && s.failed && ReplayFrom(def, tenant, t, events[..n]) == s.(failed := false)
  }

  /** The replay of the events if that runs to the end and the budget reaches, and otherwise
      the replay of some of them. */
  ghost predicate KeptToBudget(def: ProjectionDef, tenant: string, t: Table, left: nat, events: seq<EventLike>,
                               w: Within) {
    var r := ReplayFrom(def, tenant, t, events);
    && (w.state.failed <==> r.failed || left < RefoldStatements(def, tenant, events))
    && (!w.state.failed ==> w.state == r && w.left == left - RefoldStatements(def, tenant, events))
    && (w.state.failed ==> exists n: nat :: StoppedAt(def, tenant, t, events, w.state, n))
  }

  lemma FailedKeepsTo(def: ProjectionDef, tenant: string, t: Table, left: nat, before: seq<EventLike>, e: EventLike,
                      w: Within)
    requires KeptToBudget(def, tenant, t, left, before, w) && w.state.failed
    ensures KeptToBudget(def, tenant, t, left, before + [e], w)
  {
    var n: nat :| StoppedAt(def, tenant, t, before, w.state, n);
    ReplayExtends(def, tenant, t, before, e);
    OneMoreStatement(def, tenant, before, e);
    assert (before + [e])[..n] == before[..n];
    assert StoppedAt(def, tenant, t, before + [e], w.state, n);
  }

  lemma OneMoreStatement(def: ProjectionDef, tenant: string, before: seq<EventLike>, e: EventLike)
    ensures RefoldStatements(def, tenant, before + [e])
            == RefoldStatements(def, tenant, before) + if e.tenant == tenant && Sends(def, e) then 1 else 0
  {
    assert (before + [e])[..|before|] == before;
  }

  lemma StepKeepsTo(def: ProjectionDef, tenant: string, t: Table, left: nat, before: seq<EventLike>, e: EventLike,
                    w: Within)
    requires !OverLog(def) && KeptToBudget(def, tenant, t, left, before, w) && !w.state.failed
    ensures KeptToBudget(def, tenant, t, left, before + [e], StepWithin(def, tenant, w, e))
  {
    ReplayExtends(def, tenant, t, before, e);
    OneMoreStatement(def, tenant, before, e);
    FoldErrorIsDeterministic(def, e, w.state.table);
    if StepWithin(def, tenant, w, e).state.failed {
      assert (before + [e])[..|before|] == before;
      assert StoppedAt(def, tenant, t, before + [e], StepWithin(def, tenant, w, e).state, |before|);
    }
  }

  lemma {:induction false} RefoldWithinBudget(def: ProjectionDef, tenant: string, t: Table, left: nat,
                                              events: seq<EventLike>)
    requires !OverLog(def)
    ensures KeptToBudget(def, tenant, t, left, events,
                         RefoldWithin(def, tenant, Within(ReplayState(t, 0, false), left), events))
    decreases |events|
  {
    if events != [] {
      var before, e := events[..|events| - 1], events[|events| - 1];
      var w := RefoldWithin(def, tenant, Within(ReplayState(t, 0, false), left), before);
      assert events == before + [e];
      RefoldWithinBudget(def, tenant, t, left, before);
      if w.state.failed {
        FailedKeepsTo(def, tenant, t, left, before, e, w);
      } else {
        StepKeepsTo(def, tenant, t, left, before, e, w);
      }
    }
  }

  /** When a rebuild fails, and what it leaves either way. */
  lemma RebuildWithinBudget(def: ProjectionDef, tenant: string, t: Table, events: seq<EventLike>, budget: nat)
    requires !OverLog(def)
    ensures var w := RebuildWithin(def, tenant, t, events, budget); var r := Rebuild(def, tenant, t, events);
            && (w.state.failed <==> r.failed || budget < 1 + RefoldStatements(def, tenant, events))
            && (!w.state.failed ==> w.state == r && w.left == budget - 1 - RefoldStatements(def, tenant, events))
            && (w.state.failed ==> CutShort(def, tenant, t, events, w.state))
  {
    if budget > 0 {
      RefoldWithinBudget(def, tenant, OtherRows(t, tenant), budget - 1, events);
    }
  }

  /** From these tables to those by a rebuild of one projection, clean or cut short. */
  ghost predicate Rebuilding(def: ProjectionDef, tenant: string, events: seq<EventLike>, ts: Tables, us: Tables,
                             clean: bool) {
    var t, u := TableIn(ts, def.TableOf()), TableIn(us, def.TableOf());
    && (forall name: string :: name != def.TableOf() ==> TableIn(us, name) == TableIn(ts, name))
    && if clean then !Rebuild(def, tenant, t, events).failed && u == Rebuild(def, tenant, t, events).table
       else exists s: ReplayState :: s.table == u && CutShort(def, tenant, t, events, s)
  }

  lemma CutShortIsLocal(def: ProjectionDef, tenant: string, t: Table, events: seq<EventLike>, s: ReplayState)
    requires CutShort(def, tenant, t, events, s)
    ensures OtherRows(s.table, tenant) == OtherRows(t, tenant)
  {
    if n: nat :| StoppedAt(def, tenant, OtherRows(t, tenant), events, s, n) {
      RebuildForgetsThePast(def, tenant, t, events[..n]);
    }
  }

  lemma RebuildingIsLocal(def: ProjectionDef, tenant: string, events: seq<EventLike>, ts: Tables, us: Tables,
                          clean: bool)
    requires Rebuilding(def, tenant, events, ts, us, clean)
    ensures OnlyTenant(ts, us, tenant)
  {
    var t := TableIn(ts, def.TableOf());
    if clean {
      RebuildForgetsThePast(def, tenant, t, events);
    } else {
      var s: ReplayState :| s.table == TableIn(us, def.TableOf()) && CutShort(def, tenant, t, events, s);
      CutShortIsLocal(def, tenant, t, events, s);
    }
  }

  /** The tables before and after each of the rebuilds of a list, all clean but the last of one
      that failed. */
  ghost predicate Trail(defs: seq<ProjectionDef>, tenant: string, events: seq<EventLike>, trail: seq<Tables>,
                        failed: bool) {
    && 1 <= |trail| <= |defs| + 1 && (if failed then |trail| > 1 else |trail| == |defs| + 1)
    && forall k: nat :: k < |trail| - 1 ==> TrailAt(defs, tenant, events, trail, failed, k)
  }

  ghost predicate TrailAt(defs: seq<ProjectionDef>, tenant: string, events: seq<EventLike>, trail: seq<Tables>,
                          failed: bool, k: nat) {
    && k < |defs| && k + 1 < |trail|
    && Rebuilding(defs[k], tenant, events, trail[k], trail[k + 1], !(failed && k == |trail| - 2))
  }

  /** What refolding the log for each of a list of projections sends. */
  function TotalStatements(defs: seq<ProjectionDef>, tenant: string, events: seq<EventLike>): nat {
    if defs == [] then 0
    else TotalStatements(defs[..|defs| - 1], tenant, events) + 1 + RefoldStatements(defs[|defs| - 1], tenant, events)
  }

  function TotalSkipped(defs: seq<ProjectionDef>, tenant: string, events: seq<EventLike>): nat {
    if defs == [] then 0
    else TotalSkipped(defs[..|defs| - 1], tenant, events) + Replay(defs[|defs| - 1], tenant, events).skipped
  }

  lemma TotalsStep(defs: seq<ProjectionDef>, tenant: string, events: seq<EventLike>, i: nat)
    requires i < |defs|
    ensures TotalStatements(defs[..i + 1], tenant, events)
            == TotalStatements(defs[..i], tenant, events) + 1 + RefoldStatements(defs[i], tenant, events)
    ensures TotalSkipped(defs[..i + 1], tenant, events)
            == TotalSkipped(defs[..i], tenant, events) + Replay(defs[i], tenant, events).skipped
  {
    assert defs[..i + 1][..i] == defs[..i];
  }

  lemma {:induction false} TotalStatementsGrow(defs: seq<ProjectionDef>, tenant: string, events: seq<EventLike>, i: nat)
    requires i <= |defs|
    ensures TotalStatements(defs[..i], tenant, events) <= TotalStatements(defs, tenant, events)
    decreases |defs|
  {
    if i == |defs| {
      assert defs[..i] == defs;
    } else {
      var before := defs[..|defs| - 1];
      assert before[..i] == defs[..i];
      TotalStatementsGrow(before, tenant, events, i);
    }
  }

  /** One rebuild of the list, against what is left of the budget. */
  lemma RebuildStep(def: ProjectionDef, tenant: string, events: seq<EventLike>, ts: Tables, us: Tables, w: Within,
                    budget: nat)
    requires !OverLog(def) && w == RebuildWithin(def, tenant, TableIn(ts, def.TableOf()), events, budget)
    requires TableIn(us, def.TableOf()) == w.state.table
    requires forall name: string :: name != def.TableOf() ==> TableIn(us, name) == TableIn(ts, name)
    ensures Rebuilding(def, tenant, events, ts, us, !w.state.failed)
    ensures w.state.failed <==> Replay(def, tenant, events).failed || budget < 1 + RefoldStatements(def, tenant, events)
    ensures !w.state.failed ==>
            w.state.skipped == Replay(def, tenant, events).skipped
            && w.left == budget - 1 - RefoldStatements(def, tenant, events)
  {
    RebuildWithinBudget(def, tenant, TableIn(ts, def.TableOf()), events, budget);
    RebuildForgetsThePast(def, tenant, TableIn(ts, def.TableOf()), events);
  }

  ghost predicate SomeReplayFails(defs: seq<ProjectionDef>, tenant: string, events: seq<EventLike>) {
    exists i :: 0 <= i < |defs| && Replay(defs[i], tenant, events).failed
  }

  /** The first i of a list are rebuilt, for so many statements and skips. */
  ghost predicate SoFar(defs: seq<ProjectionDef>, tenant: string, events: seq<EventLike>, trail: seq<Tables>, i: nat,
                        spent: int, skipped: nat) {
    && i <= |defs| && |trail| == i + 1 && (forall k: nat :: k < i ==> TrailAt(defs, tenant, events, trail, false, k))
    && spent == TotalStatements(defs[..i], tenant, events) && skipped == TotalSkipped(defs[..i], tenant, events)
    && !SomeReplayFails(defs[..i], tenant, events)
  }

  lemma TrailOn(defs: seq<ProjectionDef>, tenant: string, events: seq<EventLike>, trail: seq<Tables>, us: Tables,
                failed: bool)
    requires 1 <= |trail| <= |defs| && Rebuilding(defs[|trail| - 1], tenant, events, trail[|trail| - 1], us, !failed)
    requires forall k: nat :: k < |trail| - 1 ==> TrailAt(defs, tenant, events, trail, false, k)
    ensures forall k: nat :: k < |trail| ==> TrailAt(defs, tenant, events, trail + [us], failed, k)
  {
    forall k: nat | k < |trail| ensures TrailAt(defs, tenant, events, trail + [us], failed, k) {
      if k < |trail| - 1 {
        assert TrailAt(defs, tenant, events, trail, false, k);
      }
    }
  }

  lemma NoneFailsYet(defs: seq<ProjectionDef>, tenant: string, events: seq<EventLike>, i: nat)
    requires i < |defs| && !SomeReplayFails(defs[..i], tenant, events) && !Replay(defs[i], tenant, events).failed
    ensures !SomeReplayFails(defs[..i + 1], tenant, events)
  {
    var before, more := defs[..i], defs[..i + 1];
    forall j | 0 <= j < |more| ensures !Replay(more[j], tenant, events).failed {
      if j < i {
        assert more[j] == before[j];
      }
    }
  }

  lemma OneMoreRebuilt(defs: seq<ProjectionDef>, tenant: string, events: seq<EventLike>, trail: seq<Tables>, i: nat,
                       spent: int, skipped: nat, us: Tables, w: Within, budget: nat)
    requires SoFar(defs, tenant, events, trail, i, spent, skipped) && i < |defs| && !OverLog(defs[i])
    requires w == RebuildWithin(defs[i], tenant, TableIn(trail[i], defs[i].TableOf()), events, budget)
    requires TableIn(us, defs[i].TableOf()) == w.state.table
    requires forall name: string :: name != defs[i].TableOf() ==> TableIn(us, name) == TableIn(trail[i], name)
    ensures if w.state.failed then
              && Trail(defs, tenant, events, trail + [us], true)
              && (SomeReplayFails(defs, tenant, events) || spent + budget < TotalStatements(defs, tenant, events))
            else w.left <= budget && SoFar(defs, tenant, events, trail + [us], i + 1, spent + budget - w.left,
                                           skipped + w.state.skipped)
  {
    RebuildStep(defs[i], tenant, events, trail[i], us, w, budget);
    TrailOn(defs, tenant, events, trail, us, w.state.failed);
    TotalsStep(defs, tenant, events, i);
    if w.state.failed {
      TotalStatementsGrow(defs, tenant, events, i + 1);
    } else {
      NoneFailsYet(defs, tenant, events, i);
    }
  }

  lemma AllRebuilt(defs: seq<ProjectionDef>, tenant: string, events: seq<EventLike>, trail: seq<Tables>, spent: int,
                   skipped: nat)
    requires SoFar(defs, tenant, events, trail, |defs|, spent, skipped)
    ensures Trail(defs, tenant, events, trail, false) && !SomeReplayFails(defs, tenant, events)
    ensures spent == TotalStatements(defs, tenant, events) && skipped == TotalSkipped(defs, tenant, events)
  {
    assert defs[..|defs|] == defs;
  }

  /** The rebuild of the i-th of a list. */
  method RebuildNext(db: Database, defs: seq<ProjectionDef>, i: nat, tenant: string, events: seq<EventLike>, now: int,
                     ghost apart: bool, ghost trail: seq<Tables>, ghost spent: nat, ghost soFar: nat)
    returns (n: nat, failed: bool)
    requires i < |defs| && Storable(defs[i])
    requires apart ==> !OverLog(defs[i]) && SoFar(defs, tenant, events, trail, i, spent, soFar) && trail[i] == db.tables
    modifies db`tables, db`budget, db.store`log
    ensures OthersIn(db.store.log, tenant) == OthersIn(old(db.store.log), tenant)
    ensures apart ==>
              && db.store.log == old(db.store.log)
              && if failed then
                   && Trail(defs, tenant, events, trail + [db.tables], true)
                   && (SomeReplayFails(defs, tenant, events)
                       || spent + old(db.budget) < TotalStatements(defs, tenant, events))
                 else
                   && db.budget <= old(db.budget)
                   && SoFar(defs, tenant, events, trail + [db.tables], i + 1, spent + old(db.budget) - db.budget,
                            soFar + n)
  {
    NoneLeftTwice(defs[i], tenant, db.store.log, db.budget);
    n, failed := RebuildProjection(db, defs[i], tenant, events, now);
    if apart {
      ghost var w := RebuildWithin(defs[i], tenant, TableIn(trail[i], defs[i].TableOf()), events, old(db.budget));
      OneMoreRebuilt(defs, tenant, events, trail, i, spent, soFar, db.tables, w, old(db.budget));
    }
  }

  /** `RebuildTenant`: rebuild every projection, stopping at the first the database refuses.
      If none of them is over the log, it fails exactly when some replay does or the database
      stops taking statements before all are sent. */
  method RebuildTenant(db: Database, defs: seq<ProjectionDef>, tenant: string, events: seq<EventLike>, now: int)
    returns (skipped: nat, failed: bool, ghost trail: seq<Tables>)
    requires forall d :: d in defs ==> Storable(d)
    modifies db`tables, db`budget, db.store`log
    ensures Elsewhere(defs, LOG_TABLE) ==>
              && db.store.log == old(db.store.log)
              && Trail(defs, tenant, events, trail, failed) && trail[0] == old(db.tables)
              && trail[|trail| - 1] == db.tables
              && (failed <==>
                  SomeReplayFails(defs, tenant, events)
                  || old(db.budget) < TotalStatements(defs, tenant, events))
              && (!failed ==> skipped == TotalSkipped(defs, tenant, events))
    ensures OthersIn(db.store.log, tenant) == OthersIn(old(db.store.log), tenant)
  {
    skipped, failed, trail := 0, false, [db.tables];
    ghost var apart := Elsewhere(defs, LOG_TABLE);
    ghost var spent: nat := 0;
    for i := 0 to |defs|
      invariant OthersIn(db.store.log, tenant) == OthersIn(old(db.store.log), tenant)
      invariant apart ==>
                  && db.store.log == old(db.store.log) && old(db.budget) == db.budget + spent
                  && SoFar(defs, tenant, events, trail, i, spent, skipped) && trail[0] == old(db.tables)
                  && trail[i] == db.tables
      invariant |trail| == i + 1
    {
      ghost var budget := db.budget;
      assert defs[i] in defs;
      var n;
      n, failed := RebuildNext(db, defs, i, tenant, events, now, apart, trail, spent, skipped);
      skipped := skipped + n;
      trail := trail + [db.tables];
      if failed {
        return;
      }
      spent := if apart then spent + budget - db.budget else 0;
    }
    if apart {
      AllRebuilt(defs, tenant, events, trail, spent, skipped);
    }
  }

  lemma NoneLeftTwice(def: ProjectionDef, tenant: string, log: seq<StoredEvent>, budget: nat)
    ensures OthersIn(LogAfterRebuild(def, tenant, log, budget), tenant) == OthersIn(log, tenant)
  {
    NoneLeft(log, tenant);
    NothingToRemove(OthersIn(log, tenant), RowKey(tenant, ""));
  }

  /** With a table each, the rebuilds of a list that went through leave every table rebuilt. */
  lemma {:induction false} TrailRebuilds(defs: seq<ProjectionDef>, tenant: string, events: seq<EventLike>,
                                         trail: seq<Tables>, k: nat)
    requires DistinctTables(defs) && Trail(defs, tenant, events, trail, false) && k <= |defs|
    ensures forall j :: 0 <= j < k ==>
              var r := Rebuild(defs[j], tenant, TableIn(trail[0], defs[j].TableOf()), events);
              !r.failed && TableIn(trail[k], defs[j].TableOf()) == r.table
    ensures forall j :: k <= j < |defs| ==> TableIn(trail[k], defs[j].TableOf()) == TableIn(trail[0], defs[j].TableOf())
    decreases k
  {
    if k > 0 {
      TrailRebuilds(defs, tenant, events, trail, k - 1);
      assert TrailAt(defs, tenant, events, trail, false, k - 1);
    }
  }
}
