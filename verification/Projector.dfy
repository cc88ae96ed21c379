/** The fold: one event applied to one projection's table
    (go/internal/readmodel/projector.go, without `updated_at`). */
module Projector {
  import opened Basics
  import opened Binary64
  import opened JsonValues
  import opened Definitions
  import Decimal

  datatype RowKey = RowKey(tenant: string, id: string)

  /** The columns a row has been given; any other column of the table reads NULL. */
  type Row = map<string, Value>

  type Table = map<RowKey, Row>

  /** `NotFoldable` is the source's FoldError: it depends on the event and the definition
      alone. `SqlFailure` is the database refusing the statement. */
  datatype FoldResult = Folded(table: Table) | NotFoldable | SqlFailure

  // ── resolving a rule against a payload ───────────────────────────────────────

  predicate IsPathValue(v: Json) { v.Str? && HasPrefix(v.s, "$.") }

  function Stored(j: Json): Value {
    match j
    case Null => NullValue
    case Bool(b) => Number(if b then 1.0 else 0.0)
    case Num(d) => Number(d.Value())
    case Str(s) => Text(s)
    case _ => JsonText(j)
  }

  function ResolveSet(payload: Payload, v: Json): Value {
    if IsPathValue(v) then
      match AtPath(payload, v.s)
      case None => NullValue
      case Some(j) => Stored(j)
    else Stored(v)
  }

  function ResolveInc(payload: Payload, v: Json): Option<real> {
    if IsPathValue(v) then
      match AtPath(payload, v.s)
      case None => None
      case Some(j) => if j.Null? then Some(0.0) else AsNumber(j)
    else AsNumber(v)
  }

  function AsNumber(j: Json): Option<real> { if j.Num? then Some(j.d.Value()) else None }

  function KeyText(j: Json): Option<string> {
    match j
    case Str(s) => if s == "" then None else Some(s)
    case Num(d) => if IsWhole(d.Value()) && Exact(d.Value()) then Some(RenderWhole(d)) else None
    case _ => None
  }

  function ResolveKey(rule: OpRule, e: EventLike): Option<string> {
    if rule.key == "" then Some(e.streamId)
    else
      match AtPath(e.payload, rule.key)
      case None => None
      case Some(j) => KeyText(j)
  }

  // ── one fold ─────────────────────────────────────────────────────────────────

  function SetColumns(def: ProjectionDef, rule: OpRule): set<string> { rule.sets.Keys * def.columns.Keys }

  /** Rules on undeclared columns are dropped before they are resolved. */
  function IncColumns(def: ProjectionDef, rule: OpRule): set<string> { rule.incs.Keys * def.columns.Keys }

  function ResolveSets(def: ProjectionDef, rule: OpRule, payload: Payload): map<string, Value> {
    map c | c in SetColumns(def, rule) :: ResolveSet(payload, rule.sets[c])
  }

  function ResolveIncs(def: ProjectionDef, rule: OpRule, payload: Payload): Option<map<string, real>> {
    if forall c :: c in IncColumns(def, rule) ==> ResolveInc(payload, rule.incs[c]).Some?
    then Some(map c | c in IncColumns(def, rule) :: ResolveInc(payload, rule.incs[c]).value)
    else None
  }

  function Cell(row: Row, c: string): Value { if c in row then row[c] else NullValue }

  /** What `COALESCE(column, 0) + n` accepts. */
  predicate Addable(v: Value) { v.NullValue? || v.Number? }

  function Plus(v: Value, n: real): Value
    requires Addable(v)
  {
    if v.NullValue? then Number(n) else Number(v.n + n)
  }

  function RowAt(t: Table, k: RowKey): Row { if k in t then t[k] else map[] }

  predicate CanAdd(row: Row, incs: map<string, real>) { forall c :: c in incs ==> Addable(Cell(row, c)) }

  function Added(row: Row, incs: map<string, real>): map<string, Value>
    requires CanAdd(row, incs)
  {
    map c | c in incs :: Plus(Cell(row, c), incs[c])
  }

  function Merge(row: Row, sets: map<string, Value>, incs: map<string, real>): Row
    requires CanAdd(row, incs)
  {
    row + sets + Added(row, incs)
  }

  function ApplyTo(def: ProjectionDef, e: EventLike, t: Table): FoldResult {
    if e.eventType !in def.on then Folded(t)
    else
      var rule := def.on[e.eventType];
      match ResolveKey(rule, e)
      case None => NotFoldable
      case Some(id) =>
        var k := RowKey(e.tenant, id);
        if rule.op == "delete" then Folded(t - {k})
        else
          match ResolveIncs(def, rule, e.payload)
          case None => NotFoldable
          case Some(incs) =>
            if !CanAdd(RowAt(t, k), incs) then SqlFailure
            else Folded(t[k := Merge(RowAt(t, k), ResolveSets(def, rule, e.payload), incs)])
  }

  /** Whether the definition can fold the event at all, whatever is in the table. */
  predicate Foldable(def: ProjectionDef, e: EventLike) {
    e.eventType in def.on ==>
      var rule := def.on[e.eventType];
      ResolveKey(rule, e).Some? && (rule.op != "delete" ==> ResolveIncs(def, rule, e.payload).Some?)
  }

  lemma FoldErrorIsDeterministic(def: ProjectionDef, e: EventLike, t: Table)
    ensures ApplyTo(def, e, t).NotFoldable? <==> !Foldable(def, e)
  {
  }

  // ── a fold touches its own tenant's rows only ────────────────────────────────

  function TenantRows(t: Table, tenant: string): Table { map k | k in t && k.tenant == tenant :: t[k] }

  function OtherRows(t: Table, tenant: string): Table { map k | k in t && k.tenant != tenant :: t[k] }

  lemma SplitByTenant(t: Table, tenant: string)
    ensures t == TenantRows(t, tenant) + OtherRows(t, tenant)
  {
  }

  /** Folding reads and writes the rows of the event's tenant, and no other row. */
  lemma FoldIsLocal(def: ProjectionDef, e: EventLike, t: Table)
    ensures var mine := ApplyTo(def, e, TenantRows(t, e.tenant)); var all := ApplyTo(def, e, t);
            && (all.Folded? <==> mine.Folded?)
            && (all.SqlFailure? <==> mine.SqlFailure?)
            && (all.Folded? ==> TenantRows(all.table, e.tenant) == mine.table)
            && (all.Folded? ==> OtherRows(all.table, e.tenant) == OtherRows(t, e.tenant))
  {
    if e.eventType in def.on {
      var key := ResolveKey(def.on[e.eventType], e);
      if key.Some? {
        var k := RowKey(e.tenant, key.value);
        OwnRow(t, k);
        OneRowRemoved(t, k);
        if ApplyTo(def, e, t).Folded? && k in ApplyTo(def, e, t).table {
          OneRowWritten(t, k, ApplyTo(def, e, t).table[k]);
        }
      }
    }
  }

  lemma OwnRow(t: Table, k: RowKey)
    ensures RowAt(t, k) == RowAt(TenantRows(t, k.tenant), k)
  {
  }

  lemma OneRowRemoved(t: Table, k: RowKey)
    ensures TenantRows(t - {k}, k.tenant) == TenantRows(t, k.tenant) - {k}
    ensures OtherRows(t - {k}, k.tenant) == OtherRows(t, k.tenant)
  {
  }

  lemma OneRowWritten(t: Table, k: RowKey, row: Row)
    ensures TenantRows(t[k := row], k.tenant) == TenantRows(t, k.tenant)[k := row]
    ensures OtherRows(t[k := row], k.tenant) == OtherRows(t, k.tenant)
  {
  }

  // ── replaying a log ──────────────────────────────────────────────────────────

  /** A replay in progress. `failed` is set when the database refused a statement: the
      source then returns at once with what it has done so far. */
  datatype ReplayState = ReplayState(table: Table, skipped: nat, failed: bool)

  /** One event of a rebuild: events of other tenants are passed over, an event the
      definition cannot fold is counted and skipped. */
  function ReplayStep(def: ProjectionDef, tenant: string, s: ReplayState, e: EventLike): ReplayState {
    if s.failed || e.tenant != tenant then s
    else
      match ApplyTo(def, e, s.table)
      case Folded(t) => s.(table := t)
      case NotFoldable => s.(skipped := s.skipped + 1)
      case SqlFailure => s.(failed := true)
  }

  function ReplayFrom(def: ProjectionDef, tenant: string, t: Table, events: seq<EventLike>): ReplayState {
    if events == [] then ReplayState(t, 0, false)
    else ReplayStep(def, tenant, ReplayFrom(def, tenant, t, events[..|events| - 1]), events[|events| - 1])
  }

  /** The view a log defines: what a replay into an empty table leaves. */
  function Replay(def: ProjectionDef, tenant: string, events: seq<EventLike>): ReplayState {
    ReplayFrom(def, tenant, map[], events)
  }

  /** `RebuildProjection`: wipe the tenant's rows, then refold. */
  function Rebuild(def: ProjectionDef, tenant: string, t: Table, events: seq<EventLike>): ReplayState {
    ReplayFrom(def, tenant, OtherRows(t, tenant), events)
  }

  /** Rebuilding one more event is one skip-or-apply step on the rebuild before it. */
  lemma ReplayExtends(def: ProjectionDef, tenant: string, t: Table, events: seq<EventLike>, e: EventLike)
    ensures ReplayFrom(def, tenant, t, events + [e]) == ReplayStep(def, tenant, ReplayFrom(def, tenant, t, events), e)
  {
    assert (events + [e])[..|events|] == events;
  }

  lemma {:induction false} ReplayIsLocal(def: ProjectionDef, tenant: string, t: Table, events: seq<EventLike>)
    ensures var all := ReplayFrom(def, tenant, t, events);
            var mine := ReplayFrom(def, tenant, TenantRows(t, tenant), events);
            && TenantRows(all.table, tenant) == mine.table
            && OtherRows(all.table, tenant) == OtherRows(t, tenant)
            && all.skipped == mine.skipped && all.failed == mine.failed
  {
    if events != [] {
      var before := events[..|events| - 1];
      var e := events[|events| - 1];
      ReplayIsLocal(def, tenant, t, before);
      FoldIsLocal(def, e, ReplayFrom(def, tenant, t, before).table);
      FoldErrorIsDeterministic(def, e, ReplayFrom(def, tenant, t, before).table);
      FoldErrorIsDeterministic(def, e, ReplayFrom(def, tenant, TenantRows(t, tenant), before).table);
    }
  }

  /** A rebuild's result is a function of the definition and the log: the tenant's prior
      rows do not matter, and no other tenant's row moves. */
  lemma RebuildForgetsThePast(def: ProjectionDef, tenant: string, t: Table, events: seq<EventLike>)
    ensures var r := Rebuild(def, tenant, t, events); var replay := Replay(def, tenant, events);
            && TenantRows(r.table, tenant) == replay.table
            && OtherRows(r.table, tenant) == OtherRows(t, tenant)
            && r.skipped == replay.skipped && r.failed == replay.failed
  {
    ReplayIsLocal(def, tenant, OtherRows(t, tenant), events);
    assert TenantRows(OtherRows(t, tenant), tenant) == map[];
    assert OtherRows(OtherRows(t, tenant), tenant) == OtherRows(t, tenant);
  }

  /** A second rebuild from the same log changes nothing. */
  lemma RebuildIdempotent(def: ProjectionDef, tenant: string, t: Table, events: seq<EventLike>)
    ensures var once := Rebuild(def, tenant, t, events);
            Rebuild(def, tenant, once.table, events) == once
  {
    var once := Rebuild(def, tenant, t, events);
    var twice := Rebuild(def, tenant, once.table, events);
    RebuildForgetsThePast(def, tenant, t, events);
    RebuildForgetsThePast(def, tenant, once.table, events);
    SplitByTenant(once.table, tenant);
    SplitByTenant(twice.table, tenant);
  }

  /** How many of the tenant's events the definition cannot fold. */
  function Unfoldable(def: ProjectionDef, tenant: string, events: seq<EventLike>): nat {
    |Filter((e: EventLike) => e.tenant == tenant && !Foldable(def, e), events)|
  }

  lemma OneMoreUnfoldable(def: ProjectionDef, tenant: string, events: seq<EventLike>, e: EventLike)
    ensures Unfoldable(def, tenant, events + [e])
            == Unfoldable(def, tenant, events) + if e.tenant == tenant && !Foldable(def, e) then 1 else 0
  {
    var p := (e: EventLike) => e.tenant == tenant && !Foldable(def, e);
    FilterAppend(p, events, [e]);
    assert [e][1..] == [];
  }

  /** A rebuild that ran to the end reports exactly the events that cannot be folded, from
      whatever table it started; one the database stopped reports no more than those. */
  lemma {:induction false} SkippedIsExact(def: ProjectionDef, tenant: string, t: Table, events: seq<EventLike>)
    ensures var r := ReplayFrom(def, tenant, t, events);
            && r.skipped <= Unfoldable(def, tenant, events)
            && (!r.failed ==> r.skipped == Unfoldable(def, tenant, events))
  {
    if events != [] {
      var before, e := events[..|events| - 1], events[|events| - 1];
      assert events == before + [e];
      SkippedIsExact(def, tenant, t, before);
      FoldErrorIsDeterministic(def, e, ReplayFrom(def, tenant, t, before).table);
      OneMoreUnfoldable(def, tenant, before, e);
    }
  }
}
