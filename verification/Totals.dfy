/** What a replayed table holds, in closed form: which rows exist, what an `inc` column
    adds up to, and when the order of events does not matter. */
module Totals {
  import opened Basics
  import opened JsonValues
  import opened Definitions
  import opened Projector
  import opened Paths
  import opened Text
  import Binary64

  // ── what one event means to one row ──────────────────────────────────────────

  predicate Targets(def: ProjectionDef, e: EventLike, k: RowKey) {
    e.tenant == k.tenant && e.eventType in def.on && ResolveKey(def.on[e.eventType], e) == Some(k.id)
  }

  predicate Deletes(def: ProjectionDef, e: EventLike, k: RowKey) {
    Targets(def, e, k) && def.on[e.eventType].op == "delete"
  }

  /** The event upserts row k: it names it, and every increment of its rule resolves. */
  predicate Upserts(def: ProjectionDef, e: EventLike, k: RowKey) {
    Targets(def, e, k) && def.on[e.eventType].op != "delete" && ResolveIncs(def, def.on[e.eventType], e.payload).Some?
  }

  predicate Feeds(def: ProjectionDef, e: EventLike, k: RowKey, c: string) {
    Upserts(def, e, k) && c in IncColumns(def, def.on[e.eventType])
  }

  function Increment(def: ProjectionDef, e: EventLike, k: RowKey, c: string): real
    requires Feeds(def, e, k, c)
  {
    ResolveInc(e.payload, def.on[e.eventType].incs[c]).value
  }

  /** Where the row's present life starts: just after the last event that deletes it. */
  function AliveFrom(def: ProjectionDef, events: seq<EventLike>, k: RowKey): (d: nat)
    ensures d <= |events|
    ensures forall j :: d <= j < |events| ==> !Deletes(def, events[j], k)
    ensures d > 0 ==> Deletes(def, events[d - 1], k)
  {
    if events == [] then 0
    else if Deletes(def, events[|events| - 1], k) then |events|
    else AliveFrom(def, events[..|events| - 1], k)
  }

  /** The sum of the increments a stretch of log feeds to one cell. */
  function Total(def: ProjectionDef, events: seq<EventLike>, k: RowKey, c: string): real {
    if events == [] then 0.0
    else
      var e := events[|events| - 1];
      Total(def, events[..|events| - 1], k, c) + if Feeds(def, e, k, c) then Increment(def, e, k, c) else 0.0
  }

  predicate Fed(def: ProjectionDef, events: seq<EventLike>, k: RowKey, c: string) {
    exists i :: 0 <= i < |events| && Feeds(def, events[i], k, c)
  }

  predicate Upserted(def: ProjectionDef, events: seq<EventLike>, k: RowKey) {
    exists i :: 0 <= i < |events| && Upserts(def, events[i], k)
  }

  // ── which columns only ever grow by inc ──────────────────────────────────────

  predicate IncOnly(def: ProjectionDef, c: string) {
    forall evt :: evt in def.on ==> c !in def.on[evt].sets
  }

  /** No rule adds to a column another rule (or the same one) assigns. */
  predicate PureCounters(def: ProjectionDef) {
    forall evt, c :: evt in def.on && c in def.on[evt].incs && c in def.columns ==> IncOnly(def, c)
  }

  /** Every counter cell can be added to. */
  ghost predicate CountersAddable(def: ProjectionDef, t: Table) {
    forall k :: k in t ==> RowAddable(def, t[k])
  }

  lemma FoldKeepsCounters(def: ProjectionDef, e: EventLike, t: Table)
    requires PureCounters(def) && CountersAddable(def, t)
    ensures !ApplyTo(def, e, t).SqlFailure?
    ensures ApplyTo(def, e, t).Folded? ==> CountersAddable(def, ApplyTo(def, e, t).table)
  {
    if e.eventType in def.on && ResolveKey(def.on[e.eventType], e).Some? {
      var rule := def.on[e.eventType];
      var k := RowKey(e.tenant, ResolveKey(rule, e).value);
      var incs := ResolveIncs(def, rule, e.payload);
      if rule.op != "delete" && incs.Some? {
        MergeKeepsCounters(def, e.eventType, RowAt(t, k), ResolveSets(def, rule, e.payload), incs.value);
      }
    }
  }

  ghost predicate RowAddable(def: ProjectionDef, row: Row) {
    forall c :: c in row && IncOnly(def, c) ==> Addable(row[c])
  }

  lemma MergeKeepsCounters(def: ProjectionDef, evt: string, row: Row, sets: map<string, Value>, incs: map<string, real>)
    requires PureCounters(def) && evt in def.on && RowAddable(def, row)
    requires sets.Keys == SetColumns(def, def.on[evt]) && incs.Keys == IncColumns(def, def.on[evt])
    ensures CanAdd(row, incs) && RowAddable(def, Merge(row, sets, incs))
  {
    forall c | c in incs ensures IncOnly(def, c) && Addable(Cell(row, c)) {
      assert c in def.on[evt].incs && c in def.columns;
    }
  }

  /** With counters kept apart from assigned columns the database never has to add to
      text, so a replay always runs to the end. */
  lemma {:induction false} CountersNeverFail(def: ProjectionDef, tenant: string, events: seq<EventLike>)
    requires PureCounters(def)
    ensures !Replay(def, tenant, events).failed
    ensures CountersAddable(def, Replay(def, tenant, events).table)
  {
    if events != [] {
      CountersNeverFail(def, tenant, events[..|events| - 1]);
      FoldKeepsCounters(def, events[|events| - 1], Replay(def, tenant, events[..|events| - 1]).table);
    }
  }

  // ── rows and cells in closed form ────────────────────────────────────────────

  /** How one fold changes one row and one inc-only cell. */
  lemma OtherOnRow(def: ProjectionDef, e: EventLike, t: Table, k: RowKey)
    requires ApplyTo(def, e, t).Folded? && !Deletes(def, e, k) && !Upserts(def, e, k)
    ensures var after := ApplyTo(def, e, t).table; RowAt(after, k) == RowAt(t, k) && (k in after <==> k in t)
  {
  }

  lemma UpsertOnCell(def: ProjectionDef, e: EventLike, t: Table, k: RowKey, c: string)
    requires ApplyTo(def, e, t).Folded? && IncOnly(def, c) && Upserts(def, e, k)
    ensures var after := ApplyTo(def, e, t).table;
            && k in after
            && (Feeds(def, e, k, c) ==>
                && Addable(Cell(RowAt(t, k), c))
                && Cell(after[k], c) == Plus(Cell(RowAt(t, k), c), Increment(def, e, k, c)))
            && (!Feeds(def, e, k, c) ==> Cell(after[k], c) == Cell(RowAt(t, k), c))
  {
  }

  /** The closed form of one row and one of its cells, over the row's present life. */
  ghost predicate MatchesLife(def: ProjectionDef, t: Table, life: seq<EventLike>, k: RowKey, c: string) {
    && (k in t <==> Upserted(def, life, k))
    && Cell(RowAt(t, k), c) == if Fed(def, life, k, c) then Number(Total(def, life, k, c)) else NullValue
  }

  lemma FoldExtendsLife(def: ProjectionDef, e: EventLike, t: Table, life: seq<EventLike>, k: RowKey, c: string)
    requires IncOnly(def, c) && ApplyTo(def, e, t).Folded? && MatchesLife(def, t, life, k, c)
    ensures MatchesLife(def, ApplyTo(def, e, t).table, if Deletes(def, e, k) then [] else life + [e], k, c)
  {
    if Deletes(def, e, k) {
      DeleteEndsLife(def, e, t, k, c);
    } else if Upserts(def, e, k) {
      UpsertExtendsLife(def, e, t, life, k, c);
    } else {
      OtherKeepsLife(def, e, t, life, k, c);
    }
  }

  lemma DeleteEndsLife(def: ProjectionDef, e: EventLike, t: Table, k: RowKey, c: string)
    requires ApplyTo(def, e, t).Folded? && Deletes(def, e, k)
    ensures MatchesLife(def, ApplyTo(def, e, t).table, [], k, c)
  {
    assert !Upserted(def, [], k) && !Fed(def, [], k, c);
  }

  lemma OtherKeepsLife(def: ProjectionDef, e: EventLike, t: Table, life: seq<EventLike>, k: RowKey, c: string)
    requires IncOnly(def, c) && ApplyTo(def, e, t).Folded? && MatchesLife(def, t, life, k, c)
    requires !Deletes(def, e, k) && !Upserts(def, e, k)
    ensures MatchesLife(def, ApplyTo(def, e, t).table, life + [e], k, c)
  {
    OtherOnRow(def, e, t, k);
    ExtendLife(def, life, e, k, c);
  }

  lemma UpsertExtendsLife(def: ProjectionDef, e: EventLike, t: Table, life: seq<EventLike>, k: RowKey, c: string)
    requires IncOnly(def, c) && ApplyTo(def, e, t).Folded? && MatchesLife(def, t, life, k, c) && Upserts(def, e, k)
    ensures MatchesLife(def, ApplyTo(def, e, t).table, life + [e], k, c)
  {
    UpsertOnCell(def, e, t, k, c);
    ExtendLife(def, life, e, k, c);
    CellGrows(def, e, t, ApplyTo(def, e, t).table, life, k, c);
  }

  /** The cell of a row that was just upserted, against the longer life. */
  lemma CellGrows(def: ProjectionDef, e: EventLike, t: Table, after: Table, life: seq<EventLike>, k: RowKey, c: string)
    requires Upserts(def, e, k) && MatchesLife(def, t, life, k, c) && k in after
    requires if Feeds(def, e, k, c) then
               && Addable(Cell(RowAt(t, k), c))
               && Cell(after[k], c) == Plus(Cell(RowAt(t, k), c), Increment(def, e, k, c))
             else Cell(after[k], c) == Cell(RowAt(t, k), c)
    requires Upserted(def, life + [e], k)
    requires Fed(def, life + [e], k, c) <==> Fed(def, life, k, c) || Feeds(def, e, k, c)
    requires Total(def, life + [e], k, c)
             == Total(def, life, k, c) + if Feeds(def, e, k, c) then Increment(def, e, k, c) else 0.0
    requires !Fed(def, life, k, c) ==> Total(def, life, k, c) == 0.0
    ensures MatchesLife(def, after, life + [e], k, c)
  {
  }

  lemma SkippedKeepsLife(def: ProjectionDef, e: EventLike, t: Table, life: seq<EventLike>, k: RowKey, c: string)
    requires !Targets(def, e, k) || !Foldable(def, e)
    requires MatchesLife(def, t, life, k, c)
    ensures !Deletes(def, e, k) && MatchesLife(def, t, life + [e], k, c)
  {
    ExtendLife(def, life, e, k, c);
  }

  /** A row exists exactly when some event has upserted it since it was last deleted, and
      an inc-only cell is NULL exactly when nothing has fed it since then; otherwise it is
      the sum of what was fed, whichever streams the events came from. */
  lemma {:induction false} CellIsTotal(def: ProjectionDef, tenant: string, events: seq<EventLike>, k: RowKey, c: string)
    requires k.tenant == tenant && IncOnly(def, c)
    requires !Replay(def, tenant, events).failed
    ensures MatchesLife(def, Replay(def, tenant, events).table, events[AliveFrom(def, events, k)..], k, c)
  {
    if events != [] {
      var before := events[..|events| - 1];
      var e := events[|events| - 1];
      var d := AliveFrom(def, before, k);
      CellIsTotal(def, tenant, before, k, c);
      assert events[d..] == before[d..] + [e];
      assert events[|events|..] == [];
      StepExtendsLife(def, tenant, Replay(def, tenant, before), e, before[d..], k, c);
    }
  }

  lemma StepExtendsLife(def: ProjectionDef, tenant: string, s: ReplayState, e: EventLike, life: seq<EventLike>,
                        k: RowKey, c: string)
    requires k.tenant == tenant && IncOnly(def, c) && !ReplayStep(def, tenant, s, e).failed
             && MatchesLife(def, s.table, life, k, c)
    ensures MatchesLife(def, ReplayStep(def, tenant, s, e).table, if Deletes(def, e, k) then [] else life + [e], k, c)
  {
    if e.tenant == tenant && ApplyTo(def, e, s.table).Folded? {
      FoldExtendsLife(def, e, s.table, life, k, c);
    } else {
      FoldErrorIsDeterministic(def, e, s.table);
      SkippedKeepsLife(def, e, s.table, life, k, c);
    }
  }

  lemma ExtendLife(def: ProjectionDef, life: seq<EventLike>, e: EventLike, k: RowKey, c: string)
    ensures Upserted(def, life + [e], k) <==> Upserted(def, life, k) || Upserts(def, e, k)
    ensures Fed(def, life + [e], k, c) <==> Fed(def, life, k, c) || Feeds(def, e, k, c)
    ensures Total(def, life + [e], k, c)
            == Total(def, life, k, c) + if Feeds(def, e, k, c) then Increment(def, e, k, c) else 0.0
    ensures !Fed(def, life, k, c) ==> Total(def, life, k, c) == 0.0
  {
    var longer := life + [e];
    assert longer[..|life|] == life && longer[|life|] == e;
    assert forall i :: 0 <= i < |life| ==> longer[i] == life[i];
    if !Fed(def, life, k, c) {
      UnfedIsZero(def, life, k, c);
    }
  }

  lemma {:induction false} UnfedIsZero(def: ProjectionDef, life: seq<EventLike>, k: RowKey, c: string)
    requires !Fed(def, life, k, c)
    ensures Total(def, life, k, c) == 0.0
  {
    if life != [] {
      var before := life[..|life| - 1];
      assert forall i :: 0 <= i < |before| ==> before[i] == life[i];
      UnfedIsZero(def, before, k, c);
    }
  }

  // ── the grand total ──────────────────────────────────────────────────────────

  function AsReal(v: Value): real { if v.Number? then v.n else 0.0 }

  ghost function SumOver(keys: set<RowKey>, t: Table, c: string): real {
    if keys == {} then 0.0
    else var k :| k in keys; AsReal(Cell(RowAt(t, k), c)) + SumOver(keys - {k}, t, c)
  }

  /** The column added up over every row of the table. */
  ghost function ColumnSum(t: Table, c: string): real { SumOver(t.Keys, t, c) }

  lemma {:induction false} SumPick(keys: set<RowKey>, t: Table, c: string, k: RowKey)
    requires k in keys
    ensures SumOver(keys, t, c) == AsReal(Cell(RowAt(t, k), c)) + SumOver(keys - {k}, t, c)
  {
    var j :| j in keys && SumOver(keys, t, c) == AsReal(Cell(RowAt(t, j), c)) + SumOver(keys - {j}, t, c);
    if j != k {
      SumPick(keys - {j}, t, c, k);
      SumPick(keys - {k}, t, c, j);
      assert keys - {j} - {k} == keys - {k} - {j};
    }
  }

  lemma {:induction false} SumFrame(keys: set<RowKey>, t: Table, u: Table, c: string)
    requires forall k :: k in keys ==> RowAt(t, k) == RowAt(u, k)
    ensures SumOver(keys, t, c) == SumOver(keys, u, c)
  {
    if keys != {} {
      var k :| k in keys && SumOver(keys, t, c) == AsReal(Cell(RowAt(t, k), c)) + SumOver(keys - {k}, t, c);
      SumFrame(keys - {k}, t, u, c);
      SumPick(keys, u, c, k);
    }
  }

  /** Writing one row moves the column sum by what that row's cell moved. */
  lemma SumUpdate(t: Table, c: string, k: RowKey, row: Row)
    ensures ColumnSum(t[k := row], c) == ColumnSum(t, c) - AsReal(Cell(RowAt(t, k), c)) + AsReal(Cell(row, c))
  {
    var u := t[k := row];
    SumPick(u.Keys, u, c, k);
    SumFrame(t.Keys - {k}, t, u, c);
    assert u.Keys - {k} == t.Keys - {k};
    if k in t {
      SumPick(t.Keys, t, c, k);
    } else {
      assert t.Keys - {k} == t.Keys;
    }
  }

  /** What one event adds to the column, wherever it lands. */
  function Contribution(def: ProjectionDef, tenant: string, e: EventLike, c: string): real {
    if e.tenant == tenant && e.eventType in def.on && ResolveKey(def.on[e.eventType], e).Some? then
      var k := RowKey(tenant, ResolveKey(def.on[e.eventType], e).value);
      if Feeds(def, e, k, c) then Increment(def, e, k, c) else 0.0
    else 0.0
  }

  function GrandTotal(def: ProjectionDef, tenant: string, events: seq<EventLike>, c: string): real {
    if events == [] then 0.0
    else GrandTotal(def, tenant, events[..|events| - 1], c) + Contribution(def, tenant, events[|events| - 1], c)
  }

  ghost predicate NoDeletes(def: ProjectionDef, events: seq<EventLike>) {
    forall i, k :: 0 <= i < |events| ==> !Deletes(def, events[i], k)
  }

  /** With no deletes, summing an inc-only column over all rows gives the sum over all the
      events the projection folded: nothing is counted twice and nothing is lost, however
      the keys split the events into rows. */
  lemma {:induction false} ColumnSumIsGrandTotal(def: ProjectionDef, tenant: string, events: seq<EventLike>, c: string)
    requires IncOnly(def, c) && NoDeletes(def, events)
    requires !Replay(def, tenant, events).failed
    ensures ColumnSum(Replay(def, tenant, events).table, c) == GrandTotal(def, tenant, events, c)
  {
    if events != [] {
      var before := events[..|events| - 1];
      var e := events[|events| - 1];
      var t := Replay(def, tenant, before).table;
      assert forall i :: 0 <= i < |before| ==> before[i] == events[i];
      ColumnSumIsGrandTotal(def, tenant, before, c);
      if e.tenant == tenant && ApplyTo(def, e, t).Folded? && e.eventType in def.on {
        var k := RowKey(tenant, ResolveKey(def.on[e.eventType], e).value);
        assert !Deletes(def, e, k);
        assert Upserts(def, e, k);
        UpsertOnCell(def, e, t, k, c);
        SumUpdate(t, c, k, ApplyTo(def, e, t).table[k]);
        assert ApplyTo(def, e, t).table == t[k := ApplyTo(def, e, t).table[k]];
      }
    }
  }

  // ── order independence ───────────────────────────────────────────────────────

  /** Every rule only increments: nothing it assigns is a declared column, nothing deletes. */
  predicate OnlyIncrements(def: ProjectionDef) {
    forall evt :: evt in def.on ==> def.on[evt].op != "delete" && SetColumns(def, def.on[evt]) == {}
  }

  ghost predicate AllAddable(t: Table) { forall k, c :: k in t && c in t[k] ==> Addable(t[k][c]) }

  lemma IncrementFolds(def: ProjectionDef, e: EventLike, t: Table)
    requires OnlyIncrements(def) && AllAddable(t)
    ensures !ApplyTo(def, e, t).SqlFailure?
    ensures ApplyTo(def, e, t).Folded? ==> AllAddable(ApplyTo(def, e, t).table)
  {
  }

  lemma MergeAt(row: Row, incs: map<string, real>, c: string)
    requires CanAdd(row, incs)
    ensures c in Merge(row, map[], incs) <==> c in row || c in incs
    ensures Cell(Merge(row, map[], incs), c) == if c in incs then Plus(Cell(row, c), incs[c]) else Cell(row, c)
  {
  }

  lemma AddingKeepsAddable(row: Row, a: map<string, real>, b: map<string, real>)
    requires CanAdd(row, a) && CanAdd(row, b)
    ensures CanAdd(Merge(row, map[], a), b)
  {
    forall c | c in b ensures Addable(Cell(Merge(row, map[], a), c)) {
      MergeAt(row, a, c);
    }
  }

  lemma AddingAt(row: Row, a: map<string, real>, b: map<string, real>, c: string)
    requires CanAdd(row, a) && CanAdd(row, b) && CanAdd(Merge(row, map[], a), b)
    ensures var r := Merge(Merge(row, map[], a), map[], b);
            && (c in r <==> c in row || c in a || c in b)
            && Cell(r, c) == if c in a && c in b then Plus(Cell(row, c), a[c] + b[c])
                             else if c in a then Plus(Cell(row, c), a[c])
                             else if c in b then Plus(Cell(row, c), b[c]) else Cell(row, c)
  {
    MergeAt(row, a, c);
    MergeAt(Merge(row, map[], a), b, c);
  }

  lemma AddingCommutes(row: Row, a: map<string, real>, b: map<string, real>)
    requires CanAdd(row, a) && CanAdd(row, b)
    ensures CanAdd(Merge(row, map[], a), b) && CanAdd(Merge(row, map[], b), a)
    ensures Merge(Merge(row, map[], a), map[], b) == Merge(Merge(row, map[], b), map[], a)
  {
    AddingKeepsAddable(row, a, b);
    AddingKeepsAddable(row, b, a);
    var x, y := Merge(Merge(row, map[], a), map[], b), Merge(Merge(row, map[], b), map[], a);
    forall c: string ensures (c in x <==> c in y) && Cell(x, c) == Cell(y, c) {
      AddingAt(row, a, b, c);
      AddingAt(row, b, a, c);
    }
    SameCells(x, y);
  }

  lemma SameCells(r: Row, q: Row)
    requires forall c: string :: (c in r <==> c in q) && Cell(r, c) == Cell(q, c)
    ensures r == q
  {
    assert forall c :: c in r ==> r[c] == Cell(r, c);
    assert forall c :: c in q ==> q[c] == Cell(q, c);
  }

  function AddToRow(t: Table, k: RowKey, incs: map<string, real>): Table
    requires CanAdd(RowAt(t, k), incs)
  {
    t[k := Merge(RowAt(t, k), map[], incs)]
  }

  lemma AddToRowCommutes(t: Table, k: RowKey, a: map<string, real>, l: RowKey, b: map<string, real>)
    requires CanAdd(RowAt(t, k), a) && CanAdd(RowAt(t, l), b)
    ensures CanAdd(RowAt(AddToRow(t, k, a), l), b) && CanAdd(RowAt(AddToRow(t, l, b), k), a)
    ensures AddToRow(AddToRow(t, k, a), l, b) == AddToRow(AddToRow(t, l, b), k, a)
  {
    var rk := Merge(RowAt(t, k), map[], a);
    var rl := Merge(RowAt(t, l), map[], b);
    if k == l {
      AddingCommutes(RowAt(t, k), a, b);
      OverwriteRow(t, k, rk, Merge(rk, map[], b));
      OverwriteRow(t, k, rl, Merge(rl, map[], a));
    } else {
      SwapRows(t, k, rk, l, rl);
    }
  }

  lemma OverwriteRow(t: Table, k: RowKey, first: Row, second: Row)
    ensures RowAt(t[k := first], k) == first && t[k := first][k := second] == t[k := second]
  {
  }

  lemma SwapRows(t: Table, k: RowKey, rk: Row, l: RowKey, rl: Row)
    requires k != l
    ensures RowAt(t[k := rk], l) == RowAt(t, l) && RowAt(t[l := rl], k) == RowAt(t, k)
    ensures t[k := rk][l := rl] == t[l := rl][k := rk]
  {
  }

  function RowOf(def: ProjectionDef, e: EventLike): RowKey
    requires e.eventType in def.on && ResolveKey(def.on[e.eventType], e).Some?
  {
    RowKey(e.tenant, ResolveKey(def.on[e.eventType], e).value)
  }

  function IncsOf(def: ProjectionDef, e: EventLike): map<string, real>
    requires e.eventType in def.on && ResolveIncs(def, def.on[e.eventType], e.payload).Some?
  {
    ResolveIncs(def, def.on[e.eventType], e.payload).value
  }

  /** An increment-only fold in one line. */
  lemma IncrementFold(def: ProjectionDef, e: EventLike, t: Table)
    requires OnlyIncrements(def) && e.eventType in def.on && ApplyTo(def, e, t).Folded?
    ensures ResolveKey(def.on[e.eventType], e).Some? && ResolveIncs(def, def.on[e.eventType], e.payload).Some?
    ensures CanAdd(RowAt(t, RowOf(def, e)), IncsOf(def, e))
    ensures ApplyTo(def, e, t).table == AddToRow(t, RowOf(def, e), IncsOf(def, e))
  {
    assert ResolveSets(def, def.on[e.eventType], e.payload) == map[];
  }

  lemma FoldsCommute(def: ProjectionDef, x: EventLike, y: EventLike, t: Table)
    requires OnlyIncrements(def) && AllAddable(t)
    requires ApplyTo(def, x, t).Folded? && ApplyTo(def, y, t).Folded?
    ensures ApplyTo(def, y, ApplyTo(def, x, t).table) == ApplyTo(def, x, ApplyTo(def, y, t).table)
  {
    if x.eventType in def.on && y.eventType in def.on {
      IncrementFold(def, x, t);
      IncrementFold(def, y, t);
      BothFold(def, x, y, t);
      IncrementFold(def, y, ApplyTo(def, x, t).table);
      IncrementFold(def, x, ApplyTo(def, y, t).table);
      AddToRowCommutes(t, RowOf(def, x), IncsOf(def, x), RowOf(def, y), IncsOf(def, y));
    }
  }

  lemma BothFold(def: ProjectionDef, x: EventLike, y: EventLike, t: Table)
    requires OnlyIncrements(def) && AllAddable(t)
    requires ApplyTo(def, x, t).Folded? && ApplyTo(def, y, t).Folded?
    ensures ApplyTo(def, y, ApplyTo(def, x, t).table).Folded? && ApplyTo(def, x, ApplyTo(def, y, t).table).Folded?
  {
    IncrementFolds(def, x, t);
    IncrementFolds(def, y, t);
    IncrementFolds(def, y, ApplyTo(def, x, t).table);
    IncrementFolds(def, x, ApplyTo(def, y, t).table);
    FoldErrorIsDeterministic(def, x, t);
    FoldErrorIsDeterministic(def, y, t);
    FoldErrorIsDeterministic(def, y, ApplyTo(def, x, t).table);
    FoldErrorIsDeterministic(def, x, ApplyTo(def, y, t).table);
  }

  lemma StepsCommute(def: ProjectionDef, tenant: string, s: ReplayState, x: EventLike, y: EventLike)
    requires OnlyIncrements(def) && AllAddable(s.table) && !s.failed
    ensures ReplayStep(def, tenant, ReplayStep(def, tenant, s, x), y)
            == ReplayStep(def, tenant, ReplayStep(def, tenant, s, y), x)
    ensures AllAddable(ReplayStep(def, tenant, s, x).table) && !ReplayStep(def, tenant, s, x).failed
  {
    IncrementFolds(def, x, s.table);
    IncrementFolds(def, y, s.table);
    if x.tenant == tenant && y.tenant == tenant {
      var fx := ApplyTo(def, x, s.table);
      var fy := ApplyTo(def, y, s.table);
      FoldErrorIsDeterministic(def, x, s.table);
      FoldErrorIsDeterministic(def, y, s.table);
      if fx.Folded? {
        FoldErrorIsDeterministic(def, y, fx.table);
      }
      if fy.Folded? {
        FoldErrorIsDeterministic(def, x, fy.table);
      }
      if fx.Folded? && fy.Folded? {
        FoldsCommute(def, x, y, s.table);
        IncrementFolds(def, y, fx.table);
      }
    }
  }

  lemma {:induction false} IncrementsNeverFail(def: ProjectionDef, tenant: string, events: seq<EventLike>)
    requires OnlyIncrements(def)
    ensures AllAddable(Replay(def, tenant, events).table) && !Replay(def, tenant, events).failed
  {
    if events != [] {
      var e := events[|events| - 1];
      IncrementsNeverFail(def, tenant, events[..|events| - 1]);
      StepsCommute(def, tenant, Replay(def, tenant, events[..|events| - 1]), e, e);
    }
  }

  lemma ReplayThenTwo(def: ProjectionDef, tenant: string, log: seq<EventLike>, x: EventLike, y: EventLike)
    ensures Replay(def, tenant, log + [x] + [y])
            == ReplayStep(def, tenant, ReplayStep(def, tenant, Replay(def, tenant, log), x), y)
  {
    ReplayExtends(def, tenant, map[], log, x);
    ReplayExtends(def, tenant, map[], log + [x], y);
  }

  lemma LastTwoCommute(def: ProjectionDef, tenant: string, log: seq<EventLike>, x: EventLike, y: EventLike)
    requires OnlyIncrements(def)
    ensures Replay(def, tenant, log + [x] + [y]) == Replay(def, tenant, log + [y] + [x])
  {
    IncrementsNeverFail(def, tenant, log);
    StepsCommute(def, tenant, Replay(def, tenant, log), x, y);
    ReplayThenTwo(def, tenant, log, x, y);
    ReplayThenTwo(def, tenant, log, y, x);
  }

  /** An event can be moved to the end of the log without changing the view. */
  lemma {:induction false} MoveToEnd(def: ProjectionDef, tenant: string, a: seq<EventLike>, x: EventLike,
                                     b: seq<EventLike>)
    requires OnlyIncrements(def)
    ensures Replay(def, tenant, a + [x] + b) == Replay(def, tenant, a + b + [x])
    decreases |b|
  {
    if b == [] {
      assert a + [x] + b == a + b + [x];
    } else {
      var c := b[..|b| - 1];
      var y := b[|b| - 1];
      assert a + [x] + b == a + [x] + c + [y];
      assert a + b + [x] == a + c + [y] + [x];
      MoveToEnd(def, tenant, a, x, c);
      ReplayExtends(def, tenant, map[], a + [x] + c, y);
      ReplayExtends(def, tenant, map[], a + c + [x], y);
      LastTwoCommute(def, tenant, a + c, x, y);
    }
  }

  /** When every rule only increments, any order of the same events gives the same table
      and the same skip count. */
  lemma {:induction false} OrderDoesNotMatter(def: ProjectionDef, tenant: string, a: seq<EventLike>, b: seq<EventLike>)
    requires OnlyIncrements(def) && multiset(a) == multiset(b)
    ensures Replay(def, tenant, a) == Replay(def, tenant, b)
    decreases |a|
  {
    if a == [] {
      assert |b| == |multiset(b)| == 0;
    } else {
      var before := a[..|a| - 1];
      var x := a[|a| - 1];
      assert a == before + [x];
      assert x in multiset(b);
      var i :| 0 <= i < |b| && b[i] == x;
      assert b == b[..i] + [x] + b[i + 1..];
      var rest := b[..i] + b[i + 1..];
      assert multiset(rest) == multiset(b) - multiset{x};
      OrderDoesNotMatter(def, tenant, before, rest);
      MoveToEnd(def, tenant, b[..i], x, b[i + 1..]);
      ReplayExtends(def, tenant, map[], before, x);
      ReplayExtends(def, tenant, map[], rest, x);
    }
  }

  const OPENED := EventLike("Opened", "s1", "acme", map[])
  const CLOSED := EventLike("Closed", "s1", "acme", map[])

  /** `Opened` and `Closed` each assign the same column a literal. */
  const ASSIGNING := ProjectionDef("states", "", map["state" := "text"], map[
    "Opened" := OpRule("upsert", "", map["state" := Str("open")], map[]),
    "Closed" := OpRule("upsert", "", map["state" := Str("closed")], map[])])

  /** `Opened` counts, `Closed` deletes. */
  const DELETING := ProjectionDef("counts", "", map["n" := "integer"], map[
    "Opened" := OpRule("upsert", "", map[], map["n" := Num(Binary64.Fin(1.0))]),
    "Closed" := OpRule("delete", "", map[], map[])])

  lemma ReplayTwo(def: ProjectionDef, tenant: string, x: EventLike, y: EventLike)
    ensures Replay(def, tenant, [x, y])
            == ReplayStep(def, tenant, ReplayStep(def, tenant, ReplayState(map[], 0, false), x), y)
  {
    assert [] + [x] == [x] && [x] + [y] == [x, y];
    ReplayExtends(def, tenant, map[], [], x);
    ReplayExtends(def, tenant, map[], [x], y);
  }

  /** The restriction to increments is needed: with a rule that assigns, two events folded
      in the other order leave another table. */
  lemma OrderMattersForSet()
    ensures Replay(ASSIGNING, "acme", [OPENED, CLOSED]).table != Replay(ASSIGNING, "acme", [CLOSED, OPENED]).table
  {
    var start := ReplayState(map[], 0, false);
    ReplayTwo(ASSIGNING, "acme", OPENED, CLOSED);
    ReplayTwo(ASSIGNING, "acme", CLOSED, OPENED);
    LastAssignmentWins("Opened", "open", start);
    LastAssignmentWins("Closed", "closed", start);
    LastAssignmentWins("Closed", "closed", ReplayStep(ASSIGNING, "acme", start, OPENED));
    LastAssignmentWins("Opened", "open", ReplayStep(ASSIGNING, "acme", start, CLOSED));
  }

  /** And so it does with a rule that deletes. */
  lemma OrderMattersForDelete()
    ensures Replay(DELETING, "acme", [OPENED, CLOSED]).table != Replay(DELETING, "acme", [CLOSED, OPENED]).table
  {
    var k := RowKey("acme", "s1");
    var start := ReplayState(map[], 0, false);
    ReplayTwo(DELETING, "acme", OPENED, CLOSED);
    ReplayTwo(DELETING, "acme", CLOSED, OPENED);
    CountsOne(start);
    assert ReplayStep(DELETING, "acme", start, CLOSED) == start;
    assert k !in Replay(DELETING, "acme", [OPENED, CLOSED]).table;
  }

  lemma LastAssignmentWins(evt: string, state: string, s: ReplayState)
    requires (evt == "Opened" && state == "open") || (evt == "Closed" && state == "closed")
    requires !s.failed
    ensures var after := ReplayStep(ASSIGNING, "acme", s, EventLike(evt, "s1", "acme", map[]));
            var k := RowKey("acme", "s1");
            !after.failed && Cell(RowAt(after.table, k), "state") == Text(state)
  {
    AssignedColumns(evt, state);
    AssignedRow(RowAt(s.table, RowKey("acme", "s1")), state);
  }

  lemma AssignedText(state: string)
    requires state == "open" || state == "closed"
    ensures ResolveSet(map[], Str(state)) == Text(state)
  {
    assert !HasPrefix(state, "$.") by {
      assert state[..2][0] != '$';
    }
  }

  lemma AssignedColumns(evt: string, state: string)
    requires (evt == "Opened" && state == "open") || (evt == "Closed" && state == "closed")
    ensures var rule := ASSIGNING.on[evt];
            && ResolveIncs(ASSIGNING, rule, map[]) == Some(map[])
            && ResolveSets(ASSIGNING, rule, map[]) == map["state" := Text(state)]
  {
    var rule := ASSIGNING.on[evt];
    assert IncColumns(ASSIGNING, rule) == {} && SetColumns(ASSIGNING, rule) == {"state"};
    AssignedText(state);
  }

  lemma AssignedRow(row: Row, state: string)
    ensures CanAdd(row, map[]) && Cell(Merge(row, map["state" := Text(state)], map[]), "state") == Text(state)
  {
  }

  lemma CountsOne(s: ReplayState)
    requires s == ReplayState(map[], 0, false)
    ensures RowKey("acme", "s1") in ReplayStep(DELETING, "acme", s, OPENED).table
  {
    var rule := DELETING.on["Opened"];
    assert IncColumns(DELETING, rule) == {"n"} && SetColumns(DELETING, rule) == {};
  }

  // ── one identity scheme ──────────────────────────────────────────────────────

  lemma {:induction false} RowHasAuthor(def: ProjectionDef, tenant: string, events: seq<EventLike>, k: RowKey)
    requires k in Replay(def, tenant, events).table
    ensures exists i :: 0 <= i < |events| && Upserts(def, events[i], k)
  {
    var before := events[..|events| - 1];
    if k in Replay(def, tenant, before).table {
      RowHasAuthor(def, tenant, before, k);
      var i :| 0 <= i < |before| && Upserts(def, before[i], k);
      assert events[i] == before[i];
    } else {
      assert Upserts(def, events[|events| - 1], k);
    }
  }

  predicate IsStreamIdOf(e: EventLike, id: string) { e.streamId == id }

  predicate IsKeyOf(def: ProjectionDef, e: EventLike, id: string) {
    e.eventType in def.on &&
    match AtPath(e.payload, def.on[e.eventType].key)
    case None => false
    case Some(v) => KeyText(v) == Some(id)
  }

  /** A valid definition has one identity scheme: over any log, either every row id is the
      stream id of an event of the log, or every row id is a key out of an event's payload. */
  lemma OneIdentityScheme(def: ProjectionDef, tenant: string, events: seq<EventLike>)
    requires ValidProjection(def)
    ensures var t := Replay(def, tenant, events).table;
            || (forall k :: k in t ==> exists i :: 0 <= i < |events| && IsStreamIdOf(events[i], k.id))
            || (forall k :: k in t ==> exists i :: 0 <= i < |events| && IsKeyOf(def, events[i], k.id))
  {
    var t := Replay(def, tenant, events).table;
    forall k | k in t
      ensures Unkeyed(def) ==> exists i :: 0 <= i < |events| && IsStreamIdOf(events[i], k.id)
      ensures Keyed(def) ==> exists i :: 0 <= i < |events| && IsKeyOf(def, events[i], k.id)
    {
      RowHasAuthor(def, tenant, events, k);
      var i :| 0 <= i < |events| && Upserts(def, events[i], k);
      assert Unkeyed(def) ==> IsStreamIdOf(events[i], k.id);
      assert Keyed(def) ==> IsKeyOf(def, events[i], k.id);
    }
  }

  /** What an event's rule takes for its row: its stream, or a key out of its payload. */
  datatype Identity = ByStream(id: string) | ByKey(id: string)

  function IdentityOf(def: ProjectionDef, e: EventLike): Identity
    requires e.eventType in def.on && ResolveKey(def.on[e.eventType], e).Some?
  {
    var rule := def.on[e.eventType];
    if rule.key == "" then ByStream(e.streamId) else ByKey(ResolveKey(rule, e).value)
  }

  lemma SameRowSameIdentity(def: ProjectionDef, u: EventLike, d: EventLike)
    requires ValidProjection(def) && u.tenant == d.tenant
    requires u.eventType in def.on && ResolveKey(def.on[u.eventType], u).Some?
    requires d.eventType in def.on && ResolveKey(def.on[d.eventType], d).Some?
    ensures RowOf(def, d) == RowOf(def, u) <==> IdentityOf(def, d) == IdentityOf(def, u)
  {
    assert Keyed(def) || Unkeyed(def);
  }

  /** For a valid definition a delete removes the row that the upserts of its own identity
      wrote and no row that an upsert of another identity wrote. */
  lemma DeleteAddressesItsRow(def: ProjectionDef, tenant: string, events: seq<EventLike>, d: EventLike)
    requires ValidProjection(def) && !Replay(def, tenant, events).failed && d.tenant == tenant
    requires d.eventType in def.on && def.on[d.eventType].op == "delete" && ResolveKey(def.on[d.eventType], d).Some?
    ensures var before, after := Replay(def, tenant, events).table, Replay(def, tenant, events + [d]).table;
            forall u, k :: u in events && u.tenant == tenant && Upserts(def, u, k) && k in before ==>
              (k !in after <==> IdentityOf(def, d) == IdentityOf(def, u))
    ensures var before, after := Replay(def, tenant, events).table, Replay(def, tenant, events + [d]).table;
            forall k :: k in before ==>
              k in after || exists u :: u in events && Upserts(def, u, k) && IdentityOf(def, d) == IdentityOf(def, u)
  {
    var before, after := Replay(def, tenant, events).table, Replay(def, tenant, events + [d]).table;
    ReplayExtends(def, tenant, map[], events, d);
    assert after == before - {RowOf(def, d)};
    forall u, k | u in events && u.tenant == tenant && Upserts(def, u, k) && k in before
      ensures k !in after <==> IdentityOf(def, d) == IdentityOf(def, u)
    {
      SameRowSameIdentity(def, u, d);
    }
    forall k | k in before && k !in after
      ensures exists u :: u in events && Upserts(def, u, k) && IdentityOf(def, d) == IdentityOf(def, u)
    {
      RowHasAuthor(def, tenant, events, k);
      var i :| 0 <= i < |events| && Upserts(def, events[i], k);
      SameRowSameIdentity(def, events[i], d);
    }
  }

  /** `Opened` keyed by the order in its payload, `Closed` deleting by stream: the mix that
      validation refuses. */
  const MIXED := ProjectionDef("orders", "", map[], map[
    "Opened" := OpRule("upsert", "$.order", map[], map[]),
    "Closed" := OpRule("delete", "", map[], map[])])

  lemma KeyRead(rule: OpRule, id: string)
    requires rule.key == "$.order" && id != ""
    ensures ResolveKey(rule, EventLike("Opened", "s2", "acme", map["order" := Str(id)])) == Some(id)
  {
    var order := "order";
    assert rule.key[2..] == order;
    SplitNone(order, '.');
    var fields := map["order" := Str(id)];
    assert [order][1..] == [];
    assert Lookup(Obj(fields), [order]) == Some(Str(id));
  }

  /** Under it a delete of one stream removes the row another stream's event wrote. */
  lemma MixedDeleteHitsAnother()
    ensures var u := EventLike("Opened", "s2", "acme", map["order" := Str("s1")]);
            && !ValidProjection(MIXED)
            && Replay(MIXED, "acme", [u]).table == map[RowKey("acme", "s1") := map[]]
            && Replay(MIXED, "acme", [u, CLOSED]).table == map[]
            && ResolveKey(MIXED.on["Opened"], u).Some? && IdentityOf(MIXED, u) != IdentityOf(MIXED, CLOSED)
  {
    var u := EventLike("Opened", "s2", "acme", map["order" := Str("s1")]);
    MixedIsInvalid();
    KeyRead(MIXED.on["Opened"], "s1");
    ReplayTwo(MIXED, "acme", u, CLOSED);
    assert [] + [u] == [u];
    ReplayExtends(MIXED, "acme", map[], [], u);
    WritesEmpty(u, RowKey("acme", "s1"));
    ClosedEmpties();
  }

  lemma MixedIsInvalid()
    ensures !ValidProjection(MIXED)
  {
    assert "Opened" in MIXED.on && "Closed" in MIXED.on;
  }

  lemma ClosedEmpties()
    ensures ApplyTo(MIXED, CLOSED, map[RowKey("acme", "s1") := map[]]) == Folded(map[])
  {
    var k := RowKey("acme", "s1");
    var row: Row := map[];
    assert map[k := row] - {k} == map[];
  }

  lemma WritesEmpty(u: EventLike, k: RowKey)
    requires u.eventType == "Opened" && ResolveKey(MIXED.on["Opened"], u) == Some(k.id) && u.tenant == k.tenant
    ensures ApplyTo(MIXED, u, map[]) == Folded(map[k := map[]])
  {
    NothingToMix(u.payload);
    assert Merge(map[], map[], map[]) == map[];
  }

  lemma NothingToMix(payload: Payload)
    ensures var rule := MIXED.on["Opened"];
            ResolveIncs(MIXED, rule, payload) == Some(map[]) && ResolveSets(MIXED, rule, payload) == map[]
  {
    var rule := MIXED.on["Opened"];
    assert IncColumns(MIXED, rule) == {} && SetColumns(MIXED, rule) == {};
  }
}
