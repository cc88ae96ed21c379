/** When the order of two folds does not matter: the exact condition on a definition and two
    events, and what it gives for a whole log. Tables are compared by what they read: the
    same rows with the same cells, an absent cell reading NULL. */
module Commute {
  import opened Basics
  import opened JsonValues
  import opened Definitions
  import opened Projector
  import opened Totals

  // ── reading a table ──────────────────────────────────────────────────────────

  ghost predicate SameRow(r: Row, q: Row) { forall c: string :: Cell(r, c) == Cell(q, c) }

  function Held(t: Table, k: RowKey): Option<Row> { if k in t then Some(t[k]) else None }

  ghost predicate SameHeld(a: Option<Row>, b: Option<Row>) {
    a.Some? == b.Some? && (a.Some? ==> SameRow(a.value, b.value))
  }

  /** The same rows with the same cells. */
  ghost predicate SameReading(t: Table, u: Table) { forall k :: SameHeld(Held(t, k), Held(u, k)) }

  lemma ReadingTransitive(t: Table, u: Table, w: Table)
    requires SameReading(t, u) && SameReading(u, w)
    ensures SameReading(t, w)
  {
    forall k ensures SameHeld(Held(t, k), Held(w, k)) {
      assert SameHeld(Held(t, k), Held(u, k)) && SameHeld(Held(u, k), Held(w, k));
    }
  }

  // ── what an event does to its row ────────────────────────────────────────────

  /** The definition has a rule for the event and can fold it. */
  predicate Effective(def: ProjectionDef, e: EventLike) { e.eventType in def.on && Foldable(def, e) }

  predicate IsDelete(def: ProjectionDef, e: EventLike)
    requires Effective(def, e)
  {
    def.on[e.eventType].op == "delete"
  }

  datatype Edit = Keep | Put(v: Value) | Increase(n: real)

  /** What an upserting event does to one column; a column both set and incremented counts
      as incremented. */
  function EditOf(def: ProjectionDef, e: EventLike, c: string): Edit
    requires Effective(def, e) && !IsDelete(def, e)
  {
    var incs, sets := IncsOf(def, e), ResolveSets(def, def.on[e.eventType], e.payload);
    if c in incs then Increase(incs[c]) else if c in sets then Put(sets[c]) else Keep
  }

  function Edited(edit: Edit, v: Value): Value {
    match edit
    case Keep => v
    case Put(w) => w
    case Increase(n) => if Addable(v) then Plus(v, n) else v
  }

  /** Two edits of one cell have the same effect in both orders: equal values put, a number
      put and zero added, or nothing put at all. */
  predicate EditsCommute(a: Edit, b: Edit) {
    match (a, b)
    case (Put(v), Put(w)) => v == w
    case (Put(v), Increase(n)) => v.Number? && n == 0.0
    case (Increase(n), Put(v)) => v.Number? && n == 0.0
    case _ => true
  }

  /** The condition: another row, or both delete it, or neither does and their edits of every
      declared column commute. */
  predicate Commutes(def: ProjectionDef, x: EventLike, y: EventLike) {
    Effective(def, x) && Effective(def, y) && RowOf(def, x) == RowOf(def, y) ==>
      if IsDelete(def, x) || IsDelete(def, y) then IsDelete(def, x) && IsDelete(def, y)
      else forall c :: c in def.columns ==> EditsCommute(EditOf(def, x, c), EditOf(def, y, c))
  }

  lemma EditsSwap(a: Edit, b: Edit, v: Value)
    requires a.Increase? ==> Addable(v) && Addable(Edited(b, v))
    requires b.Increase? ==> Addable(v) && Addable(Edited(a, v))
    ensures Edited(b, Edited(a, v)) == Edited(a, Edited(b, v)) <==> EditsCommute(a, b)
  {
  }

  lemma MergedCell(row: Row, sets: map<string, Value>, incs: map<string, real>, c: string)
    requires CanAdd(row, incs)
    ensures Cell(Merge(row, sets, incs), c)
            == if c in incs then Plus(Cell(row, c), incs[c]) else if c in sets then sets[c] else Cell(row, c)
  {
  }

  function RowOrEmpty(h: Option<Row>): Row { if h.Some? then h.value else map[] }

  /** The row an event leaves, the row it found given. */
  predicate Leaves(def: ProjectionDef, e: EventLike, before: Option<Row>, after: Option<Row>)
    requires Effective(def, e)
  {
    if IsDelete(def, e) then after == None
    else
      && CanAdd(RowOrEmpty(before), IncsOf(def, e))
      && after == Some(Merge(RowOrEmpty(before), ResolveSets(def, def.on[e.eventType], e.payload), IncsOf(def, e)))
  }

  /** A fold changes its own row, from what that row was, and no other. */
  lemma FoldOnRows(def: ProjectionDef, e: EventLike, t: Table)
    requires Effective(def, e) && ApplyTo(def, e, t).Folded?
    ensures var after := ApplyTo(def, e, t).table; var k := RowOf(def, e);
            && Leaves(def, e, Held(t, k), Held(after, k))
            && forall r :: r != k ==> Held(after, r) == Held(t, r)
  {
  }

  /** The other way round: whether the database takes the fold depends on the row alone. */
  lemma FoldTaken(def: ProjectionDef, e: EventLike, t: Table)
    requires Effective(def, e)
    ensures !ApplyTo(def, e, t).NotFoldable?
    ensures ApplyTo(def, e, t).Folded? <==> IsDelete(def, e) || CanAdd(RowAt(t, RowOf(def, e)), IncsOf(def, e))
    ensures RowAt(t, RowOf(def, e)) == RowOrEmpty(Held(t, RowOf(def, e)))
  {
  }

  lemma LeftCell(def: ProjectionDef, e: EventLike, before: Option<Row>, after: Option<Row>, c: string)
    requires Effective(def, e) && !IsDelete(def, e) && Leaves(def, e, before, after)
    ensures Cell(after.value, c) == Edited(EditOf(def, e, c), Cell(RowOrEmpty(before), c))
    ensures EditOf(def, e, c).Increase? ==> Addable(Cell(RowOrEmpty(before), c))
    ensures c !in def.columns ==> EditOf(def, e, c) == Keep
  {
    MergedCell(RowOrEmpty(before), ResolveSets(def, def.on[e.eventType], e.payload), IncsOf(def, e), c);
  }

  // ── two folds ────────────────────────────────────────────────────────────────

  lemma UpsertsSwap(def: ProjectionDef, x: EventLike, y: EventLike, h: Option<Row>, hx: Option<Row>, hxy: Option<Row>,
                    hy: Option<Row>, hyx: Option<Row>)
    requires Effective(def, x) && Effective(def, y) && !IsDelete(def, x) && !IsDelete(def, y)
    requires Leaves(def, x, h, hx) && Leaves(def, y, hx, hxy) && Leaves(def, y, h, hy) && Leaves(def, x, hy, hyx)
    ensures SameHeld(hxy, hyx) <==> forall c :: c in def.columns ==> EditsCommute(EditOf(def, x, c), EditOf(def, y, c))
  {
    forall c: string
      ensures Cell(hxy.value, c) == Cell(hyx.value, c) <==> EditsCommute(EditOf(def, x, c), EditOf(def, y, c))
      ensures c !in def.columns ==> Cell(hxy.value, c) == Cell(hyx.value, c)
    {
      LeftCell(def, x, h, hx, c);
      LeftCell(def, y, hx, hxy, c);
      LeftCell(def, y, h, hy, c);
      LeftCell(def, x, hy, hyx, c);
      EditsSwap(EditOf(def, x, c), EditOf(def, y, c), Cell(RowOrEmpty(h), c));
    }
  }

  lemma OneRowSwaps(def: ProjectionDef, x: EventLike, y: EventLike, h: Option<Row>, hx: Option<Row>, hxy: Option<Row>,
                    hy: Option<Row>, hyx: Option<Row>)
    requires Effective(def, x) && Effective(def, y) && RowOf(def, x) == RowOf(def, y)
    requires Leaves(def, x, h, hx) && Leaves(def, y, hx, hxy) && Leaves(def, y, h, hy) && Leaves(def, x, hy, hyx)
    ensures SameHeld(hxy, hyx) <==> Commutes(def, x, y)
  {
    if !IsDelete(def, x) && !IsDelete(def, y) {
      UpsertsSwap(def, x, y, h, hx, hxy, hy, hyx);
    }
  }

  lemma SameRowSwaps(def: ProjectionDef, x: EventLike, y: EventLike, t: Table, tx: Table, txy: Table, ty: Table,
                     tyx: Table)
    requires Effective(def, x) && Effective(def, y) && RowOf(def, x) == RowOf(def, y)
    requires ApplyTo(def, x, t) == Folded(tx) && ApplyTo(def, y, tx) == Folded(txy)
    requires ApplyTo(def, y, t) == Folded(ty) && ApplyTo(def, x, ty) == Folded(tyx)
    ensures SameReading(txy, tyx) <==> Commutes(def, x, y)
  {
    var k := RowOf(def, x);
    FoldOnRows(def, x, t);
    FoldOnRows(def, y, tx);
    FoldOnRows(def, y, t);
    FoldOnRows(def, x, ty);
    OneRowSwaps(def, x, y, Held(t, k), Held(tx, k), Held(txy, k), Held(ty, k), Held(tyx, k));
    if SameHeld(Held(txy, k), Held(tyx, k)) {
      forall r ensures SameHeld(Held(txy, r), Held(tyx, r)) {
        if r != k {
          assert Held(txy, r) == Held(t, r) == Held(tyx, r);
        }
      }
    }
  }

  lemma LeavesOne(def: ProjectionDef, e: EventLike, before: Option<Row>, a: Option<Row>, b: Option<Row>)
    requires Effective(def, e) && Leaves(def, e, before, a) && Leaves(def, e, before, b)
    ensures a == b
  {
  }

  lemma OtherRowSwaps(def: ProjectionDef, x: EventLike, y: EventLike, t: Table, tx: Table, txy: Table, ty: Table,
                      tyx: Table)
    requires Effective(def, x) && Effective(def, y) && RowOf(def, x) != RowOf(def, y)
    requires ApplyTo(def, x, t) == Folded(tx) && ApplyTo(def, y, tx) == Folded(txy)
    requires ApplyTo(def, y, t) == Folded(ty) && ApplyTo(def, x, ty) == Folded(tyx)
    ensures SameReading(txy, tyx)
  {
    var k, l := RowOf(def, x), RowOf(def, y);
    FoldOnRows(def, x, t);
    FoldOnRows(def, y, tx);
    FoldOnRows(def, y, t);
    FoldOnRows(def, x, ty);
    LeavesOne(def, x, Held(t, k), Held(tx, k), Held(tyx, k));
    LeavesOne(def, y, Held(t, l), Held(txy, l), Held(ty, l));
    forall r ensures SameHeld(Held(txy, r), Held(tyx, r)) {
      assert Held(txy, r) == Held(tyx, r);
    }
  }

  /** On every table on which two events fold in both orders, the two results read the same if
      and only if the events commute. */
  lemma FoldsCommuteIff(def: ProjectionDef, x: EventLike, y: EventLike, t: Table, tx: Table, txy: Table, ty: Table,
                        tyx: Table)
    requires ApplyTo(def, x, t) == Folded(tx) && ApplyTo(def, y, tx) == Folded(txy)
    requires ApplyTo(def, y, t) == Folded(ty) && ApplyTo(def, x, ty) == Folded(tyx)
    ensures SameReading(txy, tyx) <==> Commutes(def, x, y)
  {
    FoldErrorIsDeterministic(def, x, t);
    FoldErrorIsDeterministic(def, y, t);
    if Effective(def, x) && Effective(def, y) {
      if RowOf(def, x) == RowOf(def, y) {
        SameRowSwaps(def, x, y, t, tx, txy, ty, tyx);
      } else {
        OtherRowSwaps(def, x, y, t, tx, txy, ty, tyx);
      }
    } else {
      assert txy == tyx;
    }
  }

  lemma CommutesSymmetric(def: ProjectionDef, x: EventLike, y: EventLike)
    ensures Commutes(def, x, y) <==> Commutes(def, y, x)
  {
  }

  /** Rules that only increment always commute. */
  lemma IncrementsCommute(def: ProjectionDef, x: EventLike, y: EventLike)
    requires OnlyIncrements(def)
    ensures Commutes(def, x, y)
  {
    if Effective(def, x) && Effective(def, y) {
      assert ResolveSets(def, def.on[x.eventType], x.payload) == map[];
      assert ResolveSets(def, def.on[y.eventType], y.payload) == map[];
    }
  }

  // ── a whole log ──────────────────────────────────────────────────────────────

  /** Any two of the tenant's events commute. */
  ghost predicate AllCommute(def: ProjectionDef, tenant: string, events: seq<EventLike>) {
    forall x, y :: x in events && y in events && x.tenant == tenant && y.tenant == tenant ==> Commutes(def, x, y)
  }

  /** Every increment any of the events would make can be made. */
  ghost predicate AddsFit(def: ProjectionDef, tenant: string, events: seq<EventLike>, t: Table) {
    forall e :: e in events && e.tenant == tenant && Effective(def, e) && !IsDelete(def, e) ==>
      CanAdd(RowAt(t, RowOf(def, e)), IncsOf(def, e))
  }

  lemma FitsAfter(def: ProjectionDef, x: EventLike, e: EventLike, t: Table)
    requires Effective(def, x) && Effective(def, e) && !IsDelete(def, e) && Commutes(def, x, e)
    requires ApplyTo(def, x, t).Folded? && CanAdd(RowAt(t, RowOf(def, e)), IncsOf(def, e))
    ensures CanAdd(RowAt(ApplyTo(def, x, t).table, RowOf(def, e)), IncsOf(def, e))
  {
    var after := ApplyTo(def, x, t).table;
    var k := RowOf(def, e);
    FoldOnRows(def, x, t);
    assert RowAt(t, k) == RowOrEmpty(Held(t, k)) && RowAt(after, k) == RowOrEmpty(Held(after, k));
    if RowOf(def, x) == k {
      StillFits(def, x, e, Held(t, k), Held(after, k));
    }
  }

  lemma StillFits(def: ProjectionDef, x: EventLike, e: EventLike, before: Option<Row>, after: Option<Row>)
    requires Effective(def, x) && Effective(def, e) && !IsDelete(def, e) && Commutes(def, x, e)
    requires RowOf(def, x) == RowOf(def, e) && Leaves(def, x, before, after)
    requires CanAdd(RowOrEmpty(before), IncsOf(def, e))
    ensures CanAdd(RowOrEmpty(after), IncsOf(def, e))
  {
    if after.Some? {
      forall c | c in IncsOf(def, e) ensures Addable(Cell(after.value, c)) {
        assert c in def.columns;
        LeftCell(def, x, before, after, c);
        assert EditsCommute(EditOf(def, x, c), EditOf(def, e, c));
      }
    }
  }

  lemma StepFits(def: ProjectionDef, tenant: string, events: seq<EventLike>, t: Table, x: EventLike)
    requires AllCommute(def, tenant, events) && AddsFit(def, tenant, events, t) && x in events && x.tenant == tenant
    ensures !ApplyTo(def, x, t).SqlFailure?
    ensures ApplyTo(def, x, t).Folded? ==> AddsFit(def, tenant, events, ApplyTo(def, x, t).table)
  {
    if Effective(def, x) {
      FoldTaken(def, x, t);
      forall e | e in events && e.tenant == tenant && Effective(def, e) && !IsDelete(def, e)
        ensures CanAdd(RowAt(ApplyTo(def, x, t).table, RowOf(def, e)), IncsOf(def, e))
      {
        FitsAfter(def, x, e, t);
      }
    }
  }

  lemma {:induction false} ReplayFits(def: ProjectionDef, tenant: string, events: seq<EventLike>, part: seq<EventLike>)
    requires AllCommute(def, tenant, events) && forall e :: e in part ==> e in events
    ensures !Replay(def, tenant, part).failed && AddsFit(def, tenant, events, Replay(def, tenant, part).table)
    decreases |part|
  {
    if part == [] {
      NothingHeld(def, tenant, events);
    } else {
      var before, e := part[..|part| - 1], part[|part| - 1];
      ReplayFits(def, tenant, events, before);
      if e.tenant == tenant {
        StepFits(def, tenant, events, Replay(def, tenant, before).table, e);
      }
    }
  }

  lemma NothingHeld(def: ProjectionDef, tenant: string, events: seq<EventLike>)
    ensures AddsFit(def, tenant, events, map[])
  {
  }

  /** Two replays in progress that nothing tells apart. */
  ghost predicate Alike(r: ReplayState, s: ReplayState) {
    r.skipped == s.skipped && r.failed == s.failed && SameReading(r.table, s.table)
  }

  lemma AlikeTransitive(a: ReplayState, b: ReplayState, c: ReplayState)
    requires Alike(a, b) && Alike(b, c)
    ensures Alike(a, c)
  {
    ReadingTransitive(a.table, b.table, c.table);
  }

  lemma RowsAlike(def: ProjectionDef, e: EventLike, a: Option<Row>, b: Option<Row>, a': Option<Row>, b': Option<Row>)
    requires Effective(def, e) && SameHeld(a, b) && Leaves(def, e, a, a') && Leaves(def, e, b, b')
    ensures SameHeld(a', b')
  {
    if !IsDelete(def, e) {
      forall c: string ensures Cell(a'.value, c) == Cell(b'.value, c) {
        LeftCell(def, e, a, a', c);
        LeftCell(def, e, b, b', c);
      }
    }
  }

  lemma EffectiveAlike(def: ProjectionDef, e: EventLike, t: Table, u: Table)
    requires Effective(def, e) && SameReading(t, u)
    ensures ApplyTo(def, e, t).Folded? <==> ApplyTo(def, e, u).Folded?
    ensures ApplyTo(def, e, t).Folded? ==> SameReading(ApplyTo(def, e, t).table, ApplyTo(def, e, u).table)
  {
    var k := RowOf(def, e);
    assert SameHeld(Held(t, k), Held(u, k));
    FoldTaken(def, e, t);
    FoldTaken(def, e, u);
    assert forall c: string :: Cell(RowAt(t, k), c) == Cell(RowAt(u, k), c);
    if ApplyTo(def, e, t).Folded? {
      var t', u' := ApplyTo(def, e, t).table, ApplyTo(def, e, u).table;
      FoldOnRows(def, e, t);
      FoldOnRows(def, e, u);
      RowsAlike(def, e, Held(t, k), Held(u, k), Held(t', k), Held(u', k));
      forall r ensures SameHeld(Held(t', r), Held(u', r)) {
        assert SameHeld(Held(t, r), Held(u, r));
      }
    }
  }

  lemma StepAlike(def: ProjectionDef, tenant: string, r: ReplayState, s: ReplayState, e: EventLike)
    requires Alike(r, s)
    ensures Alike(ReplayStep(def, tenant, r, e), ReplayStep(def, tenant, s, e))
  {
    if Effective(def, e) {
      EffectiveAlike(def, e, r.table, s.table);
      FoldTaken(def, e, r.table);
      FoldTaken(def, e, s.table);
    } else {
      FoldErrorIsDeterministic(def, e, r.table);
      FoldErrorIsDeterministic(def, e, s.table);
    }
  }

  lemma AlikeSelf(r: ReplayState)
    ensures Alike(r, r)
  {
  }

  lemma StepsSwap(def: ProjectionDef, tenant: string, events: seq<EventLike>, r: ReplayState, x: EventLike,
                  y: EventLike)
    requires AllCommute(def, tenant, events) && AddsFit(def, tenant, events, r.table) && !r.failed && x in events
             && y in events
    ensures Alike(ReplayStep(def, tenant, ReplayStep(def, tenant, r, x), y),
                  ReplayStep(def, tenant, ReplayStep(def, tenant, r, y), x))
  {
    if x.tenant == tenant && y.tenant == tenant {
      var fx, fy := ApplyTo(def, x, r.table), ApplyTo(def, y, r.table);
      StepFits(def, tenant, events, r.table, x);
      StepFits(def, tenant, events, r.table, y);
      FoldErrorIsDeterministic(def, x, r.table);
      FoldErrorIsDeterministic(def, y, r.table);
      if fx.Folded? && fy.Folded? {
        StepFits(def, tenant, events, fx.table, y);
        StepFits(def, tenant, events, fy.table, x);
        FoldErrorIsDeterministic(def, y, fx.table);
        FoldErrorIsDeterministic(def, x, fy.table);
        FoldsCommuteIff(def, x, y, r.table, fx.table, ApplyTo(def, y, fx.table).table, fy.table,
                        ApplyTo(def, x, fy.table).table);
      } else {
        OneSkipped(def, tenant, r, x, y);
      }
    } else {
      AlikeSelf(ReplayStep(def, tenant, ReplayStep(def, tenant, r, x), y));
    }
  }

  lemma OneSkipped(def: ProjectionDef, tenant: string, r: ReplayState, x: EventLike, y: EventLike)
    requires !r.failed && x.tenant == tenant && y.tenant == tenant
    requires !ApplyTo(def, x, r.table).SqlFailure? && !ApplyTo(def, y, r.table).SqlFailure?
    requires !ApplyTo(def, x, r.table).Folded? || !ApplyTo(def, y, r.table).Folded?
    ensures Alike(ReplayStep(def, tenant, ReplayStep(def, tenant, r, x), y),
                  ReplayStep(def, tenant, ReplayStep(def, tenant, r, y), x))
  {
    var fx, fy := ApplyTo(def, x, r.table), ApplyTo(def, y, r.table);
    FoldErrorIsDeterministic(def, x, r.table);
    FoldErrorIsDeterministic(def, y, r.table);
    if fx.Folded? {
      FoldErrorIsDeterministic(def, y, fx.table);
    }
    if fy.Folded? {
      FoldErrorIsDeterministic(def, x, fy.table);
    }
    assert ReplayStep(def, tenant, ReplayStep(def, tenant, r, x), y)
        == ReplayStep(def, tenant, ReplayStep(def, tenant, r, y), x);
  }

  lemma LastTwoSwap(def: ProjectionDef, tenant: string, events: seq<EventLike>, log: seq<EventLike>, x: EventLike,
                    y: EventLike)
    requires AllCommute(def, tenant, events) && (forall e :: e in log ==> e in events) && x in events && y in events
    ensures Alike(Replay(def, tenant, log + [x] + [y]), Replay(def, tenant, log + [y] + [x]))
  {
    ReplayFits(def, tenant, events, log);
    StepsSwap(def, tenant, events, Replay(def, tenant, log), x, y);
    ReplayThenTwo(def, tenant, log, x, y);
    ReplayThenTwo(def, tenant, log, y, x);
  }

  /** An event can be moved to the end of the log without changing what the view reads. */
  lemma {:induction false} MovedToEnd(def: ProjectionDef, tenant: string, events: seq<EventLike>, a: seq<EventLike>,
                                      x: EventLike, b: seq<EventLike>)
    requires AllCommute(def, tenant, events) && x in events
    requires (forall e :: e in a ==> e in events) && forall e :: e in b ==> e in events
    ensures Alike(Replay(def, tenant, a + [x] + b), Replay(def, tenant, a + b + [x]))
    decreases |b|
  {
    if b == [] {
      assert a + [x] + b == a + b + [x];
      AlikeSelf(Replay(def, tenant, a + [x] + b));
    } else {
      var c, y := b[..|b| - 1], b[|b| - 1];
      assert b == c + [y];
      Regrouped(a, x, c, y);
      MovedToEnd(def, tenant, events, a, x, c);
      ReplayExtends(def, tenant, map[], a + [x] + c, y);
      ReplayExtends(def, tenant, map[], a + c + [x], y);
      StepAlike(def, tenant, Replay(def, tenant, a + [x] + c), Replay(def, tenant, a + c + [x]), y);
      LastTwoSwap(def, tenant, events, a + c, x, y);
      AlikeTransitive(Replay(def, tenant, a + [x] + c + [y]), Replay(def, tenant, a + c + [x] + [y]),
                      Replay(def, tenant, a + c + [y] + [x]));
    }
  }

  lemma Regrouped(a: seq<EventLike>, x: EventLike, c: seq<EventLike>, y: EventLike)
    ensures a + [x] + (c + [y]) == a + [x] + c + [y] && a + (c + [y]) + [x] == a + c + [y] + [x]
  {
  }

  /** One occurrence of x taken out of b. */
  lemma TakenOut(b: seq<EventLike>, x: EventLike) returns (front: seq<EventLike>, back: seq<EventLike>)
    requires x in b
    ensures b == front + [x] + back && multiset(front + back) == multiset(b) - multiset{x}
  {
    var i :| 0 <= i < |b| && b[i] == x;
    front, back := b[..i], b[i + 1..];
    assert b == front + [x] + back;
  }

  lemma LastPlaced(def: ProjectionDef, tenant: string, events: seq<EventLike>, before: seq<EventLike>, x: EventLike,
                   front: seq<EventLike>, back: seq<EventLike>)
    requires AllCommute(def, tenant, events) && x in events
    requires (forall e :: e in front ==> e in events) && forall e :: e in back ==> e in events
    requires Alike(Replay(def, tenant, before), Replay(def, tenant, front + back))
    ensures Alike(Replay(def, tenant, before + [x]), Replay(def, tenant, front + [x] + back))
  {
    ReplayExtends(def, tenant, map[], before, x);
    ReplayExtends(def, tenant, map[], front + back, x);
    StepAlike(def, tenant, Replay(def, tenant, before), Replay(def, tenant, front + back), x);
    MovedToEnd(def, tenant, events, front, x, back);
    AlikeBack(Replay(def, tenant, front + [x] + back), Replay(def, tenant, front + back + [x]));
    AlikeTransitive(Replay(def, tenant, before + [x]), Replay(def, tenant, front + back + [x]),
                    Replay(def, tenant, front + [x] + back));
  }

  lemma SameElements(a: seq<EventLike>, b: seq<EventLike>)
    requires multiset(a) == multiset(b)
    ensures |a| == |b| && forall e :: e in a <==> e in b
  {
    assert |a| == |multiset(a)| && |b| == |multiset(b)|;
    assert forall e :: e in a <==> e in multiset(a);
    assert forall e :: e in b <==> e in multiset(b);
  }

  /** If any two events of a log commute, replaying them in any order reads the same, with the
      same skip count, and never meets a refusal. */
  lemma {:induction false} OrderIrrelevant(def: ProjectionDef, tenant: string, events: seq<EventLike>,
                                           a: seq<EventLike>, b: seq<EventLike>)
    requires AllCommute(def, tenant, events) && multiset(a) == multiset(b)
    requires forall e :: e in a ==> e in events
    ensures Alike(Replay(def, tenant, a), Replay(def, tenant, b))
    decreases |a|
  {
    SameElements(a, b);
    if a == [] {
      AlikeSelf(Replay(def, tenant, a));
    } else {
      var before, x := a[..|a| - 1], a[|a| - 1];
      assert a == before + [x];
      var front, back := TakenOut(b, x);
      OrderIrrelevant(def, tenant, events, before, front + back);
      LastPlaced(def, tenant, events, before, x, front, back);
    }
  }

  lemma AlikeBack(r: ReplayState, s: ReplayState)
    requires Alike(r, s)
    ensures Alike(s, r)
  {
    forall k ensures SameHeld(Held(s.table, k), Held(r.table, k)) {
      assert SameHeld(Held(r.table, k), Held(s.table, k));
    }
  }
}
