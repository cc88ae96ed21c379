/** The handlers that tie the parts together (go/internal/httpapi/router.go): `append`
    commits, folds and publishes in that order; `putProjection` and `adminRebuild` refold the
    caller's log; a subscribe session catches up and then tails. */
module App {
  import opened Basics
  import opened Definitions
  import opened EventLog
  import opened Store
  import opened Bus
  import opened Projector
  import opened ReadModels
  import opened Registry
  import opened LogTable
  import FoldRuns
  import Live
  import Feed

  /** `toEventLike`. */
  function Like(e: StoredEvent): EventLike { EventLike(e.eventType, e.streamId, e.tenant, e.payload) }

  function Likes(events: seq<StoredEvent>): (r: seq<EventLike>)
    ensures |r| == |events| && forall i :: 0 <= i < |events| ==> r[i] == Like(events[i])
  {
    seq(|events|, i requires 0 <= i < |events| => Like(events[i]))
  }

  function Publications(tenant: string, events: seq<StoredEvent>): (r: seq<Publication>)
    ensures |r| == |events| && forall i :: 0 <= i < |events| ==> r[i] == Publication(tenant, events[i])
  {
    seq(|events|, i requires 0 <= i < |events| => Publication(tenant, events[i]))
  }

  /** `defs` lists the registered projections; their tables are distinct and none is the
      log's. */
  ghost predicate Lists(defs: seq<ProjectionDef>, rows: map<string, ProjectionDef>) {
    && DistinctTables(defs) && Elsewhere(defs, LOG_TABLE)
    && (forall d :: d in defs <==> d in rows.Values)
    && forall d :: d in defs ==> SpineFree(d)
  }

  lemma ListedStorable(defs: seq<ProjectionDef>, rows: map<string, ProjectionDef>)
    requires Lists(defs, rows) && ProjectionRowsValid(rows)
    ensures forall d :: d in rows.Values ==> Storable(d)
  {
    forall d | d in rows.Values ensures Storable(d) {
      ValidIsStorable(d);
    }
  }

  lemma LikesGrow(a: seq<StoredEvent>, b: seq<StoredEvent>)
    ensures Likes(a + b) == Likes(a) + Likes(b)
  {
  }

  // ── append ───────────────────────────────────────────────────────────────────

  /** Folds the stored events one by one and stops at the first that fails. */
  method FoldRows(registry: Registry, db: Database, rows: seq<StoredEvent>, tenant: string, now: int,
                  ghost defs: seq<ProjectionDef>)
    returns (projected: bool)
    requires registry.Synced() && Lists(defs, registry.projectionRows)
    requires forall e :: e in rows ==> e.tenant == tenant
    modifies db`tables, db`budget, db.store`log
    ensures projected ==>
              var r := FoldBatch(defs, Likes(rows), old(db.tables));
              r.outcome.Done? && SameViews(db.tables, r.tables)
    ensures OnlyTenant(old(db.tables), db.tables, tenant) && db.store.log == old(db.store.log)
  {
    ghost var start := db.tables;
    ListedStorable(defs, registry.projectionRows);
    for i := 0 to |rows|
      invariant var r := FoldBatch(defs, Likes(rows[..i]), start);
                r.outcome.Done? && SameViews(db.tables, r.tables)
      invariant OnlyTenant(start, db.tables, tenant) && db.store.log == old(db.store.log)
    {
      var e := Like(rows[i]);
      ghost var before := db.tables;
      ghost var folded := FoldBatch(defs, Likes(rows[..i]), start).tables;
      var listed := registry.DefsForEvent(e.eventType);
      var outcome := ApplyEvent(db, listed, e, now);
      if !outcome.Done? {
        return false;
      }
      IndexStep(defs, listed, e, before, folded, registry.projectionRows);
      BatchPush(defs, rows, i, start);
    }
    assert rows[..|rows|] == rows;
    return true;
  }

  lemma BatchPush(defs: seq<ProjectionDef>, rows: seq<StoredEvent>, i: nat, ts: Tables)
    requires i < |rows| && FoldBatch(defs, Likes(rows[..i]), ts).outcome.Done?
    ensures FoldBatch(defs, Likes(rows[..i + 1]), ts)
            == FoldAll(defs, Like(rows[i]), FoldBatch(defs, Likes(rows[..i]), ts).tables)
  {
    var batch := Likes(rows[..i + 1]);
    assert batch[..i] == Likes(rows[..i]) && batch[i] == Like(rows[i]);
  }

  /** Folding through the index is folding into every registered projection. */
  lemma IndexStep(defs: seq<ProjectionDef>, listed: seq<ProjectionDef>, e: EventLike, ts: Tables, us: Tables,
                  rows: map<string, ProjectionDef>)
    requires Lists(defs, rows) && NoDuplicates(listed)
             && forall d :: d in listed <==> d in rows.Values && e.eventType in d.on
    requires SameViews(ts, us) && FoldAll(listed, e, ts).outcome.Done?
    ensures FoldAll(defs, e, us).outcome.Done? && SameViews(FoldAll(listed, e, ts).tables, FoldAll(defs, e, us).tables)
  {
    var index := map[e.eventType := listed];
    IndexedFoldIsFullFold(index, defs, e, ts);
    SameTables(defs, e, ts, us);
  }

  /** Publishes the stored events in order. */
  method PublishRows(bus: EventBus, tenant: string, rows: seq<StoredEvent>)
    requires bus.Valid()
    modifies bus`history, TenantMembers(bus.subs, tenant).Values
    ensures bus.Valid() && bus.history == old(bus.history) + Publications(tenant, rows)
  {
    for i := 0 to |rows|
      invariant bus.Valid() && bus.history == old(bus.history) + Publications(tenant, rows[..i])
    {
      bus.Publish(tenant, rows[i]);
      assert Publications(tenant, rows[..i + 1]) == Publications(tenant, rows[..i]) + [Publication(tenant, rows[i])];
    }
    assert rows[..|rows|] == rows;
  }

  /** The service's log as the live-view model sees it. */
  ghost predicate Abstracts(s: Live.State, log: seq<StoredEvent>, tables: Tables) {
    s.log == Likes(log) && s.tables == tables
  }

  lemma RowsOfTenant(log: seq<StoredEvent>, firstSeq: int, req: Request)
    ensures forall e :: e in NewRows(Answer(log, firstSeq, req)) ==> e.tenant == req.tenant
  {
    var rows := NewRows(Answer(log, firstSeq, req));
    forall e | e in rows ensures e.tenant == req.tenant {
      var i :| 0 <= i < |rows| && rows[i] == e;
    }
  }

  /** The model state an append leads to. */
  ghost function After(defs: seq<ProjectionDef>, s: Live.State, tenant: string, log: seq<StoredEvent>, tables: Tables,
                       projected: bool): Live.State {
    var views := FoldRuns.Among(FoldRuns.ViewsOf(defs, tenant));
    Live.State(Likes(log), tables, if projected then s.stale else s.stale + views,
               if projected then s.unprojected else s.unprojected + views)
  }

  lemma AppendIsStep(defs: seq<ProjectionDef>, s: Live.State, log: seq<StoredEvent>, rows: seq<StoredEvent>,
                     tenant: string, tables: Tables, projected: bool)
    requires s.log == Likes(log) && forall e :: e in rows ==> e.tenant == tenant
    requires projected ==>
               var r := FoldBatch(defs, Likes(rows), s.tables);
               r.outcome.Done? && SameViews(tables, r.tables)
    requires OnlyTenant(s.tables, tables, tenant)
    ensures Live.Next(defs, s, Live.Appended(tenant, Likes(rows), projected),
                      After(defs, s, tenant, log + rows, tables, projected))
  {
    LikesGrow(log, rows);
    assert forall e :: e in Likes(rows) ==> e.tenant == tenant;
  }

  lemma ReplayPush(def: ProjectionDef, tenant: string, t: Table, log: seq<StoredEvent>, e: StoredEvent)
    ensures ReplayFrom(def, tenant, t, Likes(log + [e]))
            == ReplayStep(def, tenant, ReplayFrom(def, tenant, t, Likes(log)), Like(e))
  {
    assert Likes(log + [e]) == Likes(log) + [Like(e)];
    ReplayExtends(def, tenant, t, Likes(log), Like(e));
  }

  /** A replay looks at the tenant's own events alone, so reading only those is enough. */
  lemma {:induction false} TenantLogSuffices(def: ProjectionDef, tenant: string, t: Table, log: seq<StoredEvent>,
                                             hi: int)
    requires forall e :: e in log ==> 0 < e.globalSeq <= hi
    ensures ReplayFrom(def, tenant, t, Likes(Between(log, Topic(tenant, ""), 0, hi)))
            == ReplayFrom(def, tenant, t, Likes(log))
  {
    if log != [] {
      var before, e := log[..|log| - 1], log[|log| - 1];
      var mine := Between(before, Topic(tenant, ""), 0, hi);
      assert log == before + [e] && e in log;
      TenantLogSuffices(def, tenant, t, before, hi);
      ReplayPush(def, tenant, t, before, e);
      BetweenPush(before, e, Topic(tenant, ""), 0, hi);
      if e.tenant == tenant {
        ReplayPush(def, tenant, t, mine, e);
      } else {
        assert mine + [] == mine;
      }
    }
  }

  // ── what a rebuild leaves ────────────────────────────────────────────────────

  /** The rebuild of one projection against a database that takes this many statements: what it
      answers, when it fails, and, over a table of its own, the tables it leaves. */
  ghost predicate RebuiltWithin(def: ProjectionDef, tenant: string, events: seq<EventLike>, ts: Tables, us: Tables,
                                budget: nat, skipped: nat, failed: bool) {
    var w := RebuildWithin(def, tenant, TableIn(ts, def.TableOf()), events, budget);
    && skipped == w.state.skipped && failed == w.state.failed
    && (!OverLog(def) ==>
        && Rebuilding(def, tenant, events, ts, us, !failed)
        && (failed <==> Replay(def, tenant, events).failed || budget < 1 + RefoldStatements(def, tenant, events)))
  }

  lemma WhatWasRebuilt(def: ProjectionDef, tenant: string, events: seq<EventLike>, ts: Tables, us: Tables, w: Within,
                       budget: nat)
    requires w == RebuildWithin(def, tenant, TableIn(ts, def.TableOf()), events, budget) && Writes(def, us, w)
    requires forall name: string :: name != def.TableOf() || OverLog(def) ==> TableIn(us, name) == TableIn(ts, name)
    ensures RebuiltWithin(def, tenant, events, ts, us, budget, w.state.skipped, w.state.failed)
    ensures OnlyTenant(ts, us, tenant)
  {
    if !OverLog(def) {
      RebuildStep(def, tenant, events, ts, us, w, budget);
      RebuildingIsLocal(def, tenant, events, ts, us, !w.state.failed);
    }
  }

  /** Replaying these events is replaying that log, for the tenant. */
  ghost predicate SameReplays(tenant: string, events: seq<EventLike>, log: seq<EventLike>) {
    forall d: ProjectionDef, t: Table :: SameReplay(d, tenant, t, events, log)
  }

  ghost predicate SameReplay(d: ProjectionDef, tenant: string, t: Table, events: seq<EventLike>, log: seq<EventLike>) {
    ReplayFrom(d, tenant, t, events) == ReplayFrom(d, tenant, t, log)
  }

  lemma ReadReplays(tenant: string, log: seq<StoredEvent>)
    requires LogOk(log)
    ensures SameReplays(tenant, Likes(ReadFrom(log, Topic(tenant, ""), 0)), Likes(log))
  {
    HorizonBounds(log);
    forall d: ProjectionDef, t: Table
      ensures SameReplay(d, tenant, t, Likes(ReadFrom(log, Topic(tenant, ""), 0)), Likes(log))
    {
      TenantLogSuffices(d, tenant, t, log, Horizon(log));
    }
  }

  lemma RebuildingIsTo(def: ProjectionDef, tenant: string, events: seq<EventLike>, log: seq<EventLike>, ts: Tables,
                       us: Tables, clean: bool)
    requires Rebuilding(def, tenant, events, ts, us, clean) && SameReplays(tenant, events, log)
    ensures Live.RebuiltTo(def, tenant, log, ts, us, clean)
  {
    RebuildingIsLocal(def, tenant, events, ts, us, clean);
    assert SameReplay(def, tenant, OtherRows(TableIn(ts, def.TableOf()), tenant), events, log);
  }

  lemma RebuiltIsFaithful(def: ProjectionDef, tenant: string, log: seq<EventLike>, ts: Tables, us: Tables)
    requires Live.RebuiltTo(def, tenant, log, ts, us, true)
    ensures Faithful(def, tenant, us, log)
    ensures OtherRows(TableIn(us, def.TableOf()), tenant) == OtherRows(TableIn(ts, def.TableOf()), tenant)
  {
    RebuildForgetsThePast(def, tenant, TableIn(ts, def.TableOf()), log);
  }

  /** A clean rebuild skips what the replay skips. */
  lemma CleanSkips(def: ProjectionDef, tenant: string, events: seq<EventLike>, log: seq<EventLike>, ts: Tables,
                   us: Tables, budget: nat, skipped: nat)
    requires RebuiltWithin(def, tenant, events, ts, us, budget, skipped, false) && !OverLog(def)
             && SameReplays(tenant, events, log)
    ensures skipped == Replay(def, tenant, log).skipped
  {
    RebuildWithinBudget(def, tenant, TableIn(ts, def.TableOf()), events, budget);
    RebuildForgetsThePast(def, tenant, TableIn(ts, def.TableOf()), events);
    assert SameReplay(def, tenant, map[], events, log);
  }

  // ── rebuilds and redefinitions as steps of the live-view model ───────────────

  ghost function Rebuilt(s: Live.State, i: nat, tenant: string, tables: Tables, clean: bool): Live.State {
    Live.State(s.log, tables, Live.Marked(s.stale, FoldRuns.View(i, tenant), clean), s.unprojected)
  }

  lemma RebuildIsStep(defs: seq<ProjectionDef>, s: Live.State, i: nat, tenant: string, tables: Tables, clean: bool)
    requires i < |defs| && Live.RebuiltTo(defs[i], tenant, s.log, s.tables, tables, clean)
    ensures Live.Next(defs, s, Live.Rebuilt(i, tenant, clean), Rebuilt(s, i, tenant, tables, clean))
  {
  }

  ghost function Redefined(s: Live.State, i: nat, tenant: string, tables: Tables, clean: bool): Live.State {
    Live.State(s.log, tables, Live.Marked(s.stale + FoldRuns.ViewsOn(i), FoldRuns.View(i, tenant), clean),
               s.unprojected + FoldRuns.ViewsOn(i))
  }

  lemma RedefineIsStep(defs: seq<ProjectionDef>, s: Live.State, i: nat, def: ProjectionDef, tenant: string,
                       tables: Tables, clean: bool)
    requires i <= |defs| && DistinctTables(FoldRuns.WithDef(defs, i, def))
    requires Live.RebuiltTo(def, tenant, s.log, s.tables, tables, clean)
    ensures Live.Next(defs, s, Live.Redefined(i, def, tenant, clean), Redefined(s, i, tenant, tables, clean))
  {
  }

  /** Where a definition of this name is listed, or would be added. */
  function IndexOf(defs: seq<ProjectionDef>, name: string): (i: nat)
    ensures i <= |defs| && (i < |defs| ==> defs[i].name == name) && forall j :: 0 <= j < i ==> defs[j].name != name
  {
    if defs == [] || defs[0].name == name then 0 else 1 + IndexOf(defs[1..], name)
  }

  lemma ListedOnce(defs: seq<ProjectionDef>, rows: map<string, ProjectionDef>, j: nat, name: string)
    requires Lists(defs, rows) && ProjectionRowsValid(rows) && j < |defs| && defs[j].name == name
    ensures j == IndexOf(defs, name) && name in rows && rows[name] == defs[j]
  {
    var i := IndexOf(defs, name);
    assert defs[j] in rows.Values && defs[i] in rows.Values;
    assert defs[i] == rows[name] && defs[j] == rows[name];
  }

  /** The list after a save lists the rows after it. */
  lemma ListsAfter(defs: seq<ProjectionDef>, rows: map<string, ProjectionDef>, def: ProjectionDef)
    requires Lists(defs, rows) && ProjectionRowsValid(rows) && SpineFree(def) && !OverLog(def)
    requires DistinctTables(FoldRuns.WithDef(defs, IndexOf(defs, def.name), def))
    ensures Lists(FoldRuns.WithDef(defs, IndexOf(defs, def.name), def), rows[def.name := def])
  {
    var i := IndexOf(defs, def.name);
    var after, rows' := FoldRuns.WithDef(defs, i, def), rows[def.name := def];
    forall d | d in after ensures d in rows'.Values && SpineFree(d) && !OverLog(d) {
      KeptOrNew(defs, rows, def, d);
    }
    forall d | d in rows'.Values ensures d in after {
      var name :| name in rows' && rows'[name] == d;
      if name == def.name {
        assert after[i] == def;
      } else {
        assert d in rows.Values;
        var j :| 0 <= j < |defs| && defs[j] == d;
        assert after[j] == d;
      }
    }
  }

  lemma KeptOrNew(defs: seq<ProjectionDef>, rows: map<string, ProjectionDef>, def: ProjectionDef, d: ProjectionDef)
    requires Lists(defs, rows) && ProjectionRowsValid(rows) && d in FoldRuns.WithDef(defs, IndexOf(defs, def.name), def)
    ensures d == def || d in defs
    ensures d in rows[def.name := def].Values
  {
    var i := IndexOf(defs, def.name);
    var after := FoldRuns.WithDef(defs, i, def);
    var j :| 0 <= j < |after| && after[j] == d;
    if j == i {
      assert def.name in rows[def.name := def];
    } else {
      assert d == defs[j] && d in rows.Values;
      var name :| name in rows && rows[name] == d;
      if name == def.name {
        ListedOnce(defs, rows, j, name);
      }
      assert rows[def.name := def][name] == d;
    }
  }

  /** Rebuilds of one tenant, clean but the last of a request that failed. */
  ghost predicate OnlyRebuilds(defs: seq<ProjectionDef>, tenant: string, steps: seq<Live.Step>, failed: bool) {
    && (failed ==> steps != [])
    && forall j :: 0 <= j < |steps| ==> RebuiltAt(defs, tenant, steps, failed, j)
  }

  ghost predicate RebuiltAt(defs: seq<ProjectionDef>, tenant: string, steps: seq<Live.Step>, failed: bool, j: nat) {
    && j < |steps| && steps[j].Rebuilt? && steps[j].projection < |defs| && steps[j].tenant == tenant
    && (steps[j].clean <==> !(failed && j == |steps| - 1))
  }

  /** One step for each of the listed projections, and no more. */
  ghost predicate Visits(defs: seq<ProjectionDef>, steps: seq<Live.Step>, listed: seq<ProjectionDef>) {
    |steps| == |listed| && forall d :: d in listed ==> exists j :: VisitedAt(defs, steps, j, d)
  }

  ghost predicate VisitedAt(defs: seq<ProjectionDef>, steps: seq<Live.Step>, j: nat, d: ProjectionDef) {
    j < |steps| && steps[j].Rebuilt? && steps[j].projection < |defs| && defs[steps[j].projection] == d
  }

  /** The rebuilds of a list, one after the other, are steps of the live-view model. */
  lemma {:induction false} TrailIsPath(defs: seq<ProjectionDef>, s: Live.State, listed: seq<ProjectionDef>,
                                       tenant: string, events: seq<EventLike>, trail: seq<Tables>, failed: bool, k: nat)
    returns (steps: seq<Live.Step>, states: seq<Live.State>)
    requires Trail(listed, tenant, events, trail, failed) && k <= |trail| - 1 && trail[0] == s.tables
    requires (forall d :: d in listed ==> d in defs) && SameReplays(tenant, events, s.log)
    ensures Live.Path(defs, states, steps) && |steps| == k && states[0] == s
    ensures states[k].tables == trail[k] && states[k].log == s.log
    ensures forall j: nat :: j < k ==>
              VisitedAt(defs, steps, j, listed[j]) && steps[j].tenant == tenant
                  && steps[j].clean == !(failed && j == |trail| - 2)
    decreases k
  {
    if k == 0 {
      return [], [s];
    }
    var before, reached := TrailIsPath(defs, s, listed, tenant, events, trail, failed, k - 1);
    assert TrailAt(listed, tenant, events, trail, failed, k - 1);
    assert listed[k - 1] in defs;
    var clean := !(failed && k - 1 == |trail| - 2);
    var i :| 0 <= i < |defs| && defs[i] == listed[k - 1];
    RebuildingIsTo(defs[i], tenant, events, s.log, trail[k - 1], trail[k], clean);
    forall step | step in before ensures step.Rebuilt? {
      var j: nat :| j < |before| && before[j] == step;
      assert VisitedAt(defs, before, j, listed[j]);
    }
    steps, states := OneMoreRebuild(defs, reached, before, i, tenant, trail[k], clean);
    forall j: nat | j < k
      ensures VisitedAt(defs, steps, j, listed[j]) && steps[j].tenant == tenant
              && steps[j].clean == !(failed && j == |trail| - 2)
    {
      if j < k - 1 {
        assert VisitedAt(defs, before, j, listed[j]) && steps[j] == before[j];
      }
    }
  }

  /** One more rebuild at the end of a path of rebuilds. */
  lemma OneMoreRebuild(defs: seq<ProjectionDef>, reached: seq<Live.State>, before: seq<Live.Step>, i: nat,
                       tenant: string, tables: Tables, clean: bool)
    returns (steps: seq<Live.Step>, states: seq<Live.State>)
    requires Live.Path(defs, reached, before) && i < |defs| && forall step :: step in before ==> step.Rebuilt?
    requires var s := reached[|before|]; Live.RebuiltTo(defs[i], tenant, s.log, s.tables, tables, clean)
    ensures steps == before + [Live.Rebuilt(i, tenant, clean)]
    ensures states == reached + [Rebuilt(reached[|before|], i, tenant, tables, clean)]
    ensures Live.Path(defs, states, steps)
  {
    var s := reached[|before|];
    var next := Rebuilt(s, i, tenant, tables, clean);
    steps, states := before + [Live.Rebuilt(i, tenant, clean)], reached + [next];
    RebuildIsStep(defs, s, i, tenant, tables, clean);
    Live.DefsKept(defs, before, |before|);
    Live.PathOn(defs, reached, before, Live.Rebuilt(i, tenant, clean), next);
  }

  /** Every table a rebuild of the request visited. */
  ghost predicate AllFaithful(defs: seq<ProjectionDef>, tenant: string, steps: seq<Live.Step>, tables: Tables,
                              log: seq<EventLike>) {
    forall j, d :: VisitedAt(defs, steps, j, d) ==> Faithful(d, tenant, tables, log)
  }

  /** A request that rebuilds one projection. */
  lemma OneRebuild(defs: seq<ProjectionDef>, s: Live.State, i: nat, tenant: string, tables: Tables, failed: bool)
    returns (steps: seq<Live.Step>, states: seq<Live.State>)
    requires i < |defs| && Live.RebuiltTo(defs[i], tenant, s.log, s.tables, tables, !failed)
    ensures Live.Path(defs, states, steps) && |steps| == 1 && states[0] == s && states[1].log == s.log
            && states[1].tables == tables
    ensures OnlyRebuilds(defs, tenant, steps, failed) && Visits(defs, steps, [defs[i]])
    ensures !failed ==> AllFaithful(defs, tenant, steps, tables, s.log)
  {
    steps, states := [Live.Rebuilt(i, tenant, !failed)], [s, Rebuilt(s, i, tenant, tables, !failed)];
    RebuildIsStep(defs, s, i, tenant, tables, !failed);
    assert Live.StepAt(defs, states, steps, 0) && RebuiltAt(defs, tenant, steps, failed, 0);
    assert VisitedAt(defs, steps, 0, defs[i]);
    if !failed {
      RebuiltIsFaithful(defs[i], tenant, s.log, s.tables, tables);
    }
  }

  lemma {:induction false} AsManyAsElements(s: seq<ProjectionDef>)
    requires NoDuplicates(s)
    ensures |set d | d in s| == |s|
  {
    if s != [] {
      var rest := s[1..];
      AsManyAsElements(rest);
      assert (set d | d in s) == (set d | d in rest) + {s[0]};
    }
  }

  lemma SameCount(a: seq<ProjectionDef>, b: seq<ProjectionDef>)
    requires NoDuplicates(a) && DistinctTables(b) && forall d :: d in a <==> d in b
    ensures |a| == |b|
  {
    AsManyAsElements(a);
    AsManyAsElements(b);
    assert (set d | d in a) == (set d | d in b);
  }

  lemma TrailFaithful(listed: seq<ProjectionDef>, tenant: string, events: seq<EventLike>, log: seq<EventLike>,
                      trail: seq<Tables>, d: ProjectionDef)
    requires DistinctTables(listed) && Trail(listed, tenant, events, trail, false) && SameReplays(tenant, events, log)
             && d in listed
    ensures Faithful(d, tenant, trail[|listed|], log)
  {
    var j :| 0 <= j < |listed| && listed[j] == d;
    TrailRebuilds(listed, tenant, events, trail, |listed|);
    RebuildForgetsThePast(d, tenant, TableIn(trail[0], d.TableOf()), events);
    assert SameReplay(d, tenant, map[], events, log);
  }

  /** Each step of the path of a list rebuilds the next projection of it. */
  ghost predicate VisitsInTurn(defs: seq<ProjectionDef>, listed: seq<ProjectionDef>, tenant: string,
                               steps: seq<Live.Step>, failed: bool) {
    && |steps| <= |listed|
    && forall j: nat :: j < |steps| ==>
         VisitedAt(defs, steps, j, listed[j]) && steps[j].tenant == tenant
         && steps[j].clean == !(failed && j == |steps| - 1)
  }

  lemma TrailVisits(defs: seq<ProjectionDef>, listed: seq<ProjectionDef>, tenant: string, steps: seq<Live.Step>, k: nat,
                    failed: bool)
    requires |steps| == k <= |listed| && (failed ==> k > 0)
    requires forall j: nat :: j < k ==>
               VisitedAt(defs, steps, j, listed[j]) && steps[j].tenant == tenant
               && steps[j].clean == !(failed && j == k - 1)
    ensures VisitsInTurn(defs, listed, tenant, steps, failed) && OnlyRebuilds(defs, tenant, steps, failed)
  {
    forall j: nat | j < |steps| ensures RebuiltAt(defs, tenant, steps, failed, j) {
      assert VisitedAt(defs, steps, j, listed[j]);
    }
  }

  lemma EverythingVisited(defs: seq<ProjectionDef>, listed: seq<ProjectionDef>, tenant: string, events: seq<EventLike>,
                          log: seq<EventLike>, trail: seq<Tables>, steps: seq<Live.Step>)
    requires DistinctTables(defs) && DistinctTables(listed) && SameProjections(listed, defs)
    requires Trail(listed, tenant, events, trail, false) && SameReplays(tenant, events, log)
    requires VisitsInTurn(defs, listed, tenant, steps, false) && |steps| == |listed|
    ensures Visits(defs, steps, defs) && AllFaithful(defs, tenant, steps, trail[|listed|], log)
  {
    SameCount(listed, defs);
    forall d | d in defs
      ensures Faithful(d, tenant, trail[|listed|], log) && exists j :: VisitedAt(defs, steps, j, d)
    {
      var j: nat :| j < |listed| && listed[j] == d;
      assert VisitedAt(defs, steps, j, d);
      TrailFaithful(listed, tenant, events, log, trail, d);
    }
  }

  // ── a projection over the log's own table ────────────────────────────────────

  const OVER_LOG := ProjectionDef("x", "events", map[], map[])

  /** A definition that validation and table creation accept, with nothing in it but the log's
      name for its table: registering it deletes the caller's log, and the request is answered
      without a failure or a skip. */
  lemma PutOverLogLosesIt(tenant: string, schema: Schema, t: Table)
    requires LOG_TABLE in schema
    ensures ValidProjection(OVER_LOG) && SpineFree(OVER_LOG) && Creatable(schema, OVER_LOG)
            && Statements(schema, OVER_LOG) == 3
    ensures LogOk([FirstEvent(tenant)]) && LogAfterRebuild(OVER_LOG, tenant, [FirstEvent(tenant)], 1) == []
    ensures var w := RebuildWithin(OVER_LOG, tenant, t, Likes([FirstEvent(tenant)]), 1);
            !w.state.failed && w.state.skipped == 0
  {
    var mine := OtherRows(t, tenant);
    OverLogIsAccepted("x", "events");
    OneEventLog(tenant);
    OthersPush([], FirstEvent(tenant), tenant);
    assert [] + [FirstEvent(tenant)] == [FirstEvent(tenant)];
    NothingToFold(tenant, mine, Likes([FirstEvent(tenant)]));
  }

  lemma OverLogIsAccepted(name: string, table: string)
    requires name == "x" && table == LOG_TABLE
    ensures ValidProjection(ProjectionDef(name, table, map[], map[]))
  {
    assert IsIdentifier(name) && IsIdentifier(table);
  }

  lemma {:induction false} NothingToFold(tenant: string, t: Table, events: seq<EventLike>)
    ensures RefoldWithin(OVER_LOG, tenant, Within(ReplayState(t, 0, false), 0), events)
            == Within(ReplayState(t, 0, false), 0)
  {
    if events != [] {
      NothingToFold(tenant, t, events[..|events| - 1]);
    }
  }

  ghost predicate SameProjections(a: seq<ProjectionDef>, b: seq<ProjectionDef>) {
    NoDuplicates(a) && forall d :: d in a <==> d in b
  }

  /** The skips of all projections, each counted once. */
  ghost predicate Totalled(defs: seq<ProjectionDef>, tenant: string, events: seq<EventLike>, skipped: nat) {
    exists listed :: SameProjections(listed, defs) && skipped == TotalSkipped(listed, tenant, events)
  }

  class Service {
    const registry: Registry
    const bus: EventBus
    /** The registry, the fold and the store share one database. */
    const db: Database := registry.db
    const store: EventStore := registry.db.store

    constructor (registry: Registry, bus: EventBus)
      ensures this.registry == registry && this.bus == bus
    {
      this.registry, this.bus := registry, bus;
    }

    /** The fold of a committed batch, as a step of the live-view model. */
    method FoldStep(tenant: string, rows: seq<StoredEvent>, now: int, ghost defs: seq<ProjectionDef>,
                    ghost s: Live.State, ghost log: seq<StoredEvent>)
      returns (projected: bool, ghost s': Live.State)
      requires registry.Synced() && Lists(defs, registry.projectionRows)
      requires Abstracts(s, log, db.tables) && forall e :: e in rows ==> e.tenant == tenant
      modifies db`tables, db`budget, store`log
      ensures Abstracts(s', log + rows, db.tables) && store.log == old(store.log)
      ensures Live.Next(defs, s, Live.Appended(tenant, Likes(rows), projected), s')
    {
      projected := FoldRows(registry, db, rows, tenant, now, defs);
      AppendIsStep(defs, s, log, rows, tenant, db.tables, projected);
      s' := After(defs, s, tenant, log + rows, db.tables, projected);
    }

    /** What follows a commit. */
    method FoldAndPublish(tenant: string, rows: seq<StoredEvent>, now: int, ghost defs: seq<ProjectionDef>,
                          ghost s: Live.State, ghost log: seq<StoredEvent>)
      returns (projected: bool, ghost s': Live.State)
      requires registry.Synced() && bus.Valid() && Lists(defs, registry.projectionRows)
      requires Abstracts(s, log, db.tables) && forall e :: e in rows ==> e.tenant == tenant
      modifies db`tables, db`budget, store`log, bus`history, TenantMembers(bus.subs, tenant).Values
      ensures bus.Valid() && Abstracts(s', log + rows, db.tables) && store.log == old(store.log)
      ensures bus.history == old(bus.history) + Publications(tenant, rows)
      ensures Live.Next(defs, s, Live.Appended(tenant, Likes(rows), projected), s')
    {
      projected, s' := FoldStep(tenant, rows, now, defs, s, log);
      PublishRows(bus, tenant, rows);
    }

    /** `append`: commit, then fold, then publish. The log and the bus grow by the same rows
        in the same order whatever the fold does; the views take a step of the live-view
        model, with its `projected` flag. A refused append touches none of the three. */
    method Append(req: Request, now: int, ghost defs: seq<ProjectionDef>, ghost s: Live.State)
      returns (r: AppendResult, projected: bool, ghost s': Live.State)
      requires store.Valid() && registry.Synced() && bus.Valid() && Lists(defs, registry.projectionRows)
      requires Abstracts(s, store.log, db.tables)
      modifies store, db`tables, db`budget, bus`history, TenantMembers(bus.subs, req.tenant).Values
      ensures store.Valid() && bus.Valid() && Abstracts(s', store.log, db.tables)
      ensures r == Answer(old(store.log), old(store.nextSeq), req)
      ensures store.log == old(store.log) + NewRows(r)
      ensures bus.history == old(bus.history) + Publications(req.tenant, NewRows(r))
      ensures r.Appended? ==> Live.Next(defs, s, Live.Appended(req.tenant, Likes(NewRows(r)), projected), s')
      ensures !r.Appended? ==> s' == s && !projected
    {
      r := Commit(req);
      projected, s' := AfterCommit(req.tenant, r, now, defs, s, old(store.log));
    }

    method Commit(req: Request) returns (r: AppendResult)
      requires store.Valid()
      modifies store
      ensures store.Valid() && r == Answer(old(store.log), old(store.nextSeq), req)
      ensures store.log == old(store.log) + NewRows(r) && forall e :: e in NewRows(r) ==> e.tenant == req.tenant
    {
      r := store.Append(req);
      RowsOfTenant(old(store.log), old(store.nextSeq), req);
    }

    method AfterCommit(tenant: string, r: AppendResult, now: int, ghost defs: seq<ProjectionDef>, ghost s: Live.State,
                       ghost log: seq<StoredEvent>)
      returns (projected: bool, ghost s': Live.State)
      requires registry.Synced() && bus.Valid() && Lists(defs, registry.projectionRows)
      requires Abstracts(s, log, db.tables) && forall e :: e in NewRows(r) ==> e.tenant == tenant
      modifies db`tables, db`budget, store`log, bus`history, TenantMembers(bus.subs, tenant).Values
      ensures bus.Valid() && Abstracts(s', log + NewRows(r), db.tables) && store.log == old(store.log)
      ensures bus.history == old(bus.history) + Publications(tenant, NewRows(r))
      ensures r.Appended? ==> Live.Next(defs, s, Live.Appended(tenant, Likes(NewRows(r)), projected), s')
      ensures !r.Appended? ==> s' == s && !projected
    {
      if r.Appended? {
        projected, s' := FoldAndPublish(tenant, r.events, now, defs, s, log);
      } else {
        assert Publications(tenant, []) == [] && log + [] == log;
        projected, s' := false, s;
      }
    }

    /** The tenant's log, unfiltered and unlimited, as a rebuild reads it. */
    function TenantLog(tenant: string): seq<EventLike>
      reads store
    {
      Likes(ReadFrom(store.log, Topic(tenant, ""), 0))
    }

    /** `putProjection`: a definition that is invalid or whose table the database refuses
        changes no view; otherwise it is saved and the caller's rows become what its log
        defines, or part of that if the database refuses on the way. Other tenants' rows of the
        table stay as they were, even if an older definition wrote them. If the table is the
        log's, it is the caller's log that is deleted. */
    method PutProjection(def: ProjectionDef, tenant: string, now: int, ghost defs: seq<ProjectionDef>,
                         ghost s: Live.State)
      returns (saved: bool, rebuiltFrom: nat, skipped: nat, failed: bool, ghost s': Live.State)
      requires store.Valid() && registry.Synced() && SpineFree(def)
      modifies registry, db`tables, db`budget, store`log
      ensures store.Valid() && registry.Synced()
      ensures saved <==> ValidProjection(def) && old(db.budget) >= Statements(old(registry.schema), def)
      ensures registry.projectionRows
              == if saved then old(registry.projectionRows)[def.name := def] else old(registry.projectionRows)
      ensures !saved ==> db.tables == old(db.tables) && store.log == old(store.log)
      ensures saved ==>
                var left := old(db.budget) - Statements(old(registry.schema), def);
                && rebuiltFrom == |old(TenantLog(tenant))|
                && store.log == LogAfterRebuild(def, tenant, old(store.log), left)
                && RebuiltWithin(def, tenant, old(TenantLog(tenant)), old(db.tables), db.tables, left, skipped, failed)
      ensures saved && !failed && !OverLog(def) ==>
                var t, before := TableIn(db.tables, def.TableOf()), TableIn(old(db.tables), def.TableOf());
                && Faithful(def, tenant, db.tables, Likes(store.log))
                && skipped == Replay(def, tenant, Likes(store.log)).skipped
                && OtherRows(t, tenant) == OtherRows(before, tenant)
      ensures forall name: string :: name != def.TableOf() || OverLog(def) ==>
              TableIn(db.tables, name) == TableIn(old(db.tables), name)
      ensures saved && !OverLog(def) && Lists(defs, old(registry.projectionRows))
              && Abstracts(s, old(store.log), old(db.tables)) ==>
                var i := IndexOf(defs, def.name); var after := FoldRuns.WithDef(defs, i, def);
                DistinctTables(after) ==>
                  && Lists(after, registry.projectionRows) && Abstracts(s', store.log, db.tables)
                  && Live.Next(defs, s, Live.Redefined(i, def, tenant, !failed), s')
    {
      rebuiltFrom, skipped, failed, s' := 0, 0, false, s;
      saved := registry.SaveProjection(def);
      if saved {
        ValidIsStorable(def);
        rebuiltFrom, skipped, failed := RebuildOne(def, tenant, now);
        if !OverLog(def) && !failed {
          RebuiltIsFaithful(def, tenant, Likes(store.log), old(db.tables), db.tables);
        }
        s' := Redefined(s, IndexOf(defs, def.name), tenant, db.tables, !failed);
        if !OverLog(def) && Lists(defs, old(registry.projectionRows)) && Abstracts(s, old(store.log), old(db.tables))
           && DistinctTables(FoldRuns.WithDef(defs, IndexOf(defs, def.name), def)) {
          ListsAfter(defs, old(registry.projectionRows), def);
          RedefineIsStep(defs, s, IndexOf(defs, def.name), def, tenant, db.tables, !failed);
        }
      }
    }

    /** The shared tail of `putProjection` and `adminRebuild`: read the tenant's log, refold.
        Only that tenant's rows of that table can change, or its log if that is the table. */
    method RebuildOne(def: ProjectionDef, tenant: string, now: int)
      returns (rebuiltFrom: nat, skipped: nat, failed: bool)
      requires store.Valid() && Storable(def)
      modifies db`tables, db`budget, store`log
      ensures store.Valid() && rebuiltFrom == |old(TenantLog(tenant))|
      ensures store.log == LogAfterRebuild(def, tenant, old(store.log), old(db.budget))
      ensures RebuiltWithin(def, tenant, old(TenantLog(tenant)), old(db.tables), db.tables, old(db.budget), skipped,
                            failed)
      ensures !OverLog(def) ==> Live.RebuiltTo(def, tenant, Likes(store.log), old(db.tables), db.tables, !failed)
      ensures !OverLog(def) && !failed ==> skipped == Replay(def, tenant, Likes(store.log)).skipped
      ensures forall name: string :: name != def.TableOf() || OverLog(def) ==>
              TableIn(db.tables, name) == TableIn(old(db.tables), name)
    {
      var events := TenantLog(tenant);
      rebuiltFrom := |events|;
      ghost var before, budget := db.tables, db.budget;
      ReadReplays(tenant, store.log);
      OthersKeepLog(store.log, tenant);
      skipped, failed := RebuildProjection(db, def, tenant, events, now);
      WhatWasRebuilt(def, tenant, events, before, db.tables,
                     RebuildWithin(def, tenant, TableIn(before, def.TableOf()), events, budget), budget);
      if !OverLog(def) {
        RebuildingIsTo(def, tenant, events, Likes(store.log), before, db.tables, !failed);
        if !failed {
          CleanSkips(def, tenant, events, Likes(store.log), before, db.tables, budget, skipped);
        }
      }
    }

    /** `adminRebuild`: without a name every registered projection is rebuilt, with one that
        one; an unknown name changes nothing. Whatever is rebuilt takes one rebuild step of the
        live-view model after the other, the last of them cut short if the request failed. */
    method AdminRebuild(name: string, tenant: string, now: int, ghost defs: seq<ProjectionDef>, ghost s: Live.State)
      returns (known: bool, rebuiltFrom: nat, skipped: nat, failed: bool, ghost steps: seq<Live.Step>,
               ghost states: seq<Live.State>)
      requires store.Valid() && registry.Synced() && Lists(defs, registry.projectionRows)
      requires Abstracts(s, store.log, db.tables)
      modifies db`tables, db`budget, store`log
      ensures store.log == old(store.log)
      ensures known <==> name == "" || name in registry.projectionRows
      ensures !known ==> steps == [] && !failed
      ensures known ==> rebuiltFrom == |TenantLog(tenant)|
      ensures Live.Path(defs, states, steps) && states[0] == s && Abstracts(states[|steps|], store.log, db.tables)
      ensures OnlyRebuilds(defs, tenant, steps, failed)
      ensures name == "" && !failed ==> Visits(defs, steps, defs) && Totalled(defs, tenant, TenantLog(tenant), skipped)
      ensures name != "" && known ==>
                var def := registry.projectionRows[name];
                && |steps| == 1 && Visits(defs, steps, [def])
                && (failed <==>
                    Replay(def, tenant, Likes(store.log)).failed
                    || old(db.budget) < 1 + RefoldStatements(def, tenant, TenantLog(tenant)))
                && (!failed ==> skipped == Replay(def, tenant, Likes(store.log)).skipped)
      ensures !failed ==> AllFaithful(defs, tenant, steps, db.tables, Likes(store.log))
    {
      rebuiltFrom, skipped, failed, steps, states := 0, 0, false, [], [s];
      if name == "" {
        known := true;
        rebuiltFrom, skipped, failed, steps, states := RebuildEverything(tenant, now, defs, s);
      } else {
        known := name in registry.projections;
        if known {
          rebuiltFrom, skipped, failed, steps, states := RebuildNamed(name, tenant, now, defs, s);
        }
      }
    }

    method RebuildNamed(name: string, tenant: string, now: int, ghost defs: seq<ProjectionDef>, ghost s: Live.State)
      returns (rebuiltFrom: nat, skipped: nat, failed: bool, ghost steps: seq<Live.Step>, ghost states: seq<Live.State>)
      requires store.Valid() && registry.Synced() && Lists(defs, registry.projectionRows)
               && name in registry.projections
      requires Abstracts(s, store.log, db.tables)
      modifies db`tables, db`budget, store`log
      ensures store.log == old(store.log) && rebuiltFrom == |TenantLog(tenant)|
      ensures Live.Path(defs, states, steps) && states[0] == s && Abstracts(states[|steps|], store.log, db.tables)
      ensures OnlyRebuilds(defs, tenant, steps, failed)
      ensures var def := registry.projectionRows[name];
              && |steps| == 1 && Visits(defs, steps, [def])
              && (failed <==>
                  Replay(def, tenant, Likes(store.log)).failed
                  || old(db.budget) < 1 + RefoldStatements(def, tenant, TenantLog(tenant)))
              && (!failed ==> skipped == Replay(def, tenant, Likes(store.log)).skipped)
      ensures !failed ==> AllFaithful(defs, tenant, steps, db.tables, Likes(store.log))
    {
      ghost var def := registry.projectionRows[name];
      assert def in registry.projectionRows.Values;
      ListedStorable(defs, registry.projectionRows);
      ghost var i :| 0 <= i < |defs| && defs[i] == def;
      ReadReplays(tenant, store.log);
      assert SameReplay(def, tenant, map[], TenantLog(tenant), Likes(store.log));
      rebuiltFrom, skipped, failed := RebuildOne(registry.projections[name], tenant, now);
      steps, states := OneRebuild(defs, s, i, tenant, db.tables, failed);
    }

    method RebuildEverything(tenant: string, now: int, ghost defs: seq<ProjectionDef>, ghost s: Live.State)
      returns (rebuiltFrom: nat, skipped: nat, failed: bool, ghost steps: seq<Live.Step>, ghost states: seq<Live.State>)
      requires store.Valid() && registry.Synced() && Lists(defs, registry.projectionRows)
      requires Abstracts(s, store.log, db.tables)
      modifies db`tables, db`budget, store`log
      ensures store.log == old(store.log) && rebuiltFrom == |TenantLog(tenant)|
      ensures Live.Path(defs, states, steps) && states[0] == s && Abstracts(states[|steps|], store.log, db.tables)
      ensures OnlyRebuilds(defs, tenant, steps, failed)
      ensures !failed ==> Visits(defs, steps, defs) && Totalled(defs, tenant, TenantLog(tenant), skipped)
      ensures !failed ==> AllFaithful(defs, tenant, steps, db.tables, Likes(store.log))
    {
      var events := TenantLog(tenant);
      rebuiltFrom := |events|;
      var listed := registry.ListProjections();
      DistinctSublist(listed, defs);
      ListedStorable(defs, registry.projectionRows);
      ghost var trail;
      skipped, failed, trail := RebuildTenant(db, listed, tenant, events, now);
      ReadReplays(tenant, store.log);
      steps, states := TrailIsPath(defs, s, listed, tenant, events, trail, failed, |trail| - 1);
      TrailVisits(defs, listed, tenant, steps, |trail| - 1, failed);
      if !failed {
        assert SameProjections(listed, defs);
        EverythingVisited(defs, listed, tenant, events, s.log, trail, steps);
      }
    }
  }

  // ── a subscribe session ──────────────────────────────────────────────────────

  /** What a catch-up puts on the wire. */
  function CaughtUp(o: Feed.Outlet, events: seq<StoredEvent>): Feed.Outlet {
    if events == [] then o else Feed.Written(CaughtUp(o, events[..|events| - 1]), events[|events| - 1])
  }

  class Session {
    const q: Topic
    var lastSeq: int
    var wire: seq<StoredEvent>

    function Out(): Feed.Outlet
      reads this
    {
      Feed.Outlet(lastSeq, wire)
    }

    /** The cursor a session starts from: the header wins over the query parameter when it
        is a number. */
    constructor (q: Topic, fromQuery: int, lastEventId: Option<int>)
      ensures this.q == q && wire == []
      ensures lastSeq == match lastEventId case Some(n) => n case None => fromQuery
    {
      this.q := q;
      lastSeq := match lastEventId case Some(n) => n case None => fromQuery;
      wire := [];
    }

    /** Sends the whole log past the cursor, in order. */
    method CatchUp(log: seq<StoredEvent>)
      requires Ordered(log)
      modifies this
      ensures wire == old(wire) + ReadFrom(log, q, old(lastSeq))
      ensures Out() == CaughtUp(old(Out()), ReadFrom(log, q, old(lastSeq)))
    {
      var events := ReadFrom(log, q, lastSeq);
      for i := 0 to |events|
        invariant Out() == CaughtUp(old(Out()), events[..i]) && wire == old(wire) + events[..i]
      {
        assert events[..i + 1][..i] == events[..i] && events[..i + 1] == events[..i] + [events[i]];
        wire := wire + [events[i]];
        lastSeq := events[i].globalSeq;
      }
      assert events[..|events|] == events;
    }

    /** One event taken from the bus buffer: overlap and other categories are skipped. */
    method Take(e: StoredEvent)
      modifies this
      ensures Out() == Feed.Tailed(q, old(Out()), e)
    {
      if e.globalSeq <= lastSeq {
        return;
      }
      if q.category != "" && e.streamType != q.category {
        return;
      }
      wire := wire + [e];
      lastSeq := e.globalSeq;
    }
  }

  /** The catch-up of the feed model, step by step, is the session's loop. */
  lemma {:induction false} CatchUpRefines(q: Topic, s: Feed.State, k: nat)
    requires s.phase.CatchUp? && k <= |s.phase.rest|
    ensures var t := Feed.Run(q, s, Feed.Repeat(Feed.SendCatchUp, k));
            t.phase == Feed.CatchUp(s.phase.rest[k..])
            && Feed.Outlet(t.lastSeq, t.wire) == CaughtUp(Feed.Outlet(s.lastSeq, s.wire), s.phase.rest[..k])
    decreases k
  {
    var rest := s.phase.rest;
    if k == 0 {
      assert rest[0..] == rest && rest[..0] == [];
    } else {
      var next := Feed.Next(q, s, Feed.SendCatchUp);
      Feed.RunFirst(q, s, Feed.SendCatchUp, Feed.Repeat(Feed.SendCatchUp, k - 1));
      CatchUpRefines(q, next, k - 1);
      assert rest[1..][k - 1..] == rest[k..];
      CaughtUpFirst(Feed.Outlet(s.lastSeq, s.wire), rest[..k]);
      assert rest[..k][1..] == rest[1..][..k - 1];
    }
  }

  lemma {:induction false} CaughtUpFirst(o: Feed.Outlet, events: seq<StoredEvent>)
    requires events != []
    ensures CaughtUp(o, events) == CaughtUp(Feed.Written(o, events[0]), events[1..])
  {
    var n := |events| - 1;
    if n > 0 {
      CaughtUpFirst(o, events[..n]);
      assert events[..n][1..] == events[1..][..n - 1];
    } else {
      assert events[..0] == [] && events[1..] == [];
    }
  }
}
