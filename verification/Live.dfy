/** Runs of whole appends and whole rebuilds, one after the other: each append folds its own
    events before the next begins, either may meet a database that fails it, and a projection
    may be saved in between. Every such run is one of the runs of single folds in log order
    (`FoldRuns`), from which what holds of its views follows. */
module Live {
  import opened Basics
  import opened Definitions
  import opened Projector
  import opened ReadModels
  import FoldRuns

  /** `stale` and `unprojected` are bookkeeping: the views a failure or a redefinition may have
      left behind the log, and those whose definition may be unable to fold some event of it. */
  datatype State = State(log: seq<EventLike>, tables: Tables, stale: iset<FoldRuns.View>,
                         unprojected: iset<FoldRuns.View>)

  datatype Step =
    | Appended(tenant: string, batch: seq<EventLike>, projected: bool)
    | Rebuilt(projection: nat, tenant: string, clean: bool)
    /** A projection saved by one tenant, whose rows are then rebuilt. */
    | Redefined(index: nat, def: ProjectionDef, tenant: string, clean: bool)

  function DefsAfter(defs: seq<ProjectionDef>, step: Step): seq<ProjectionDef> {
    if step.Redefined? then FoldRuns.WithDef(defs, step.index, step.def) else defs
  }

  /** The definitions after the first steps. */
  function DefsAt(defs: seq<ProjectionDef>, steps: seq<Step>, k: nat): seq<ProjectionDef>
    requires k <= |steps|
  {
    if k == 0 then defs else DefsAfter(DefsAt(defs, steps, k - 1), steps[k - 1])
  }

  /** A rebuild of one view: clean, or cut short at any of its writes. */
  ghost predicate RebuiltTo(def: ProjectionDef, tenant: string, log: seq<EventLike>, ts: Tables, us: Tables,
                            clean: bool) {
    && (forall name: string :: name != def.TableOf() ==> TableIn(us, name) == TableIn(ts, name))
    && if clean then
         var r := Rebuild(def, tenant, TableIn(ts, def.TableOf()), log);
         !r.failed && TableIn(us, def.TableOf()) == r.table
       else OnlyTenant(ts, us, tenant)
  }

  ghost function Marked(stale: iset<FoldRuns.View>, v: FoldRuns.View, clean: bool): iset<FoldRuns.View> {
    if clean then stale - iset{v} else stale + iset{v}
  }

  /** The tables after a failure are only known not to differ in other tenants' rows: the
      fold may have stopped before, between or after any of its writes. */
  ghost predicate Next(defs: seq<ProjectionDef>, s: State, step: Step, s': State) {
    match step
    case Appended(tenant, batch, projected) =>
      && (forall e :: e in batch ==> e.tenant == tenant)
      && s'.log == s.log + batch
      && if projected then
           && FoldBatch(defs, batch, s.tables).outcome.Done?
           && SameViews(s'.tables, FoldBatch(defs, batch, s.tables).tables)
           && s'.stale == s.stale && s'.unprojected == s.unprojected
         else
           var views := FoldRuns.Among(FoldRuns.ViewsOf(defs, tenant));
           && OnlyTenant(s.tables, s'.tables, tenant)
           && s'.stale == s.stale + views && s'.unprojected == s.unprojected + views
    case Rebuilt(i, tenant, clean) =>
      && i < |defs|
      && s'.log == s.log && s'.unprojected == s.unprojected
      && RebuiltTo(defs[i], tenant, s.log, s.tables, s'.tables, clean)
      && s'.stale == Marked(s.stale, FoldRuns.View(i, tenant), clean)
    case Redefined(i, def, tenant, clean) =>
      && i <= |defs| && DistinctTables(FoldRuns.WithDef(defs, i, def))
      && s'.log == s.log && s'.unprojected == s.unprojected + FoldRuns.ViewsOn(i)
      && RebuiltTo(def, tenant, s.log, s.tables, s'.tables, clean)
      && s'.stale == Marked(s.stale + FoldRuns.ViewsOn(i), FoldRuns.View(i, tenant), clean)
  }

  /** These steps lead through these states. */
  ghost predicate Path(defs: seq<ProjectionDef>, states: seq<State>, steps: seq<Step>) {
    |states| == |steps| + 1 && forall i :: 0 <= i < |steps| ==> StepAt(defs, states, steps, i)
  }

  ghost predicate IsRun(defs: seq<ProjectionDef>, states: seq<State>, steps: seq<Step>) {
    Path(defs, states, steps) && Blank(states[0])
  }

  ghost predicate Blank(s: State) {
    s.log == [] && SameViews(s.tables, map[]) && s.stale == iset{} && s.unprojected == iset{}
  }

  ghost predicate StepAt(defs: seq<ProjectionDef>, states: seq<State>, steps: seq<Step>, i: nat) {
    i < |steps| && i + 1 < |states| && Next(DefsAt(defs, steps, i), states[i], steps[i], states[i + 1])
  }

  lemma {:induction false} SameDefsAt(defs: seq<ProjectionDef>, steps: seq<Step>, step: Step, k: nat)
    requires k <= |steps|
    ensures DefsAt(defs, steps + [step], k) == DefsAt(defs, steps, k)
    decreases k
  {
    if k > 0 {
      SameDefsAt(defs, steps, step, k - 1);
    }
  }

  lemma PathOn(defs: seq<ProjectionDef>, states: seq<State>, steps: seq<Step>, step: Step, s': State)
    requires Path(defs, states, steps) && Next(DefsAt(defs, steps, |steps|), states[|steps|], step, s')
    ensures Path(defs, states + [s'], steps + [step])
  {
    forall i | 0 <= i < |steps| + 1 ensures StepAt(defs, states + [s'], steps + [step], i) {
      SameDefsAt(defs, steps, step, i);
      if i < |steps| {
        assert StepAt(defs, states, steps, i);
      }
    }
  }

  lemma {:induction false} DefsKept(defs: seq<ProjectionDef>, steps: seq<Step>, k: nat)
    requires k <= |steps| && forall step :: step in steps ==> !step.Redefined?
    ensures DefsAt(defs, steps, k) == defs
    decreases k
  {
    if k > 0 {
      DefsKept(defs, steps, k - 1);
      assert steps[k - 1] in steps;
    }
  }

  // ── every step is a run of single folds ──────────────────────────────────────

  /** The fine-grained state between two steps: the same, with nothing left to fold. */
  ghost predicate Matches(f: FoldRuns.State, s: State) {
    && f.log == s.log && SameViews(f.tables, s.tables) && f.stale == s.stale && f.unprojected == s.unprojected
    && forall v :: FoldRuns.Queue(f, v) == []
  }

  /** From f these moves are a run in log order to g, and leave these definitions. */
  ghost predicate LeadsTo(defs: seq<ProjectionDef>, f: FoldRuns.State, moves: seq<FoldRuns.Move>,
                          after: seq<ProjectionDef>, g: FoldRuns.State) {
    && FoldRuns.Runs(defs, f, moves) && FoldRuns.AlwaysInOrder(f, moves) && FoldRuns.End(f, moves) == g
    && FoldRuns.DefsOf(defs, moves) == after
  }

  /** The same, without a redefinition. */
  ghost predicate Leads(defs: seq<ProjectionDef>, f: FoldRuns.State, moves: seq<FoldRuns.Move>, g: FoldRuns.State) {
    LeadsTo(defs, f, moves, defs, g)
  }

  lemma FirstMove(defs: seq<ProjectionDef>, f: FoldRuns.State, step: FoldRuns.Step, g: FoldRuns.State)
    requires FoldRuns.Next(defs, f, step, g) && FoldRuns.InOrder(f, step)
    ensures LeadsTo(defs, f, [FoldRuns.Move(step, g)], FoldRuns.DefsAfter(defs, step), g)
  {
    var moves := [FoldRuns.Move(step, g)];
    assert moves[..0] == [];
  }

  lemma OneMove(defs: seq<ProjectionDef>, f: FoldRuns.State, step: FoldRuns.Step, g: FoldRuns.State)
    requires FoldRuns.Next(defs, f, step, g) && FoldRuns.InOrder(f, step) && !step.Redefine?
    ensures Leads(defs, f, [FoldRuns.Move(step, g)], g)
  {
    FirstMove(defs, f, step, g);
  }

  lemma JoinedTo(defs: seq<ProjectionDef>, f: FoldRuns.State, a: seq<FoldRuns.Move>, mid: seq<ProjectionDef>,
                 g: FoldRuns.State, b: seq<FoldRuns.Move>, after: seq<ProjectionDef>, h: FoldRuns.State)
    requires LeadsTo(defs, f, a, mid, g) && LeadsTo(mid, g, b, after, h)
    ensures LeadsTo(defs, f, a + b, after, h)
  {
    FoldRuns.RunOn(defs, f, a, b);
  }

  lemma Joined(defs: seq<ProjectionDef>, f: FoldRuns.State, a: seq<FoldRuns.Move>, g: FoldRuns.State,
               b: seq<FoldRuns.Move>, h: FoldRuns.State)
    requires Leads(defs, f, a, g) && Leads(defs, g, b, h)
    ensures Leads(defs, f, a + b, h)
  {
    JoinedTo(defs, f, a, defs, g, b, defs, h);
  }

  /** Only queues, tables and the record of what was folded have moved. */
  ghost predicate Folding(f: FoldRuns.State, g: FoldRuns.State) {
    g.log == f.log && g.stale == f.stale && g.unprojected == f.unprojected
  }

  lemma FoldOne(defs: seq<ProjectionDef>, f: FoldRuns.State, v: FoldRuns.View, e: EventLike, rest: seq<FoldRuns.Todo>)
    returns (g: FoldRuns.State)
    requires v.projection < |defs| && FoldRuns.Queue(f, v) == [FoldRuns.Todo(e, false)] + rest
    requires ApplyTo(defs[v.projection], e, FoldRuns.TableOfView(defs, f, v)).Folded?
    ensures Leads(defs, f, [FoldRuns.Move(FoldRuns.Fold(v, 0), g)], g) && Folding(f, g)
    ensures g.tables == FoldInto(defs[v.projection], e, f.tables)
    ensures FoldRuns.Queue(g, v) == rest && forall u :: u != v ==> FoldRuns.Queue(g, u) == FoldRuns.Queue(f, u)
  {
    assert FoldRuns.Without(FoldRuns.Queue(f, v), 0) == rest;
    g := FoldRuns.AfterFold(defs, f, v, 0);
    OneMove(defs, f, FoldRuns.Fold(v, 0), g);
  }

  /** One event, folded into the projections from the j-th on. */
  lemma {:induction false} FoldEverywhere(defs: seq<ProjectionDef>, j: nat, f: FoldRuns.State, e: EventLike,
                                          rest: seq<FoldRuns.Todo>)
    returns (moves: seq<FoldRuns.Move>, g: FoldRuns.State)
    requires j <= |defs| && FoldAll(defs[j..], e, f.tables).outcome.Done?
    requires forall i :: j <= i < |defs| ==>
             FoldRuns.Queue(f, FoldRuns.View(i, e.tenant)) == [FoldRuns.Todo(e, false)] + rest
    ensures Leads(defs, f, moves, g) && Folding(f, g) && g.tables == FoldAll(defs[j..], e, f.tables).tables
    ensures forall i :: j <= i < |defs| ==> FoldRuns.Queue(g, FoldRuns.View(i, e.tenant)) == rest
    ensures forall v: FoldRuns.View :: v.projection < j || v.projection >= |defs| || v.tenant != e.tenant ==>
            FoldRuns.Queue(g, v) == FoldRuns.Queue(f, v)
    decreases |defs| - j
  {
    if j == |defs| {
      return [], f;
    }
    var v := FoldRuns.View(j, e.tenant);
    FoldAllStep(defs, j, e, f.tables);
    var f1 := FoldOne(defs, f, v, e, rest);
    var more;
    more, g := FoldEverywhere(defs, j + 1, f1, e, rest);
    moves := [FoldRuns.Move(FoldRuns.Fold(v, 0), f1)] + more;
    Joined(defs, f, [FoldRuns.Move(FoldRuns.Fold(v, 0), f1)], f1, more, g);
  }

  /** Exactly the tenant's views wait, each for these events. */
  ghost predicate Waiting(defs: seq<ProjectionDef>, f: FoldRuns.State, tenant: string, events: seq<EventLike>) {
    forall v :: FoldRuns.Queue(f, v)
                == if v.tenant == tenant && v.projection < |defs| then FoldRuns.Todos(events, false) else []
  }

  lemma NextWaiting(defs: seq<ProjectionDef>, f: FoldRuns.State, batch: seq<EventLike>, k: nat, tenant: string)
    requires k < |batch| && Waiting(defs, f, tenant, batch[k..])
    ensures forall i :: 0 <= i < |defs| ==>
              FoldRuns.Queue(f, FoldRuns.View(i, tenant))
                  == [FoldRuns.Todo(batch[k], false)] + FoldRuns.Todos(batch[k + 1..], false)
  {
    assert FoldRuns.Todos(batch[k..], false)
        == [FoldRuns.Todo(batch[k], false)] + FoldRuns.Todos(batch[k + 1..], false);
  }

  lemma BatchPrefix(defs: seq<ProjectionDef>, batch: seq<EventLike>, k: nat, ts: Tables)
    requires k < |batch| && FoldBatch(defs, batch[..k + 1], ts).outcome.Done?
    ensures FoldBatch(defs, batch[..k], ts).outcome.Done?
    ensures FoldBatch(defs, batch[..k + 1], ts) == FoldAll(defs, batch[k], FoldBatch(defs, batch[..k], ts).tables)
  {
    assert batch[..k + 1][..k] == batch[..k];
  }

  /** The next event of a committed batch. */
  lemma FoldNext(defs: seq<ProjectionDef>, f: FoldRuns.State, tenant: string, batch: seq<EventLike>, k: nat)
    returns (moves: seq<FoldRuns.Move>, g: FoldRuns.State)
    requires k < |batch| && batch[k].tenant == tenant && Waiting(defs, f, tenant, batch[k..])
    requires FoldAll(defs, batch[k], f.tables).outcome.Done?
    ensures Leads(defs, f, moves, g) && Folding(f, g)
    ensures g.tables == FoldAll(defs, batch[k], f.tables).tables && Waiting(defs, g, tenant, batch[k + 1..])
  {
    NextWaiting(defs, f, batch, k, tenant);
    assert defs[0..] == defs;
    moves, g := FoldEverywhere(defs, 0, f, batch[k], FoldRuns.Todos(batch[k + 1..], false));
    forall v: FoldRuns.View
      ensures FoldRuns.Queue(g, v)
              == if v.tenant == tenant && v.projection < |defs| then FoldRuns.Todos(batch[k + 1..], false) else []
    {
      if v.tenant == tenant && v.projection < |defs| {
        assert v == FoldRuns.View(v.projection, tenant);
      }
    }
  }

  /** The first k events of a committed batch are folded, the others wait. */
  ghost predicate FoldedFirst(defs: seq<ProjectionDef>, f: FoldRuns.State, tenant: string, batch: seq<EventLike>,
                              k: nat, g: FoldRuns.State)
    requires k <= |batch|
  {
    && Folding(f, g) && Waiting(defs, g, tenant, batch[k..])
    && FoldBatch(defs, batch[..k], f.tables).outcome.Done? && g.tables == FoldBatch(defs, batch[..k], f.tables).tables
  }

  lemma OneMoreFirst(defs: seq<ProjectionDef>, f: FoldRuns.State, tenant: string, batch: seq<EventLike>, k: nat,
                     f1: FoldRuns.State)
    returns (moves: seq<FoldRuns.Move>, g: FoldRuns.State)
    requires k < |batch| && batch[k].tenant == tenant && FoldedFirst(defs, f, tenant, batch, k, f1)
    requires FoldBatch(defs, batch[..k + 1], f.tables).outcome.Done?
    ensures Leads(defs, f1, moves, g) && FoldedFirst(defs, f, tenant, batch, k + 1, g)
  {
    BatchPrefix(defs, batch, k, f.tables);
    moves, g := FoldNext(defs, f1, tenant, batch, k);
  }

  /** A committed batch, folded event by event in order. */
  lemma {:induction false} FoldQueued(defs: seq<ProjectionDef>, f: FoldRuns.State, tenant: string,
                                      batch: seq<EventLike>, k: nat)
    returns (moves: seq<FoldRuns.Move>, g: FoldRuns.State)
    requires k <= |batch| && (forall e :: e in batch ==> e.tenant == tenant) && Waiting(defs, f, tenant, batch)
    requires FoldBatch(defs, batch[..k], f.tables).outcome.Done?
    ensures Leads(defs, f, moves, g) && FoldedFirst(defs, f, tenant, batch, k, g)
    decreases k
  {
    if k == 0 {
      assert batch[0..] == batch && batch[..0] == [];
      return [], f;
    }
    BatchPrefix(defs, batch, k - 1, f.tables);
    var before, f1 := FoldQueued(defs, f, tenant, batch, k - 1);
    assert batch[k - 1] in batch;
    var more;
    more, g := OneMoreFirst(defs, f, tenant, batch, k - 1, f1);
    moves := before + more;
    Joined(defs, f, before, f1, more, g);
  }

  lemma Committed(defs: seq<ProjectionDef>, f: FoldRuns.State, tenant: string, batch: seq<EventLike>)
    returns (g: FoldRuns.State)
    requires (forall e :: e in batch ==> e.tenant == tenant) && forall v :: FoldRuns.Queue(f, v) == []
    ensures Leads(defs, f, [FoldRuns.Move(FoldRuns.Commit(batch), g)], g) && Waiting(defs, g, tenant, batch)
    ensures g.log == f.log + batch && g.tables == f.tables && g.stale == f.stale && g.unprojected == f.unprojected
  {
    g := f.(log := f.log + batch,
            queues := map v | v in FoldRuns.ViewsOf(defs, tenant) :: FoldRuns.Todos(batch, false));
    forall v: FoldRuns.View
      ensures FoldRuns.Queue(g, v)
              == FoldRuns.Queue(f, v)
                 + if v.projection < |defs| then FoldRuns.Todos(FoldRuns.Mine(v.tenant, batch), false) else []
    {
      FoldRuns.AllMine(tenant, batch, v.tenant);
      assert v in FoldRuns.ViewsOf(defs, tenant) <==> v.tenant == tenant && v.projection < |defs|;
      assert [] + FoldRuns.Todos(batch, false) == FoldRuns.Todos(batch, false);
    }
    OneMove(defs, f, FoldRuns.Commit(batch), g);
  }

  lemma {:induction false} SameBatch(defs: seq<ProjectionDef>, batch: seq<EventLike>, ts: Tables, us: Tables)
    requires SameViews(ts, us)
    ensures FoldBatch(defs, batch, ts).outcome == FoldBatch(defs, batch, us).outcome
    ensures SameViews(FoldBatch(defs, batch, ts).tables, FoldBatch(defs, batch, us).tables)
  {
    if batch != [] {
      var before := batch[..|batch| - 1];
      SameBatch(defs, before, ts, us);
      SameTables(defs, batch[|batch| - 1], FoldBatch(defs, before, ts).tables, FoldBatch(defs, before, us).tables);
    }
  }

  lemma ProjectedRuns(defs: seq<ProjectionDef>, f: FoldRuns.State, s: State, step: Step, s': State)
    returns (moves: seq<FoldRuns.Move>, g: FoldRuns.State)
    requires Matches(f, s) && Next(defs, s, step, s') && step.Appended? && step.projected
    ensures Leads(defs, f, moves, g) && Matches(g, s')
  {
    var batch := step.batch;
    SameBatch(defs, batch, f.tables, s.tables);
    assert batch[..|batch|] == batch && batch[|batch|..] == [];
    var f1 := Committed(defs, f, step.tenant, batch);
    var more;
    more, g := FoldQueued(defs, f1, step.tenant, batch, |batch|);
    moves := [FoldRuns.Move(FoldRuns.Commit(batch), f1)] + more;
    Joined(defs, f, [FoldRuns.Move(FoldRuns.Commit(batch), f1)], f1, more, g);
  }

  lemma UnprojectedRuns(defs: seq<ProjectionDef>, f: FoldRuns.State, s: State, step: Step, s': State)
    returns (moves: seq<FoldRuns.Move>, g: FoldRuns.State)
    requires Matches(f, s) && Next(defs, s, step, s') && step.Appended? && !step.projected
    ensures Leads(defs, f, moves, g) && Matches(g, s')
  {
    var views := FoldRuns.ViewsOf(defs, step.tenant);
    var f1 := Committed(defs, f, step.tenant, step.batch);
    g := f1.(tables := s'.tables, queues := map[], stale := s'.stale, unprojected := s'.unprojected);
    var stop := FoldRuns.Stop(step.tenant, views, true);
    forall v: FoldRuns.View | v !in views ensures FoldRuns.Queue(g, v) == FoldRuns.Queue(f1, v) {
      assert v.tenant == step.tenant && v.projection < |defs| ==> v in views;
    }
    assert FoldRuns.Stopped(defs, f1, step.tenant, views, true, g);
    OneMove(defs, f1, stop, g);
    moves := [FoldRuns.Move(FoldRuns.Commit(step.batch), f1)] + [FoldRuns.Move(stop, g)];
    Joined(defs, f, [FoldRuns.Move(FoldRuns.Commit(step.batch), f1)], f1, [FoldRuns.Move(stop, g)], g);
  }

  /** One event of a rebuild, folded or skipped. */
  lemma RefoldOne(defs: seq<ProjectionDef>, f: FoldRuns.State, v: FoldRuns.View, e: EventLike, rest: seq<FoldRuns.Todo>)
    returns (g: FoldRuns.State)
    requires v.projection < |defs| && FoldRuns.Queue(f, v) == [FoldRuns.Todo(e, true)] + rest
    requires !ApplyTo(defs[v.projection], e, FoldRuns.TableOfView(defs, f, v)).SqlFailure?
    ensures Leads(defs, f, [FoldRuns.Move(FoldRuns.Fold(v, 0), g)], g) && Folding(f, g)
    ensures g.tables == FoldInto(defs[v.projection], e, f.tables)
    ensures FoldRuns.Queue(g, v) == rest && forall u :: u != v ==> FoldRuns.Queue(g, u) == FoldRuns.Queue(f, u)
  {
    assert FoldRuns.Without(FoldRuns.Queue(f, v), 0) == rest;
    g := FoldRuns.AfterFold(defs, f, v, 0);
    OneMove(defs, f, FoldRuns.Fold(v, 0), g);
  }

  lemma TodosFrom(events: seq<EventLike>, k: nat)
    requires k < |events|
    ensures FoldRuns.Todos(events[k..], true)
            == [FoldRuns.Todo(events[k], true)] + FoldRuns.Todos(events[k + 1..], true)
  {
  }

  /** A fold into one table as a step of the replay of it. */
  lemma FoldIsReplayStep(def: ProjectionDef, tenant: string, ts: Tables, r: ReplayState, e: EventLike)
    requires e.tenant == tenant && !r.failed && TableIn(ts, def.TableOf()) == r.table
             && !ReplayStep(def, tenant, r, e).failed
    ensures !ApplyTo(def, e, r.table).SqlFailure?
    ensures TableIn(FoldInto(def, e, ts), def.TableOf()) == ReplayStep(def, tenant, r, e).table
    ensures forall name: string :: name != def.TableOf() ==> TableIn(FoldInto(def, e, ts), name) == TableIn(ts, name)
  {
  }

  /** A rebuild's events, refolded one by one. */
  lemma {:induction false} RefoldQueued(defs: seq<ProjectionDef>, f: FoldRuns.State, v: FoldRuns.View,
                                        events: seq<EventLike>, k: nat)
    returns (moves: seq<FoldRuns.Move>, g: FoldRuns.State)
    requires k <= |events| && v.projection < |defs| && (forall e :: e in events ==> e.tenant == v.tenant)
    requires FoldRuns.Queue(f, v) == FoldRuns.Todos(events, true)
    requires !ReplayFrom(defs[v.projection], v.tenant, FoldRuns.TableOfView(defs, f, v), events[..k]).failed
    ensures Leads(defs, f, moves, g) && Folding(f, g)
    ensures FoldRuns.TableOfView(defs, g, v)
            == ReplayFrom(defs[v.projection], v.tenant, FoldRuns.TableOfView(defs, f, v), events[..k]).table
    ensures forall name: string :: name != defs[v.projection].TableOf() ==>
            TableIn(g.tables, name) == TableIn(f.tables, name)
    ensures FoldRuns.Queue(g, v) == FoldRuns.Todos(events[k..], true)
    ensures forall u :: u != v ==> FoldRuns.Queue(g, u) == FoldRuns.Queue(f, u)
    decreases k
  {
    if k == 0 {
      assert events[0..] == events && events[..0] == [];
      return [], f;
    }
    var def, t, e := defs[v.projection], FoldRuns.TableOfView(defs, f, v), events[k - 1];
    ReplayPrefix(def, v.tenant, t, events, k - 1);
    var before, f1 := RefoldQueued(defs, f, v, events, k - 1);
    TodosFrom(events, k - 1);
    FoldIsReplayStep(def, v.tenant, f1.tables, ReplayFrom(def, v.tenant, t, events[..k - 1]), e);
    g := RefoldOne(defs, f1, v, e, FoldRuns.Todos(events[k..], true));
    moves := before + [FoldRuns.Move(FoldRuns.Fold(v, 0), g)];
    Joined(defs, f, before, f1, [FoldRuns.Move(FoldRuns.Fold(v, 0), g)], g);
  }

  lemma WipedAtRest(defs: seq<ProjectionDef>, f: FoldRuns.State, v: FoldRuns.View) returns (g: FoldRuns.State)
    requires v.projection < |defs| && FoldRuns.Queue(f, v) == []
    ensures Leads(defs, f, [FoldRuns.Move(FoldRuns.Wipe(v, |f.log|), g)], g)
    ensures g.log == f.log && g.stale == f.stale - iset{v} && g.unprojected == f.unprojected
    ensures FoldRuns.TableOfView(defs, g, v) == OtherRows(FoldRuns.TableOfView(defs, f, v), v.tenant)
    ensures forall name: string :: name != defs[v.projection].TableOf() ==>
            TableIn(g.tables, name) == TableIn(f.tables, name)
    ensures forall u :: u != v ==> FoldRuns.Queue(g, u) == FoldRuns.Queue(f, u)
    ensures FoldRuns.Queue(g, v) == FoldRuns.Todos(FoldRuns.Mine(v.tenant, f.log), true)
  {
    g := FoldRuns.AfterWipe(defs, f, v, |f.log|);
    var mine := FoldRuns.Mine(v.tenant, f.log);
    assert f.log[..|f.log|] == f.log && mine + [] == mine;
    assert FoldRuns.Todos(mine, true) + [] == FoldRuns.Todos(mine, true);
    OneMove(defs, f, FoldRuns.Wipe(v, |f.log|), g);
  }

  /** A whole rebuild with nothing else going on: the wipe, then every refold. */
  lemma RebuildMoves(defs: seq<ProjectionDef>, f: FoldRuns.State, v: FoldRuns.View)
    returns (moves: seq<FoldRuns.Move>, g: FoldRuns.State)
    requires v.projection < |defs| && forall u :: FoldRuns.Queue(f, u) == []
    requires !Rebuild(defs[v.projection], v.tenant, FoldRuns.TableOfView(defs, f, v), f.log).failed
    ensures Leads(defs, f, moves, g)
    ensures g.log == f.log && g.stale == f.stale - iset{v} && g.unprojected == f.unprojected
            && forall u :: FoldRuns.Queue(g, u) == []
    ensures FoldRuns.TableOfView(defs, g, v)
            == Rebuild(defs[v.projection], v.tenant, FoldRuns.TableOfView(defs, f, v), f.log).table
    ensures forall name: string :: name != defs[v.projection].TableOf() ==>
            TableIn(g.tables, name) == TableIn(f.tables, name)
  {
    var f1 := WipedAtRest(defs, f, v);
    var more;
    more, g := RefoldAll(defs, f1, v, f.log);
    moves := [FoldRuns.Move(FoldRuns.Wipe(v, |f.log|), f1)] + more;
    Joined(defs, f, [FoldRuns.Move(FoldRuns.Wipe(v, |f.log|), f1)], f1, more, g);
  }

  /** A rebuild, clean or cut short, from a state with nothing else going on. */
  lemma RebuildRuns(defs: seq<ProjectionDef>, f: FoldRuns.State, v: FoldRuns.View, s: Tables, s': Tables, clean: bool)
    returns (moves: seq<FoldRuns.Move>, g: FoldRuns.State)
    requires DistinctTables(defs) && v.projection < |defs| && SameViews(f.tables, s)
             && forall u :: FoldRuns.Queue(f, u) == []
    requires RebuiltTo(defs[v.projection], v.tenant, f.log, s, s', clean)
    ensures Leads(defs, f, moves, g) && SameViews(g.tables, s') && forall u :: FoldRuns.Queue(g, u) == []
    ensures g.log == f.log && g.stale == Marked(f.stale, v, clean) && g.unprojected == f.unprojected
  {
    if clean {
      assert FoldRuns.TableOfView(defs, f, v) == TableIn(s, defs[v.projection].TableOf());
      moves, g := RebuildMoves(defs, f, v);
      SameAfterRebuild(defs[v.projection].TableOf(), f.tables, g.tables, s, s');
    } else {
      moves, g := CutShortMoves(defs, f, v, s, s');
    }
  }

  lemma SameAfterRebuild(own: string, f: Tables, g: Tables, s: Tables, s': Tables)
    requires SameViews(f, s) && TableIn(g, own) == TableIn(s', own)
    requires forall name: string :: name != own ==>
             TableIn(g, name) == TableIn(f, name) && TableIn(s', name) == TableIn(s, name)
    ensures SameViews(g, s')
  {
    forall name: string ensures TableIn(g, name) == TableIn(s', name) {
      assert TableIn(f, name) == TableIn(s, name);
    }
  }

  lemma RefoldAll(defs: seq<ProjectionDef>, f: FoldRuns.State, v: FoldRuns.View, log: seq<EventLike>)
    returns (moves: seq<FoldRuns.Move>, g: FoldRuns.State)
    requires v.projection < |defs| && FoldRuns.Queue(f, v) == FoldRuns.Todos(FoldRuns.Mine(v.tenant, log), true)
    requires !ReplayFrom(defs[v.projection], v.tenant, FoldRuns.TableOfView(defs, f, v), log).failed
    ensures Leads(defs, f, moves, g) && Folding(f, g)
    ensures FoldRuns.TableOfView(defs, g, v)
            == ReplayFrom(defs[v.projection], v.tenant, FoldRuns.TableOfView(defs, f, v), log).table
    ensures forall name: string :: name != defs[v.projection].TableOf() ==>
            TableIn(g.tables, name) == TableIn(f.tables, name)
    ensures FoldRuns.Queue(g, v) == [] && forall u :: u != v ==> FoldRuns.Queue(g, u) == FoldRuns.Queue(f, u)
  {
    var mine := FoldRuns.Mine(v.tenant, log);
    forall e | e in mine ensures e.tenant == v.tenant {
      FoldRuns.MineMembers(v.tenant, log, e);
    }
    assert mine[..|mine|] == mine && mine[|mine|..] == [];
    FoldRuns.ReplayMine(defs[v.projection], v.tenant, FoldRuns.TableOfView(defs, f, v), log);
    moves, g := RefoldQueued(defs, f, v, mine, |mine|);
  }

  lemma CutShortMoves(defs: seq<ProjectionDef>, f: FoldRuns.State, v: FoldRuns.View, s: Tables, s': Tables)
    returns (moves: seq<FoldRuns.Move>, g: FoldRuns.State)
    requires DistinctTables(defs) && v.projection < |defs| && SameViews(f.tables, s)
    requires RebuiltTo(defs[v.projection], v.tenant, f.log, s, s', false)
    ensures Leads(defs, f, moves, g) && SameViews(g.tables, s')
            && forall u :: FoldRuns.Queue(g, u) == FoldRuns.Queue(f, u)
    ensures g.log == f.log && g.stale == f.stale + iset{v} && g.unprojected == f.unprojected
  {
    g := f.(tables := s', stale := f.stale + iset{v});
    var stop := FoldRuns.Stop(v.tenant, {v}, false);
    assert FoldRuns.Among({v}) == iset{v};
    forall u: FoldRuns.View | u != v && u.projection < |defs|
      ensures FoldRuns.TableOfView(defs, g, u) == FoldRuns.TableOfView(defs, f, u) || u.tenant != v.tenant
    {
      if u.tenant == v.tenant {
        assert defs[u.projection].TableOf() != defs[v.projection].TableOf();
        assert TableIn(f.tables, defs[u.projection].TableOf()) == TableIn(s, defs[u.projection].TableOf());
      }
    }
    assert FoldRuns.Stopped(defs, f, v.tenant, {v}, false, g);
    OneMove(defs, f, stop, g);
    moves := [FoldRuns.Move(stop, g)];
  }

  lemma RedefinedRuns(defs: seq<ProjectionDef>, f: FoldRuns.State, s: State, step: Step, s': State)
    returns (moves: seq<FoldRuns.Move>, g: FoldRuns.State)
    requires DistinctTables(defs) && Matches(f, s) && Next(defs, s, step, s') && step.Redefined?
    ensures LeadsTo(defs, f, moves, DefsAfter(defs, step), g) && Matches(g, s')
  {
    var redefine := FoldRuns.Redefine(step.index, step.def);
    var after := DefsAfter(defs, step);
    var f1 := FoldRuns.AfterRedefine(f, step.index);
    FirstMove(defs, f, redefine, f1);
    assert forall u :: FoldRuns.Queue(f1, u) == FoldRuns.Queue(f, u);
    var more;
    more, g := RebuildRuns(after, f1, FoldRuns.View(step.index, step.tenant), s.tables, s'.tables, step.clean);
    moves := [FoldRuns.Move(redefine, f1)] + more;
    JoinedTo(defs, f, [FoldRuns.Move(redefine, f1)], after, f1, more, after, g);
  }

  /** Every step is a run of commits, single folds, wipes and stops, in log order. */
  lemma StepRuns(defs: seq<ProjectionDef>, f: FoldRuns.State, s: State, step: Step, s': State)
    returns (moves: seq<FoldRuns.Move>, g: FoldRuns.State)
    requires DistinctTables(defs) && Matches(f, s) && Next(defs, s, step, s')
    ensures LeadsTo(defs, f, moves, DefsAfter(defs, step), g) && Matches(g, s')
  {
    if step.Appended? {
      if step.projected {
        moves, g := ProjectedRuns(defs, f, s, step, s');
      } else {
        moves, g := UnprojectedRuns(defs, f, s, step, s');
      }
    } else if step.Rebuilt? {
      moves, g := RebuildRuns(defs, f, FoldRuns.View(step.projection, step.tenant), s.tables, s'.tables, step.clean);
    } else {
      moves, g := RedefinedRuns(defs, f, s, step, s');
    }
  }

  // ── whole runs ───────────────────────────────────────────────────────────────

  /** Some run of single folds in log order ends in this state with nothing left to fold. */
  ghost predicate Reached(defs: seq<ProjectionDef>, now: seq<ProjectionDef>, s: State) {
    DistinctTables(now) && exists moves, g :: LeadsTo(defs, FoldRuns.START, moves, now, g) && Matches(g, s)
  }

  /** Every run of whole appends, rebuilds and redefinitions is a run of single folds in log
      order. */
  lemma RunIsFolds(defs: seq<ProjectionDef>, states: seq<State>, steps: seq<Step>, k: nat)
    requires DistinctTables(defs) && IsRun(defs, states, steps) && k < |states|
    ensures ReachedAt(defs, states, steps, k)
  {
    StartsAlike(defs, states[0]);
    for i := 0 to k
      invariant ReachedAt(defs, states, steps, i)
    {
      OneMore(defs, states, steps, i);
    }
  }

  ghost predicate ReachedAt(defs: seq<ProjectionDef>, states: seq<State>, steps: seq<Step>, k: nat) {
    k < |states| && k <= |steps| && Reached(defs, DefsAt(defs, steps, k), states[k])
  }

  lemma OneMore(defs: seq<ProjectionDef>, states: seq<State>, steps: seq<Step>, k: nat)
    requires StepAt(defs, states, steps, k) && ReachedAt(defs, states, steps, k)
    ensures ReachedAt(defs, states, steps, k + 1)
  {
    ReachesOn(defs, DefsAt(defs, steps, k), states[k], steps[k], states[k + 1]);
  }

  lemma ReachesOn(defs: seq<ProjectionDef>, now: seq<ProjectionDef>, s: State, step: Step, s': State)
    requires Reached(defs, now, s) && Next(now, s, step, s')
    ensures Reached(defs, DefsAfter(now, step), s')
  {
    var before, f :| LeadsTo(defs, FoldRuns.START, before, now, f) && Matches(f, s);
    var more, g := StepRuns(now, f, s, step, s');
    JoinedTo(defs, FoldRuns.START, before, now, f, more, DefsAfter(now, step), g);
  }

  lemma StartsAlike(defs: seq<ProjectionDef>, s: State)
    requires DistinctTables(defs) && Blank(s)
    ensures Reached(defs, defs, s)
  {
    assert Leads(defs, FoldRuns.START, [], FoldRuns.START) && Matches(FoldRuns.START, s);
  }

  /** A rebuild that ran clean leaves the view faithful whatever it held before. */
  lemma RebuildHeals(defs: seq<ProjectionDef>, s: State, step: Step, s': State)
    requires step.Rebuilt? && step.clean && Next(defs, s, step, s')
    ensures Faithful(defs[step.projection], step.tenant, s'.tables, s'.log)
  {
    RebuildForgetsThePast(defs[step.projection], step.tenant, TableIn(s.tables, defs[step.projection].TableOf()),
                          s.log);
  }

  /** At every point of every run: a view no failure and no redefinition has touched since its
      last clean rebuild equals the replay of the log under the definition of the moment, and
      one whose appends were all answered `projected: true` since it was defined has a log that
      a rebuild folds without skipping anything. */
  lemma ViewsFollowTheLog(defs: seq<ProjectionDef>, states: seq<State>, steps: seq<Step>, k: nat, i: nat,
                          tenant: string)
    requires DistinctTables(defs) && IsRun(defs, states, steps) && k < |states| && i < |DefsAt(defs, steps, k)|
    ensures var def := DefsAt(defs, steps, k)[i]; var v := FoldRuns.View(i, tenant);
            && (v !in states[k].stale ==> Faithful(def, tenant, states[k].tables, states[k].log))
            && (v !in states[k].unprojected ==> Replay(def, tenant, states[k].log).skipped == 0)
  {
    var v := FoldRuns.View(i, tenant);
    RunIsFolds(defs, states, steps, k);
    var now := DefsAt(defs, steps, k);
    var moves, g :| LeadsTo(defs, FoldRuns.START, moves, now, g) && Matches(g, states[k]);
    if v !in states[k].stale {
      FoldRuns.InOrderRunsAreFaithful(defs, moves, v);
    }
    if v !in states[k].unprojected {
      FoldRuns.NothingToSkip(defs, moves, v);
    }
  }

  /** Nothing went wrong and nothing was redefined. */
  predicate Smooth(step: Step) {
    match step
    case Appended(_, _, projected) => projected
    case Rebuilt(_, _, clean) => clean
    case Redefined(_, _, _, _) => false
  }

  /** If every append was answered `projected: true`, no rebuild was cut short and nothing was
      redefined, every table is at every point what a rebuild would make it, with nothing
      skipped. */
  lemma LiveEqualsReplay(defs: seq<ProjectionDef>, states: seq<State>, steps: seq<Step>, k: nat, i: nat, tenant: string)
    requires DistinctTables(defs) && IsRun(defs, states, steps) && k < |states| && i < |defs|
    requires forall step :: step in steps ==> Smooth(step)
    ensures var t := TableIn(states[k].tables, defs[i].TableOf());
            Rebuild(defs[i], tenant, t, states[k].log) == ReplayState(t, 0, false)
  {
    NeverStale(defs, states, steps, k);
    ViewsFollowTheLog(defs, states, steps, k, i, tenant);
    var t := TableIn(states[k].tables, defs[i].TableOf());
    RebuildForgetsThePast(defs[i], tenant, t, states[k].log);
    SplitByTenant(t, tenant);
    SplitByTenant(Rebuild(defs[i], tenant, t, states[k].log).table, tenant);
  }

  lemma {:induction false} NeverStale(defs: seq<ProjectionDef>, states: seq<State>, steps: seq<Step>, k: nat)
    requires IsRun(defs, states, steps) && k < |states|
    requires forall step :: step in steps ==> Smooth(step)
    ensures states[k].stale == iset{} && states[k].unprojected == iset{} && DefsAt(defs, steps, k) == defs
    decreases k
  {
    if k > 0 {
      NeverStale(defs, states, steps, k - 1);
      assert StepAt(defs, states, steps, k - 1);
      assert steps[k - 1] in steps;
    }
  }
}
