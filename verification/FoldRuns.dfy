/** Appends, folds, rebuilds and redefinitions, each moving on its own
    (go/internal/httpapi/router.go, `append`, `putProjection` and `adminRebuild`): a commit
    only queues its events for the views, the folds come later and in any order across
    handlers, a rebuild wipes a view's rows and then refolds what it read of the log, event by
    event, while appends go on, and a projection can be registered or redefined at any time. */
module FoldRuns {
  import opened Basics
  import opened Definitions
  import opened Projector
  import opened ReadModels
  import Commute
  import Totals

  /** One tenant's rows of one projection. */
  datatype View = View(projection: nat, tenant: string)

  /** An event still to be folded into a view: by the handler that appended it, or by a
      rebuild that read it. */
  datatype Todo = Todo(event: EventLike, refold: bool)

  /** `folded` is what has been folded into a view since its rows were last wiped. `stale` are
      the views a failure or a redefinition may have left behind the log, `unprojected` those
      whose definition may be unable to fold some event of it. */
  datatype State = State(
    log: seq<EventLike>,
    tables: Tables,
    queues: map<View, seq<Todo>>,
    folded: map<View, seq<EventLike>>,
    stale: iset<View>,
    unprojected: iset<View>)

  datatype Step =
    | Commit(batch: seq<EventLike>)
    | Fold(view: View, at: nat)
    /** A handler or a rebuild met a failure and dropped what it had left to do. */
    | Stop(tenant: string, views: set<View>, appending: bool)
    /** A rebuild that has read the first `read` events of the log deletes the rows. */
    | Wipe(view: View, read: nat)
    /** Projection `index` gets this definition; one past the last registers a new one. */
    | Redefine(index: nat, def: ProjectionDef)

  ghost const START := State([], map[], map[], map[], iset{}, iset{})

  function WithDef(defs: seq<ProjectionDef>, index: nat, def: ProjectionDef): seq<ProjectionDef> {
    if index < |defs| then defs[index := def] else defs + [def]
  }

  function DefsAfter(defs: seq<ProjectionDef>, step: Step): seq<ProjectionDef> {
    if step.Redefine? then WithDef(defs, step.index, step.def) else defs
  }

  /** Every tenant's view of one projection. */
  ghost function ViewsOn(index: nat): iset<View> { iset v: View | v.projection == index }

  ghost function Among(views: set<View>): iset<View> { iset v | v in views }

  ghost function Queue(s: State, v: View): seq<Todo> { if v in s.queues then s.queues[v] else [] }

  ghost function Taken(s: State, v: View): seq<EventLike> { if v in s.folded then s.folded[v] else [] }

  function Mine(tenant: string, log: seq<EventLike>): seq<EventLike> {
    Filter((e: EventLike) => e.tenant == tenant, log)
  }

  function Todos(events: seq<EventLike>, refold: bool): (q: seq<Todo>)
    ensures |q| == |events| && forall i :: 0 <= i < |q| ==> q[i] == Todo(events[i], refold)
  {
    seq(|events|, i requires 0 <= i < |events| => Todo(events[i], refold))
  }

  function Events(q: seq<Todo>): (r: seq<EventLike>)
    ensures |r| == |q| && forall i :: 0 <= i < |r| ==> r[i] == q[i].event
  {
    seq(|q|, i requires 0 <= i < |q| => q[i].event)
  }

  function Without(q: seq<Todo>, at: nat): seq<Todo>
    requires at < |q|
  {
    q[..at] + q[at + 1..]
  }

  function ViewsOf(defs: seq<ProjectionDef>, tenant: string): set<View> {
    set i | 0 <= i < |defs| :: View(i, tenant)
  }

  ghost function TableOfView(defs: seq<ProjectionDef>, s: State, v: View): Table
    requires v.projection < |defs|
  {
    TableIn(s.tables, defs[v.projection].TableOf())
  }

  ghost predicate CanFold(defs: seq<ProjectionDef>, s: State, v: View, at: nat) {
    && v.projection < |defs| && at < |Queue(s, v)|
    && var todo := Queue(s, v)[at];
       var r := ApplyTo(defs[v.projection], todo.event, TableOfView(defs, s, v));
       r.Folded? || (todo.refold && r.NotFoldable?)
  }

  ghost function AfterFold(defs: seq<ProjectionDef>, s: State, v: View, at: nat): State
    requires v.projection < |defs| && at < |Queue(s, v)|
  {
    var e := Queue(s, v)[at].event;
    s.(tables := FoldInto(defs[v.projection], e, s.tables), queues := s.queues[v := Without(Queue(s, v), at)],
       folded := s.folded[v := Taken(s, v) + [e]])
  }

  ghost function AfterWipe(defs: seq<ProjectionDef>, s: State, v: View, read: nat): State
    requires v.projection < |defs| && read <= |s.log|
  {
    var name := defs[v.projection].TableOf();
    s.(tables := s.tables[name := OtherRows(TableIn(s.tables, name), v.tenant)],
       queues := s.queues[v := Todos(Mine(v.tenant, s.log[..read]), true) + Queue(s, v)],
       folded := s.folded[v := []], stale := s.stale - iset{v})
  }

  /** What a failure leaves: the tenant's views it names may hold anything and may have lost
      some of their queue; a rebuild drops only what it was itself to refold. */
  ghost predicate Stopped(defs: seq<ProjectionDef>, s: State, tenant: string, views: set<View>, appending: bool,
                          s': State) {
    && (forall v :: v in views ==> v.tenant == tenant)
    && s'.log == s.log && s'.folded == s.folded && s'.stale == s.stale + Among(views)
    && s'.unprojected == (if appending then s.unprojected + Among(views) else s.unprojected)
    && OnlyTenant(s.tables, s'.tables, tenant)
    && (forall v :: v !in views && v.projection < |defs| ==>
        TableOfView(defs, s', v) == TableOfView(defs, s, v) || v.tenant != tenant)
    && (forall v :: v !in views ==> Queue(s', v) == Queue(s, v))
    && (forall v, x :: v in views && x in Queue(s', v) ==> x in Queue(s, v))
    && (!appending ==> forall v, x :: v in views && x in Queue(s, v) && !x.refold ==> x in Queue(s', v))
  }

  ghost predicate Next(defs: seq<ProjectionDef>, s: State, step: Step, s': State) {
    match step
    case Commit(batch) =>
      && s' == s.(log := s.log + batch, queues := s'.queues)
      && forall v ::
         Queue(s', v) == Queue(s, v) + if v.projection < |defs| then Todos(Mine(v.tenant, batch), false) else []
    case Fold(v, at) => CanFold(defs, s, v, at) && s' == AfterFold(defs, s, v, at)
    case Stop(tenant, views, appending) => Stopped(defs, s, tenant, views, appending, s')
    case Wipe(v, read) => v.projection < |defs| && read <= |s.log| && s' == AfterWipe(defs, s, v, read)
    case Redefine(index, def) =>
        index <= |defs| && DistinctTables(WithDef(defs, index, def))
        && s' == AfterRedefine(s, index)
  }

  /** Nothing is known of the projection's views until they are rebuilt. */
  ghost function AfterRedefine(s: State, index: nat): State {
    s.(stale := s.stale + ViewsOn(index), unprojected := s.unprojected + ViewsOn(index))
  }

  /** A step and the state it leads to. */
  datatype Move = Move(step: Step, to: State)

  ghost function At(s: State, moves: seq<Move>, k: nat): State
    requires k <= |moves|
  {
    if k == 0 then s else moves[k - 1].to
  }

  ghost function End(s: State, moves: seq<Move>): State { At(s, moves, |moves|) }

  /** The definitions after some moves. */
  function DefsOf(defs: seq<ProjectionDef>, moves: seq<Move>): seq<ProjectionDef> {
    if moves == [] then defs else DefsAfter(DefsOf(defs, moves[..|moves| - 1]), moves[|moves| - 1].step)
  }

  ghost predicate MoveAt(defs: seq<ProjectionDef>, s: State, moves: seq<Move>, k: nat) {
    k < |moves| && Next(DefsOf(defs, moves[..k]), At(s, moves, k), moves[k].step, moves[k].to)
  }

  ghost predicate Runs(defs: seq<ProjectionDef>, s: State, moves: seq<Move>) {
    forall k: nat :: k < |moves| ==> MoveAt(defs, s, moves, k)
  }

  // ── two disciplines ──────────────────────────────────────────────────────────

  /** A view's folds follow its queue, and a rebuild read exactly what no queued fold will
      still bring, in log order. */
  ghost predicate InOrder(s: State, step: Step) {
    match step
    case Fold(_, at) => at == 0
    case Wipe(v, read) => read <= |s.log| ==>
        Mine(v.tenant, s.log[..read]) + Events(Queue(s, v)) == Mine(v.tenant, s.log)
    case _ => true
  }

  ghost predicate InOrderAt(s: State, moves: seq<Move>, k: nat) {
    k < |moves| && InOrder(At(s, moves, k), moves[k].step)
  }

  ghost predicate AlwaysInOrder(s: State, moves: seq<Move>) {
    forall k: nat :: k < |moves| ==> InOrderAt(s, moves, k)
  }

  /** Folds come in any order; a rebuild of the view read exactly the events no queued fold
      will still bring. */
  ghost predicate Splits(s: State, step: Step, view: View) {
    match step
    case Wipe(v, read) =>
      v == view && read <= |s.log| ==>
          multiset(Mine(v.tenant, s.log[..read])) + multiset(Events(Queue(s, v))) == multiset(Mine(v.tenant, s.log))
    case _ => true
  }

  ghost predicate SplitsAt(s: State, moves: seq<Move>, view: View, k: nat) {
    k < |moves| && Splits(At(s, moves, k), moves[k].step, view)
  }

  ghost predicate AlwaysSplits(s: State, moves: seq<Move>, view: View) {
    forall k: nat :: k < |moves| ==> SplitsAt(s, moves, view, k)
  }

  // ── what every run keeps ─────────────────────────────────────────────────────

  /** The view's rows are what replaying the folded events gives. */
  ghost predicate Mirrors(defs: seq<ProjectionDef>, s: State, v: View)
    requires v.projection < |defs|
  {
    var r := Replay(defs[v.projection], v.tenant, Taken(s, v));
    !r.failed && TenantRows(TableOfView(defs, s, v), v.tenant) == r.table
  }

  ghost predicate ViewsMirror(defs: seq<ProjectionDef>, s: State) {
    forall v: View :: v.projection < |defs| && v !in s.stale ==> Mirrors(defs, s, v)
  }

  ghost predicate OwnEvents(s: State) { forall v, x :: x in Queue(s, v) ==> x.event.tenant == v.tenant }

  /** Every event can be folded by a projection or is still waiting for it, but for the views
      set apart. */
  ghost predicate FoldableOrWaiting(defs: seq<ProjectionDef>, s: State) {
    forall i, e :: 0 <= i < |defs| && e in s.log && View(i, e.tenant) !in s.unprojected ==>
      Foldable(defs[i], e) || Todo(e, false) in Queue(s, View(i, e.tenant))
  }

  ghost predicate Inv(defs: seq<ProjectionDef>, s: State) {
    ViewsMirror(defs, s) && OwnEvents(s) && FoldableOrWaiting(defs, s)
  }

  lemma MineMembers(tenant: string, log: seq<EventLike>, e: EventLike)
    ensures e in Mine(tenant, log) <==> e in log && e.tenant == tenant
  {
    FilterMembers((x: EventLike) => x.tenant == tenant, log, e);
  }

  lemma MineAppend(tenant: string, a: seq<EventLike>, b: seq<EventLike>)
    ensures Mine(tenant, a + b) == Mine(tenant, a) + Mine(tenant, b)
  {
    FilterAppend((x: EventLike) => x.tenant == tenant, a, b);
  }

  lemma {:induction false} AllMine(tenant: string, batch: seq<EventLike>, other: string)
    requires forall e :: e in batch ==> e.tenant == tenant
    ensures Mine(other, batch) == if other == tenant then batch else []
  {
    if batch != [] {
      assert batch[0] in batch;
      AllMine(tenant, batch[1..], other);
    }
  }

  lemma TodoEvents(events: seq<EventLike>, refold: bool)
    ensures Events(Todos(events, refold)) == events
  {
  }

  lemma EventsAppend(a: seq<Todo>, b: seq<Todo>)
    ensures Events(a + b) == Events(a) + Events(b)
  {
  }

  lemma TodoMembers(events: seq<EventLike>, refold: bool, x: Todo)
    ensures x in Todos(events, refold) <==> x.event in events && x.refold == refold
  {
    if x.event in events && x.refold == refold {
      var i :| 0 <= i < |events| && events[i] == x.event;
      assert Todos(events, refold)[i] == x;
    }
  }

  lemma CommitKeeps(defs: seq<ProjectionDef>, s: State, batch: seq<EventLike>, s': State)
    requires Inv(defs, s) && Next(defs, s, Commit(batch), s')
    ensures Inv(defs, s')
  {
    forall v: View | v.projection < |defs| && v !in s'.stale ensures Mirrors(defs, s', v) {
      assert Mirrors(defs, s, v);
    }
    forall v, x | x in Queue(s', v) ensures x.event.tenant == v.tenant {
      if x !in Queue(s, v) {
        TodoMembers(Mine(v.tenant, batch), false, x);
        MineMembers(v.tenant, batch, x.event);
      }
    }
    forall i, e | 0 <= i < |defs| && e in s'.log && View(i, e.tenant) !in s'.unprojected
      ensures Foldable(defs[i], e) || Todo(e, false) in Queue(s', View(i, e.tenant))
    {
      var v := View(i, e.tenant);
      assert Queue(s', v) == Queue(s, v) + Todos(Mine(v.tenant, batch), false);
      if e in batch {
        MineMembers(v.tenant, batch, e);
        TodoMembers(Mine(v.tenant, batch), false, Todo(e, false));
      }
    }
  }

  lemma OtherTenantsRows(t: Table, u: Table, mine: string, tenant: string)
    requires OtherRows(t, mine) == OtherRows(u, mine) && tenant != mine
    ensures TenantRows(t, tenant) == TenantRows(u, tenant)
  {
    assert TenantRows(t, tenant) == TenantRows(OtherRows(t, mine), tenant);
    assert TenantRows(u, tenant) == TenantRows(OtherRows(u, mine), tenant);
  }

  /** A fold, live or of a rebuild, takes the step a replay takes. */
  lemma FoldFollowsReplay(def: ProjectionDef, tenant: string, t: Table, seen: seq<EventLike>, e: EventLike)
    requires e.tenant == tenant && !Replay(def, tenant, seen).failed
             && TenantRows(t, tenant) == Replay(def, tenant, seen).table
    requires !ApplyTo(def, e, t).SqlFailure?
    ensures var r := Replay(def, tenant, seen + [e]); var f := ApplyTo(def, e, t);
            !r.failed && TenantRows(if f.Folded? then f.table else t, tenant) == r.table
  {
    FoldIsLocal(def, e, t);
    FoldErrorIsDeterministic(def, e, t);
    FoldErrorIsDeterministic(def, e, TenantRows(t, tenant));
    ReplayExtends(def, tenant, map[], seen, e);
  }

  lemma FoldMovesOwnView(defs: seq<ProjectionDef>, s: State, v: View, at: nat, u: View)
    requires DistinctTables(defs) && CanFold(defs, s, v, at) && OwnEvents(s) && u != v && u.projection < |defs|
    ensures TenantRows(TableOfView(defs, AfterFold(defs, s, v, at), u), u.tenant)
            == TenantRows(TableOfView(defs, s, u), u.tenant)
  {
    var e := Queue(s, v)[at].event;
    assert Queue(s, v)[at] in Queue(s, v);
    if u.projection == v.projection {
      var t, t' := TableOfView(defs, s, v), TableOfView(defs, AfterFold(defs, s, v, at), v);
      FoldIsLocal(defs[v.projection], e, t);
      OtherTenantsRows(t, t', e.tenant, u.tenant);
    } else {
      assert defs[u.projection].TableOf() != defs[v.projection].TableOf();
    }
  }

  lemma FoldMirrors(defs: seq<ProjectionDef>, s: State, v: View, at: nat)
    requires DistinctTables(defs) && CanFold(defs, s, v, at) && OwnEvents(s) && ViewsMirror(defs, s)
    ensures ViewsMirror(defs, AfterFold(defs, s, v, at))
  {
    var s' := AfterFold(defs, s, v, at);
    var e := Queue(s, v)[at].event;
    assert Queue(s, v)[at] in Queue(s, v);
    forall u: View | u.projection < |defs| && u !in s'.stale ensures Mirrors(defs, s', u) {
      assert Mirrors(defs, s, u);
      if u == v {
        FoldFollowsReplay(defs[v.projection], v.tenant, TableOfView(defs, s, v), Taken(s, v), e);
      } else {
        FoldMovesOwnView(defs, s, v, at, u);
        assert Taken(s', u) == Taken(s, u);
      }
    }
  }

  lemma WithoutMembers(q: seq<Todo>, at: nat, x: Todo)
    requires at < |q|
    ensures x in Without(q, at) ==> x in q
    ensures x in q ==> x in Without(q, at) || x == q[at]
  {
    assert q == q[..at] + [q[at]] + q[at + 1..];
  }

  lemma FoldKeeps(defs: seq<ProjectionDef>, s: State, v: View, at: nat)
    requires DistinctTables(defs) && Inv(defs, s) && CanFold(defs, s, v, at)
    ensures Inv(defs, AfterFold(defs, s, v, at))
  {
    var s' := AfterFold(defs, s, v, at);
    FoldMirrors(defs, s, v, at);
    forall u, x | x in Queue(s', u) ensures x.event.tenant == u.tenant {
      if u == v {
        WithoutMembers(Queue(s, v), at, x);
      }
      assert x in Queue(s, u);
    }
    forall i, e | 0 <= i < |defs| && e in s'.log && View(i, e.tenant) !in s'.unprojected
      ensures Foldable(defs[i], e) || Todo(e, false) in Queue(s', View(i, e.tenant))
    {
      if View(i, e.tenant) == v && !Foldable(defs[i], e) {
        WithoutMembers(Queue(s, v), at, Todo(e, false));
        FoldErrorIsDeterministic(defs[i], e, TableOfView(defs, s, v));
      }
    }
  }

  lemma StopKeeps(defs: seq<ProjectionDef>, s: State, tenant: string, views: set<View>, appending: bool, s': State)
    requires Inv(defs, s) && Stopped(defs, s, tenant, views, appending, s')
    ensures Inv(defs, s')
  {
    forall u: View | u.projection < |defs| && u !in s'.stale ensures Mirrors(defs, s', u) {
      assert Mirrors(defs, s, u) && u !in views;
      if u.tenant != tenant {
        OtherTenantsRows(TableOfView(defs, s, u), TableOfView(defs, s', u), tenant, u.tenant);
      }
    }
    forall u, x | x in Queue(s', u) ensures x.event.tenant == u.tenant {
      assert x in Queue(s, u);
    }
    forall i, e | 0 <= i < |defs| && e in s'.log && View(i, e.tenant) !in s'.unprojected
      ensures Foldable(defs[i], e) || Todo(e, false) in Queue(s', View(i, e.tenant))
    {
      assert appending ==> View(i, e.tenant) !in views;
    }
  }

  lemma WipeMirrors(defs: seq<ProjectionDef>, s: State, v: View, read: nat)
    requires DistinctTables(defs) && ViewsMirror(defs, s) && v.projection < |defs| && read <= |s.log|
    ensures ViewsMirror(defs, AfterWipe(defs, s, v, read))
  {
    var s' := AfterWipe(defs, s, v, read);
    var t := TableOfView(defs, s, v);
    forall u: View | u.projection < |defs| && u !in s'.stale ensures Mirrors(defs, s', u) {
      if u == v {
        assert TenantRows(OtherRows(t, v.tenant), v.tenant) == map[];
      } else {
        assert Mirrors(defs, s, u);
        assert Taken(s', u) == Taken(s, u);
        if u.projection == v.projection {
          assert OtherRows(OtherRows(t, v.tenant), v.tenant) == OtherRows(t, v.tenant);
          OtherTenantsRows(t, OtherRows(t, v.tenant), v.tenant, u.tenant);
        } else {
          assert defs[u.projection].TableOf() != defs[v.projection].TableOf();
        }
      }
    }
  }

  lemma WipeKeeps(defs: seq<ProjectionDef>, s: State, v: View, read: nat)
    requires DistinctTables(defs) && Inv(defs, s) && v.projection < |defs| && read <= |s.log|
    ensures Inv(defs, AfterWipe(defs, s, v, read))
  {
    var s' := AfterWipe(defs, s, v, read);
    WipeMirrors(defs, s, v, read);
    var mine := Mine(v.tenant, s.log[..read]);
    forall u, x | x in Queue(s', u) ensures x.event.tenant == u.tenant {
      if u == v && x !in Queue(s, v) {
        TodoMembers(mine, true, x);
        MineMembers(v.tenant, s.log[..read], x.event);
      }
    }
  }

  lemma RedefineKeeps(defs: seq<ProjectionDef>, s: State, index: nat, def: ProjectionDef)
    requires Inv(defs, s) && index <= |defs|
    ensures Inv(WithDef(defs, index, def), AfterRedefine(s, index))
  {
    var s', after := AfterRedefine(s, index), WithDef(defs, index, def);
    forall u: View | u.projection < |after| && u !in s'.stale ensures Mirrors(after, s', u) {
      assert u !in ViewsOn(index) && after[u.projection] == defs[u.projection];
      assert Mirrors(defs, s, u);
    }
    forall i, e | 0 <= i < |after| && e in s'.log && View(i, e.tenant) !in s'.unprojected
      ensures Foldable(after[i], e) || Todo(e, false) in Queue(s', View(i, e.tenant))
    {
      assert View(i, e.tenant) !in ViewsOn(index) && after[i] == defs[i];
    }
  }

  /** Every step keeps every view that is not stale a replay of what was folded into it. */
  lemma StepKeepsInv(defs: seq<ProjectionDef>, s: State, step: Step, s': State)
    requires DistinctTables(defs) && Inv(defs, s) && Next(defs, s, step, s')
    ensures Inv(DefsAfter(defs, step), s') && DistinctTables(DefsAfter(defs, step))
  {
    match step
    case Commit(batch) => CommitKeeps(defs, s, batch, s');
    case Fold(v, at) => FoldKeeps(defs, s, v, at);
    case Stop(tenant, views, appending) => StopKeeps(defs, s, tenant, views, appending, s');
    case Wipe(v, read) => WipeKeeps(defs, s, v, read);
    case Redefine(index, def) => RedefineKeeps(defs, s, index, def);
  }

  lemma StartInv(defs: seq<ProjectionDef>)
    ensures Inv(defs, START)
  {
  }

  lemma RunPrefix(defs: seq<ProjectionDef>, s: State, moves: seq<Move>)
    requires moves != [] && Runs(defs, s, moves)
    ensures var n := |moves| - 1; var before := moves[..n];
            && Runs(defs, s, before) && Next(DefsOf(defs, before), End(s, before), moves[n].step, End(s, moves))
            && DefsOf(defs, moves) == DefsAfter(DefsOf(defs, before), moves[n].step)
            && (AlwaysInOrder(s, moves) ==> AlwaysInOrder(s, before) && InOrder(End(s, before), moves[n].step))
  {
    var n := |moves| - 1;
    var before := moves[..n];
    assert forall k :: 0 <= k <= n ==> At(s, before, k) == At(s, moves, k);
    assert MoveAt(defs, s, moves, n);
    forall k: nat | k < n ensures MoveAt(defs, s, before, k) {
      assert MoveAt(defs, s, moves, k) && before[..k] == moves[..k];
    }
    if AlwaysInOrder(s, moves) {
      assert InOrderAt(s, moves, n);
      forall k: nat | k < n ensures InOrderAt(s, before, k) {
        assert InOrderAt(s, moves, k);
      }
    }
  }

  lemma SplitsPrefix(s: State, moves: seq<Move>, v: View)
    requires moves != [] && AlwaysSplits(s, moves, v)
    ensures var n := |moves| - 1; AlwaysSplits(s, moves[..n], v) && Splits(End(s, moves[..n]), moves[n].step, v)
  {
    var n := |moves| - 1;
    assert forall k :: 0 <= k <= n ==> At(s, moves[..n], k) == At(s, moves, k);
    assert SplitsAt(s, moves, v, n);
    forall k: nat | k < n ensures SplitsAt(s, moves[..n], v, k) {
      assert SplitsAt(s, moves, v, k);
    }
  }

  lemma {:induction false} RunKeepsInv(defs: seq<ProjectionDef>, moves: seq<Move>)
    requires DistinctTables(defs) && Runs(defs, START, moves)
    ensures Inv(DefsOf(defs, moves), End(START, moves)) && DistinctTables(DefsOf(defs, moves))
    decreases |moves|
  {
    if moves == [] {
      StartInv(defs);
    } else {
      var n := |moves| - 1;
      RunPrefix(defs, START, moves);
      RunKeepsInv(defs, moves[..n]);
      StepKeepsInv(DefsOf(defs, moves[..n]), End(START, moves[..n]), moves[n].step, moves[n].to);
    }
  }

  /** A run followed by a run that starts where it ended. */
  lemma RunOn(defs: seq<ProjectionDef>, s: State, a: seq<Move>, b: seq<Move>)
    requires Runs(defs, s, a) && AlwaysInOrder(s, a)
    requires Runs(DefsOf(defs, a), End(s, a), b) && AlwaysInOrder(End(s, a), b)
    ensures Runs(defs, s, a + b) && AlwaysInOrder(s, a + b) && End(s, a + b) == End(End(s, a), b)
    ensures DefsOf(defs, a + b) == DefsOf(DefsOf(defs, a), b)
  {
    var all := a + b;
    forall k: nat | k < |all| ensures MoveAt(defs, s, all, k) && InOrderAt(s, all, k) {
      MoveOf(s, a, b, k);
      if k < |a| {
        assert MoveAt(defs, s, a, k) && InOrderAt(s, a, k);
        assert all[..k] == a[..k];
      } else {
        assert MoveAt(DefsOf(defs, a), End(s, a), b, k - |a|) && InOrderAt(End(s, a), b, k - |a|);
        DefsOn(defs, a, b[..k - |a|]);
        assert all[..k] == a + b[..k - |a|];
      }
    }
    EndOf(s, a, b);
    DefsOn(defs, a, b);
  }

  lemma {:induction false} DefsOn(defs: seq<ProjectionDef>, a: seq<Move>, b: seq<Move>)
    ensures DefsOf(defs, a + b) == DefsOf(DefsOf(defs, a), b)
    decreases |b|
  {
    if b == [] {
      assert a + b == a;
    } else {
      var n := |b| - 1;
      DefsOn(defs, a, b[..n]);
      assert (a + b)[..|a| + n] == a + b[..n] && (a + b)[|a| + n] == b[n];
    }
  }

  lemma MoveOf(s: State, a: seq<Move>, b: seq<Move>, k: nat)
    requires k < |a + b|
    ensures if k < |a| then At(s, a + b, k) == At(s, a, k) && (a + b)[k] == a[k]
            else At(s, a + b, k) == At(End(s, a), b, k - |a|) && (a + b)[k] == b[k - |a|]
  {
  }

  lemma EndOf(s: State, a: seq<Move>, b: seq<Move>)
    ensures End(s, a + b) == End(End(s, a), b)
  {
    assert b == [] ==> a + b == a;
  }

  // ── folding in log order ─────────────────────────────────────────────────────

  /** What was folded and what is queued make up the tenant's log, in order. */
  ghost predicate Lined(s: State, v: View) { Taken(s, v) + Events(Queue(s, v)) == Mine(v.tenant, s.log) }

  lemma CommitLines(defs: seq<ProjectionDef>, s: State, batch: seq<EventLike>, s': State, v: View)
    requires Next(defs, s, Commit(batch), s') && v.projection < |defs|
    ensures Mine(v.tenant, s'.log) == Mine(v.tenant, s.log) + Mine(v.tenant, batch)
    ensures Events(Queue(s', v)) == Events(Queue(s, v)) + Mine(v.tenant, batch)
  {
    MineAppend(v.tenant, s.log, batch);
    EventsAppend(Queue(s, v), Todos(Mine(v.tenant, batch), false));
    TodoEvents(Mine(v.tenant, batch), false);
  }

  lemma WipeLines(defs: seq<ProjectionDef>, s: State, v: View, read: nat)
    requires v.projection < |defs| && read <= |s.log|
    ensures Events(Queue(AfterWipe(defs, s, v, read), v)) == Mine(v.tenant, s.log[..read]) + Events(Queue(s, v))
  {
    var mine := Mine(v.tenant, s.log[..read]);
    EventsAppend(Todos(mine, true), Queue(s, v));
    TodoEvents(mine, true);
  }

  lemma FirstFolded(defs: seq<ProjectionDef>, s: State, v: View)
    requires v.projection < |defs| && Queue(s, v) != [] && Lined(s, v)
    ensures Lined(AfterFold(defs, s, v, 0), v)
  {
    var q := Queue(s, v);
    FirstEvent(q);
    Regroup(Taken(s, v), q[0].event, Events(q[1..]));
  }

  lemma FirstEvent(q: seq<Todo>)
    requires q != []
    ensures Without(q, 0) == q[1..] && Events(q) == [q[0].event] + Events(q[1..])
  {
  }

  lemma Regroup(a: seq<EventLike>, e: EventLike, b: seq<EventLike>)
    ensures a + ([e] + b) == a + [e] + b
  {
  }

  lemma CommitLined(defs: seq<ProjectionDef>, s: State, batch: seq<EventLike>, s': State, v: View)
    requires Next(defs, s, Commit(batch), s') && v.projection < |defs| && Lined(s, v)
    ensures Lined(s', v)
  {
    var taken, queued, mine := Taken(s, v), Events(Queue(s, v)), Mine(v.tenant, batch);
    CommitLines(defs, s, batch, s', v);
    Reassociated(taken, queued, mine);
  }

  lemma Reassociated(a: seq<EventLike>, b: seq<EventLike>, c: seq<EventLike>)
    ensures a + (b + c) == a + b + c
  {
  }

  /** The view this step folds into or wipes, or every view for a commit. */
  predicate Touches(step: Step, v: View) {
    match step
    case Commit(_) => true
    case Fold(u, _) => u == v
    case Wipe(u, _) => u == v
    case _ => false
  }

  lemma Untouched(defs: seq<ProjectionDef>, s: State, step: Step, s': State, v: View)
    requires Next(defs, s, step, s') && v !in s'.stale && !Touches(step, v)
    ensures Taken(s', v) == Taken(s, v) && Queue(s', v) == Queue(s, v) && s'.log == s.log && v !in s.stale
    ensures v.projection < |DefsAfter(defs, step)| ==> v.projection < |defs|
  {
    if step.Redefine? {
      assert v !in ViewsOn(step.index);
    } else if step.Stop? {
      assert v !in Among(step.views);
    }
  }

  lemma StepKeepsLines(defs: seq<ProjectionDef>, s: State, step: Step, s': State, v: View)
    requires Next(defs, s, step, s') && InOrder(s, step) && v.projection < |DefsAfter(defs, step)| && v !in s'.stale
    requires v.projection < |defs| && v !in s.stale ==> Lined(s, v)
    ensures Lined(s', v)
  {
    if !Touches(step, v) {
      Untouched(defs, s, step, s', v);
    } else if step.Commit? {
      CommitLined(defs, s, step.batch, s', v);
    } else if step.Fold? {
      FirstFolded(defs, s, v);
    } else {
      WipeLines(defs, s, v, step.read);
    }
  }

  lemma {:induction false} RunKeepsLines(defs: seq<ProjectionDef>, moves: seq<Move>, v: View)
    requires Runs(defs, START, moves) && AlwaysInOrder(START, moves) && v.projection < |DefsOf(defs, moves)|
    ensures v !in End(START, moves).stale ==> Lined(End(START, moves), v)
    decreases |moves|
  {
    if moves != [] && v !in End(START, moves).stale {
      var n := |moves| - 1;
      RunPrefix(defs, START, moves);
      if v.projection < |DefsOf(defs, moves[..n])| {
        RunKeepsLines(defs, moves[..n], v);
      }
      StepKeepsLines(DefsOf(defs, moves[..n]), End(START, moves[..n]), moves[n].step, moves[n].to, v);
    }
  }

  /** A replay looks at the tenant's own events alone. */
  lemma {:induction false} ReplayMine(def: ProjectionDef, tenant: string, t: Table, log: seq<EventLike>)
    ensures ReplayFrom(def, tenant, t, Mine(tenant, log)) == ReplayFrom(def, tenant, t, log)
  {
    if log != [] {
      var before, e := log[..|log| - 1], log[|log| - 1];
      assert log == before + [e];
      ReplayMine(def, tenant, t, before);
      MineAppend(tenant, before, [e]);
      assert [e][1..] == [];
      if e.tenant == tenant {
        ReplayExtends(def, tenant, t, Mine(tenant, before), e);
      } else {
        assert Mine(tenant, before) + [] == Mine(tenant, before);
      }
    }
  }

  /** In log order: at every point of every run, however commits, folds and rebuilds of all
      tenants interleave, a view no failure or redefinition has touched since its last wipe is the replay of a
      prefix of its tenant's log, and of the whole log when nothing is queued for it. */
  lemma InOrderRunsAreFaithful(defs: seq<ProjectionDef>, moves: seq<Move>, v: View)
    requires DistinctTables(defs) && Runs(defs, START, moves) && AlwaysInOrder(START, moves)
    requires v.projection < |DefsOf(defs, moves)| && v !in End(START, moves).stale
    ensures var s := End(START, moves); var now := DefsOf(defs, moves);
            && Taken(s, v) <= Mine(v.tenant, s.log) && Mirrors(now, s, v)
            && (Queue(s, v) == [] ==> Faithful(now[v.projection], v.tenant, s.tables, s.log))
  {
    var s := End(START, moves);
    RunKeepsInv(defs, moves);
    RunKeepsLines(defs, moves, v);
    if Queue(s, v) == [] {
      assert Taken(s, v) == Mine(v.tenant, s.log);
      ReplayMine(DefsOf(defs, moves)[v.projection], v.tenant, map[], s.log);
    }
  }

  // ── folding in any order ─────────────────────────────────────────────────────

  /** Nothing of the tenant's log is missing from the view or counted twice. */
  ghost predicate Balanced(s: State, v: View) {
    multiset(Taken(s, v)) + multiset(Events(Queue(s, v))) == multiset(Mine(v.tenant, s.log))
  }

  lemma AnyFolded(defs: seq<ProjectionDef>, s: State, v: View, at: nat)
    requires v.projection < |defs| && at < |Queue(s, v)| && Balanced(s, v)
    ensures Balanced(AfterFold(defs, s, v, at), v)
  {
    var q := Queue(s, v);
    var e := q[at].event;
    TakeOne(q, at);
    assert multiset(Taken(s, v) + [e]) == multiset(Taken(s, v)) + multiset{e};
  }

  lemma TakeOne(q: seq<Todo>, at: nat)
    requires at < |q|
    ensures multiset(Events(q)) == multiset{q[at].event} + multiset(Events(Without(q, at)))
  {
    var a, e, b := Events(q[..at]), q[at].event, Events(q[at + 1..]);
    EventsAppend(q[..at], q[at + 1..]);
    assert Events(q) == a + [e] + b;
  }

  lemma CommitBalances(defs: seq<ProjectionDef>, s: State, batch: seq<EventLike>, s': State, v: View)
    requires Next(defs, s, Commit(batch), s') && v.projection < |defs| && Balanced(s, v)
    ensures Balanced(s', v)
  {
    CommitLines(defs, s, batch, s', v);
    CommittedBag(Taken(s, v), Events(Queue(s, v)), Mine(v.tenant, s.log), Mine(v.tenant, batch));
  }

  lemma WipeBalances(defs: seq<ProjectionDef>, s: State, v: View, read: nat)
    requires v.projection < |defs| && read <= |s.log| && Splits(s, Wipe(v, read), v)
    ensures Balanced(AfterWipe(defs, s, v, read), v)
  {
    WipeLines(defs, s, v, read);
  }

  lemma StepKeepsBalance(defs: seq<ProjectionDef>, s: State, step: Step, s': State, v: View)
    requires Next(defs, s, step, s') && Splits(s, step, v) && v.projection < |DefsAfter(defs, step)| && v !in s'.stale
    requires v.projection < |defs| && v !in s.stale ==> Balanced(s, v)
    ensures Balanced(s', v)
  {
    if !Touches(step, v) {
      Untouched(defs, s, step, s', v);
    } else if step.Commit? {
      CommitBalances(defs, s, step.batch, s', v);
    } else if step.Fold? {
      AnyFolded(defs, s, v, step.at);
    } else {
      WipeBalances(defs, s, v, step.read);
    }
  }

  lemma CommittedBag(taken: seq<EventLike>, queued: seq<EventLike>, log: seq<EventLike>, batch: seq<EventLike>)
    requires multiset(taken) + multiset(queued) == multiset(log)
    ensures multiset(taken) + multiset(queued + batch) == multiset(log + batch)
  {
  }

  lemma {:induction false} RunKeepsBalance(defs: seq<ProjectionDef>, moves: seq<Move>, v: View)
    requires Runs(defs, START, moves) && AlwaysSplits(START, moves, v) && v.projection < |DefsOf(defs, moves)|
    ensures v !in End(START, moves).stale ==> Balanced(End(START, moves), v)
    decreases |moves|
  {
    if moves != [] && v !in End(START, moves).stale {
      var n := |moves| - 1;
      RunPrefix(defs, START, moves);
      SplitsPrefix(START, moves, v);
      if v.projection < |DefsOf(defs, moves[..n])| {
        RunKeepsBalance(defs, moves[..n], v);
      }
      StepKeepsBalance(DefsOf(defs, moves[..n]), End(START, moves[..n]), moves[n].step, moves[n].to, v);
    }
  }

  /** At rest, everything of the tenant's log has been folded into the view once. */
  lemma AllFoldedOnce(defs: seq<ProjectionDef>, moves: seq<Move>, v: View)
    requires DistinctTables(defs) && Runs(defs, START, moves) && AlwaysSplits(START, moves, v)
    requires v.projection < |DefsOf(defs, moves)| && v !in End(START, moves).stale && Queue(End(START, moves), v) == []
    ensures var s := End(START, moves);
            Mirrors(DefsOf(defs, moves), s, v) && multiset(Taken(s, v)) == multiset(Mine(v.tenant, s.log))
  {
    RunKeepsInv(defs, moves);
    RunKeepsBalance(defs, moves, v);
    assert Events(Queue(End(START, moves), v)) == [];
  }

  /** In any order: if any two of the tenant's events commute under the definition, then
      whatever the order of the folds of concurrent handlers and of rebuilds, a view with
      nothing queued reads as the replay of the log does. */
  lemma AnyOrderIsFaithful(defs: seq<ProjectionDef>, moves: seq<Move>, v: View)
    requires DistinctTables(defs) && Runs(defs, START, moves) && AlwaysSplits(START, moves, v)
    requires v.projection < |DefsOf(defs, moves)| && v !in End(START, moves).stale && Queue(End(START, moves), v) == []
    requires Commute.AllCommute(DefsOf(defs, moves)[v.projection], v.tenant, End(START, moves).log)
    ensures var s := End(START, moves); var now := DefsOf(defs, moves);
            var r := Replay(now[v.projection], v.tenant, s.log);
            !r.failed && Commute.SameReading(TenantRows(TableOfView(now, s, v), v.tenant), r.table)
  {
    var s := End(START, moves);
    var def := DefsOf(defs, moves)[v.projection];
    AllFoldedOnce(defs, moves, v);
    Commute.SameElements(Taken(s, v), Mine(v.tenant, s.log));
    forall e | e in Taken(s, v) ensures e in s.log {
      MineMembers(v.tenant, s.log, e);
    }
    Commute.OrderIrrelevant(def, v.tenant, s.log, Taken(s, v), Mine(v.tenant, s.log));
    ReplayMine(def, v.tenant, map[], s.log);
  }

  /** If the definition only increments, the view is the replay of the log to the letter. */
  lemma IncrementsInAnyOrder(defs: seq<ProjectionDef>, moves: seq<Move>, v: View)
    requires DistinctTables(defs) && Runs(defs, START, moves) && AlwaysSplits(START, moves, v)
    requires v.projection < |DefsOf(defs, moves)| && v !in End(START, moves).stale && Queue(End(START, moves), v) == []
    requires Totals.OnlyIncrements(DefsOf(defs, moves)[v.projection])
    ensures var s := End(START, moves); Faithful(DefsOf(defs, moves)[v.projection], v.tenant, s.tables, s.log)
  {
    var s := End(START, moves);
    var def := DefsOf(defs, moves)[v.projection];
    AllFoldedOnce(defs, moves, v);
    Totals.OrderDoesNotMatter(def, v.tenant, Taken(s, v), Mine(v.tenant, s.log));
    ReplayMine(def, v.tenant, map[], s.log);
  }

  /** Whatever the order: when a tenant's appends were all answered `projected: true` since the
      projection is as it is defined and the folds are done, a rebuild would skip nothing. */
  lemma NothingToSkip(defs: seq<ProjectionDef>, moves: seq<Move>, v: View)
    requires DistinctTables(defs) && Runs(defs, START, moves) && v.projection < |DefsOf(defs, moves)|
    requires v !in End(START, moves).unprojected && Queue(End(START, moves), v) == []
    ensures Replay(DefsOf(defs, moves)[v.projection], v.tenant, End(START, moves).log).skipped == 0
  {
    RunKeepsInv(defs, moves);
    AllFoldable(DefsOf(defs, moves), End(START, moves), v);
    NothingSkipped(DefsOf(defs, moves)[v.projection], v.tenant, End(START, moves).log);
  }

  lemma AllFoldable(defs: seq<ProjectionDef>, s: State, v: View)
    requires FoldableOrWaiting(defs, s) && v.projection < |defs| && v !in s.unprojected && Queue(s, v) == []
    ensures forall e :: e in s.log && e.tenant == v.tenant ==> Foldable(defs[v.projection], e)
  {
    forall e | e in s.log && e.tenant == v.tenant ensures Foldable(defs[v.projection], e) {
      assert Todo(e, false) !in Queue(s, View(v.projection, e.tenant));
    }
  }
}
