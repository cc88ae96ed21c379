/** What goes wrong when folds leave log order or a rebuild overlaps an append
    (go/internal/httpapi/router.go, `append` and `adminRebuild`), and exactly when it does
    not matter. */
module Overlap {
  import opened Basics
  import opened JsonValues
  import opened Definitions
  import opened Projector
  import opened Totals
  import opened Commute
  import opened FoldRuns
  import opened ReadModels

  // ── when a fold changes nothing ──────────────────────────────────────────────

  /** The row already holds what is assigned, and zero is added to numbers only. */
  predicate Already(row: Row, sets: map<string, Value>, incs: map<string, real>) {
    && (forall c :: c in sets && c !in incs ==> Cell(row, c) == sets[c])
    && (forall c :: c in incs ==> incs[c] == 0.0 && Cell(row, c).Number?)
  }

  /** Nothing to do for this event: no rule, no key, no such row to delete, an increment that
      does not resolve or cannot be added, or a row that already holds it all. */
  predicate NoOp(def: ProjectionDef, e: EventLike, t: Table) {
    e.eventType in def.on ==>
      var rule := def.on[e.eventType];
      match ResolveKey(rule, e)
      case None => true
      case Some(id) =>
        var k := RowKey(e.tenant, id);
        if rule.op == "delete" then k !in t
        else
          match ResolveIncs(def, rule, e.payload)
          case None => true
          case Some(incs) =>
              !CanAdd(RowAt(t, k), incs)
              || (k in t && Already(t[k], ResolveSets(def, rule, e.payload), incs))
  }

  function TableAfter(def: ProjectionDef, e: EventLike, t: Table): Table {
    match ApplyTo(def, e, t) case Folded(u) => u case _ => t
  }

  lemma MergeIsNoOpIff(row: Row, sets: map<string, Value>, incs: map<string, real>)
    requires CanAdd(row, incs)
    ensures SameRow(Merge(row, sets, incs), row) <==> Already(row, sets, incs)
  {
    forall c: string ensures Cell(Merge(row, sets, incs), c)
        == if c in incs then Plus(Cell(row, c), incs[c]) else if c in sets then sets[c] else Cell(row, c)
    {
      MergedCell(row, sets, incs, c);
    }
  }

  lemma RowWritten(t: Table, k: RowKey, row: Row)
    ensures SameReading(t[k := row], t) <==> k in t && SameRow(row, t[k])
  {
    var after := t[k := row];
    assert SameReading(after, t) ==> SameHeld(Held(after, k), Held(t, k));
    if k in t && SameRow(row, t[k]) {
      forall r ensures SameHeld(Held(after, r), Held(t, r)) {
        assert r != k ==> Held(after, r) == Held(t, r);
      }
    }
  }

  lemma RowRemoved(t: Table, k: RowKey)
    ensures SameReading(t - {k}, t) <==> k !in t
  {
    if k !in t {
      assert t - {k} == t;
    } else {
      assert !SameHeld(Held(t - {k}, k), Held(t, k));
    }
  }

  /** A fold leaves every cell reading as it did if and only if there was nothing to do. */
  lemma FoldIsNoOpIff(def: ProjectionDef, e: EventLike, t: Table)
    ensures SameReading(TableAfter(def, e, t), t) <==> NoOp(def, e, t)
  {
    if e.eventType in def.on && ResolveKey(def.on[e.eventType], e).Some? {
      var rule := def.on[e.eventType];
      var k := RowKey(e.tenant, ResolveKey(rule, e).value);
      RowRemoved(t, k);
      var incs := ResolveIncs(def, rule, e.payload);
      if incs.Some? && CanAdd(RowAt(t, k), incs.value) {
        var sets := ResolveSets(def, rule, e.payload);
        MergeIsNoOpIff(RowAt(t, k), sets, incs.value);
        RowWritten(t, k, Merge(RowAt(t, k), sets, incs.value));
      }
    }
  }

  // ── a rebuild that overlaps an append ────────────────────────────────────────

  /** Too early: a rebuild read the log, then an event was appended and folded, then the
      rebuild wiped the rows and refolded what it had read. The view reads as the log says if
      and only if the event had nothing to do on the rebuilt rows. */
  lemma OverlapHarmlessIff(def: ProjectionDef, tenant: string, log: seq<EventLike>, e: EventLike, t: Table)
    requires !Replay(def, tenant, log).failed
    ensures SameReading(Replay(def, tenant, log + [e]).table, TenantRows(Rebuild(def, tenant, t, log).table, tenant))
            <==> e.tenant != tenant || NoOp(def, e, Replay(def, tenant, log).table)
  {
    RebuildForgetsThePast(def, tenant, t, log);
    ReplayExtends(def, tenant, map[], log, e);
    FoldIsNoOpIff(def, e, Replay(def, tenant, log).table);
  }

  /** An event that may be folded twice: nothing but deletes, assignments and zeros. */
  predicate Repeatable(def: ProjectionDef, e: EventLike) {
    e.eventType in def.on ==>
      var rule := def.on[e.eventType];
      || ResolveKey(rule, e).None? || rule.op == "delete"
      || match ResolveIncs(def, rule, e.payload)
         case None => true
         case Some(incs) => forall c :: c in incs ==> incs[c] == 0.0
  }

  lemma MergeTwice(row: Row, sets: map<string, Value>, incs: map<string, real>)
    requires CanAdd(row, incs)
    ensures var once := Merge(row, sets, incs);
            CanAdd(once, incs) && (Already(once, sets, incs) <==> forall c :: c in incs ==> incs[c] == 0.0)
  {
    var once := Merge(row, sets, incs);
    forall c: string ensures Cell(once, c)
        == if c in incs then Plus(Cell(row, c), incs[c]) else if c in sets then sets[c] else Cell(row, c)
    {
      MergedCell(row, sets, incs, c);
    }
  }

  lemma AgainIsNoOpIff(def: ProjectionDef, e: EventLike, t: Table)
    requires !ApplyTo(def, e, t).SqlFailure?
    ensures NoOp(def, e, TableAfter(def, e, t)) <==> Repeatable(def, e)
  {
    if e.eventType in def.on && ResolveKey(def.on[e.eventType], e).Some? && def.on[e.eventType].op != "delete" {
      var rule := def.on[e.eventType];
      var k := RowKey(e.tenant, ResolveKey(rule, e).value);
      var incs := ResolveIncs(def, rule, e.payload);
      if incs.Some? {
        MergeTwice(RowAt(t, k), ResolveSets(def, rule, e.payload), incs.value);
        assert TableAfter(def, e, t)[k] == Merge(RowAt(t, k), ResolveSets(def, rule, e.payload), incs.value);
      }
    }
  }

  /** Too late: a rebuild read the log after an event was committed and wrote before the live
      fold of it, which then folds it a second time. The view reads as the log says if and
      only if the event may be folded twice. */
  lemma SecondFoldHarmlessIff(def: ProjectionDef, tenant: string, log: seq<EventLike>, e: EventLike)
    requires e.tenant == tenant && !Replay(def, tenant, log + [e]).failed
    ensures SameReading(TableAfter(def, e, Replay(def, tenant, log + [e]).table), Replay(def, tenant, log + [e]).table)
            <==> Repeatable(def, e)
  {
    var t := Replay(def, tenant, log).table;
    ReplayExtends(def, tenant, map[], log, e);
    FoldErrorIsDeterministic(def, e, t);
    AgainIsNoOpIff(def, e, t);
    FoldIsNoOpIff(def, e, Replay(def, tenant, log + [e]).table);
  }

  // ── runs of one event at a time ──────────────────────────────────────────────

  ghost function AfterCommit(defs: seq<ProjectionDef>, s: State, e: EventLike): State {
    s.(log := s.log + [e],
       queues := s.queues + map u | u in ViewsOf(defs, e.tenant) :: Queue(s, u) + [Todo(e, false)])
  }

  lemma CommitsOne(defs: seq<ProjectionDef>, s: State, e: EventLike)
    ensures Next(defs, s, Commit([e]), AfterCommit(defs, s, e))
  {
    forall u: View
      ensures Queue(AfterCommit(defs, s, e), u)
              == Queue(s, u) + if u.projection < |defs| then Todos(Mine(u.tenant, [e]), false) else []
    {
      AllMine(e.tenant, [e], u.tenant);
      assert u in ViewsOf(defs, e.tenant) <==> u.projection < |defs| && u.tenant == e.tenant;
      assert Todos([e], false) == [Todo(e, false)] && Queue(s, u) + [] == Queue(s, u);
    }
  }

  lemma Extended(defs: seq<ProjectionDef>, moves: seq<Move>, step: Step, s': State)
    requires Runs(defs, START, moves) && DefsOf(defs, moves) == defs && !step.Redefine?
    requires Next(defs, End(START, moves), step, s')
    ensures var more := moves + [Move(step, s')];
            Runs(defs, START, more) && End(START, more) == s' && DefsOf(defs, more) == defs
  {
    var more := moves + [Move(step, s')];
    assert more[..|moves|] == moves;
    forall k: nat | k < |more| ensures MoveAt(defs, START, more, k) {
      assert At(START, more, k) == At(START, moves, k);
      if k < |moves| {
        assert MoveAt(defs, START, moves, k) && more[k] == moves[k] && more[..k] == moves[..k];
      }
    }
  }

  lemma StillSplits(moves: seq<Move>, step: Step, s': State, v: View)
    requires AlwaysSplits(START, moves, v) && !step.Wipe?
    ensures AlwaysSplits(START, moves + [Move(step, s')], v)
  {
    var more := moves + [Move(step, s')];
    forall k: nat | k < |more| ensures SplitsAt(START, more, v, k) {
      assert At(START, more, k) == At(START, moves, k);
      if k < |moves| {
        assert SplitsAt(START, moves, v, k) && more[k] == moves[k];
      }
    }
  }

  /** A run without a redefinition or a failure, by what it shows of one view. */
  ghost predicate Shows(defs: seq<ProjectionDef>, v: View, moves: seq<Move>, log: seq<EventLike>, queue: seq<Todo>,
                        taken: seq<EventLike>) {
    var s := End(START, moves);
    && DistinctTables(defs) && v.projection < |defs|
    && Runs(defs, START, moves) && DefsOf(defs, moves) == defs
    && s.log == log && Queue(s, v) == queue && Taken(s, v) == taken && s.stale == iset{}
  }

  lemma CommitShows(defs: seq<ProjectionDef>, v: View, moves: seq<Move>, log: seq<EventLike>, queue: seq<Todo>,
                    taken: seq<EventLike>, e: EventLike)
    returns (more: seq<Move>)
    requires Shows(defs, v, moves, log, queue, taken) && e.tenant == v.tenant
    ensures Shows(defs, v, more, log + [e], queue + [Todo(e, false)], taken)
    ensures AlwaysSplits(START, moves, v) ==> AlwaysSplits(START, more, v)
  {
    var s := End(START, moves);
    CommitsOne(defs, s, e);
    Extended(defs, moves, Commit([e]), AfterCommit(defs, s, e));
    more := moves + [Move(Commit([e]), AfterCommit(defs, s, e))];
    if AlwaysSplits(START, moves, v) {
      StillSplits(moves, Commit([e]), AfterCommit(defs, s, e), v);
    }
    assert v in ViewsOf(defs, e.tenant);
  }

  lemma FoldShows(defs: seq<ProjectionDef>, v: View, moves: seq<Move>, log: seq<EventLike>, queue: seq<Todo>,
                  taken: seq<EventLike>, at: nat)
    returns (more: seq<Move>)
    requires Shows(defs, v, moves, log, queue, taken) && at < |queue|
    requires ApplyTo(defs[v.projection], queue[at].event, Replay(defs[v.projection], v.tenant, taken).table).Folded?
    ensures Shows(defs, v, more, log, Without(queue, at), taken + [queue[at].event])
    ensures AlwaysSplits(START, moves, v) ==> AlwaysSplits(START, more, v)
  {
    var s := End(START, moves);
    var def, e := defs[v.projection], queue[at].event;
    RunKeepsInv(defs, moves);
    assert queue[at] in Queue(s, v) && Mirrors(defs, s, v);
    FoldIsLocal(def, e, TableOfView(defs, s, v));
    Extended(defs, moves, Fold(v, at), AfterFold(defs, s, v, at));
    more := moves + [Move(Fold(v, at), AfterFold(defs, s, v, at))];
    if AlwaysSplits(START, moves, v) {
      StillSplits(moves, Fold(v, at), AfterFold(defs, s, v, at), v);
    }
  }

  lemma WipeShows(defs: seq<ProjectionDef>, v: View, moves: seq<Move>, log: seq<EventLike>, queue: seq<Todo>,
                  taken: seq<EventLike>, read: nat)
    returns (more: seq<Move>)
    requires Shows(defs, v, moves, log, queue, taken) && read <= |log|
    ensures Shows(defs, v, more, log, Todos(Mine(v.tenant, log[..read]), true) + queue, [])
  {
    var s := End(START, moves);
    Extended(defs, moves, Wipe(v, read), AfterWipe(defs, s, v, read));
    more := moves + [Move(Wipe(v, read), AfterWipe(defs, s, v, read))];
  }

  lemma StartShows(defs: seq<ProjectionDef>, v: View)
    requires DistinctTables(defs) && v.projection < |defs|
    ensures Shows(defs, v, [], [], [], []) && AlwaysSplits(START, [], v)
  {
  }

  // ── two folds swapped ────────────────────────────────────────────────────────

  lemma NextFolded(def: ProjectionDef, tenant: string, events: seq<EventLike>, e: EventLike)
    requires e.tenant == tenant && !Replay(def, tenant, events + [e]).failed && Foldable(def, e)
    ensures !Replay(def, tenant, events).failed
    ensures ApplyTo(def, e, Replay(def, tenant, events).table) == Folded(Replay(def, tenant, events + [e]).table)
  {
    ReplayExtends(def, tenant, map[], events, e);
    FoldErrorIsDeterministic(def, e, Replay(def, tenant, events).table);
  }

  /** Two handlers commit x and then y, and fold y first. */
  lemma SwapShows(defs: seq<ProjectionDef>, v: View, before: seq<Move>, log: seq<EventLike>, taken: seq<EventLike>,
                  x: EventLike, y: EventLike)
    returns (moves: seq<Move>)
    requires Shows(defs, v, before, log, [], taken) && x.tenant == v.tenant && y.tenant == v.tenant
    requires Foldable(defs[v.projection], x) && Foldable(defs[v.projection], y)
    requires !Replay(defs[v.projection], v.tenant, taken + [y] + [x]).failed
    ensures Shows(defs, v, moves, log + [x] + [y], [], taken + [y] + [x])
    ensures AlwaysSplits(START, before, v) ==> AlwaysSplits(START, moves, v)
  {
    var def := defs[v.projection];
    NextFolded(def, v.tenant, taken + [y], x);
    NextFolded(def, v.tenant, taken, y);
    var committed := CommitTwoShows(defs, v, before, log, taken, x, y);
    moves := FoldTwoShows(defs, v, committed, log + [x] + [y], taken, Todo(y, false), 1, Todo(x, false));
  }

  lemma CommitTwoShows(defs: seq<ProjectionDef>, v: View, before: seq<Move>, log: seq<EventLike>, taken: seq<EventLike>,
                       x: EventLike, y: EventLike)
    returns (moves: seq<Move>)
    requires Shows(defs, v, before, log, [], taken) && x.tenant == v.tenant && y.tenant == v.tenant
    ensures Shows(defs, v, moves, log + [x] + [y], [Todo(x, false), Todo(y, false)], taken)
    ensures AlwaysSplits(START, before, v) ==> AlwaysSplits(START, moves, v)
  {
    var one, two := Todo(x, false), Todo(y, false);
    var first := CommitShows(defs, v, before, log, [], taken, x);
    assert [] + [one] == [one] && [one] + [two] == [one, two];
    moves := CommitShows(defs, v, first, log + [x], [one], taken, y);
  }

  /** The two events of a queue, the one at this place first. */
  lemma FoldTwoShows(defs: seq<ProjectionDef>, v: View, before: seq<Move>, log: seq<EventLike>, taken: seq<EventLike>,
                     first: Todo, at: nat, second: Todo)
    returns (moves: seq<Move>)
    requires at <= 1 && Shows(defs, v, before, log, if at == 0 then [first, second] else [second, first], taken)
    requires ApplyTo(defs[v.projection], first.event, Replay(defs[v.projection], v.tenant, taken).table).Folded?
    requires ApplyTo(defs[v.projection], second.event,
                     Replay(defs[v.projection], v.tenant, taken + [first.event]).table).Folded?
    ensures Shows(defs, v, moves, log, [], taken + [first.event] + [second.event])
    ensures AlwaysSplits(START, before, v) ==> AlwaysSplits(START, moves, v)
  {
    var queue := if at == 0 then [first, second] else [second, first];
    assert Without(queue, at) == [second] && Without([second], 0) == [];
    var one := FoldShows(defs, v, before, log, queue, taken, at);
    moves := FoldShows(defs, v, one, log, [second], taken + [first.event], 0);
  }

  lemma ReplayMineTwo(def: ProjectionDef, tenant: string, log: seq<EventLike>, x: EventLike, y: EventLike)
    requires x.tenant == tenant && y.tenant == tenant
    ensures Replay(def, tenant, log + [x] + [y]) == Replay(def, tenant, Mine(tenant, log) + [x] + [y])
  {
    ReplayThenTwo(def, tenant, log, x, y);
    ReplayThenTwo(def, tenant, Mine(tenant, log), x, y);
    ReplayMine(def, tenant, map[], log);
  }

  /** From any run that has folded a tenant's log in order: two handlers append x and then y,
      and fold y and then x, nothing failing. The view, at rest, reads as the replay of the
      log if and only if the events commute. */
  lemma SwapHarmlessIff(defs: seq<ProjectionDef>, v: View, before: seq<Move>, log: seq<EventLike>, x: EventLike,
                        y: EventLike)
    returns (moves: seq<Move>)
    requires Shows(defs, v, before, log, [], Mine(v.tenant, log)) && x.tenant == v.tenant && y.tenant == v.tenant
    requires Foldable(defs[v.projection], x) && Foldable(defs[v.projection], y)
    requires !Replay(defs[v.projection], v.tenant, log + [x] + [y]).failed
    requires !Replay(defs[v.projection], v.tenant, log + [y] + [x]).failed
    ensures Shows(defs, v, moves, log + [x] + [y], [], Mine(v.tenant, log) + [y] + [x])
    ensures AlwaysSplits(START, before, v) ==> AlwaysSplits(START, moves, v)
    ensures SameReading(TenantRows(TableOfView(defs, End(START, moves), v), v.tenant),
                        Replay(defs[v.projection], v.tenant, log + [x] + [y]).table)
            <==> Commutes(defs[v.projection], x, y)
  {
    var def, mine := defs[v.projection], Mine(v.tenant, log);
    ReplayMineTwo(def, v.tenant, log, x, y);
    ReplayMineTwo(def, v.tenant, log, y, x);
    moves := SwapShows(defs, v, before, log, mine, x, y);
    RunKeepsInv(defs, moves);
    assert Mirrors(defs, End(START, moves), v);
    SwappedReplays(def, v.tenant, mine, x, y);
  }

  lemma SwappedReplays(def: ProjectionDef, tenant: string, log: seq<EventLike>, x: EventLike, y: EventLike)
    requires x.tenant == tenant && y.tenant == tenant && Foldable(def, x) && Foldable(def, y)
    requires !Replay(def, tenant, log + [x] + [y]).failed && !Replay(def, tenant, log + [y] + [x]).failed
    ensures SameReading(Replay(def, tenant, log + [y] + [x]).table, Replay(def, tenant, log + [x] + [y]).table)
            <==> Commutes(def, x, y)
  {
    NextFolded(def, tenant, log + [x], y);
    NextFolded(def, tenant, log, x);
    NextFolded(def, tenant, log + [y], x);
    NextFolded(def, tenant, log, y);
    CommutesSymmetric(def, x, y);
    FoldsCommuteIff(def, y, x, Replay(def, tenant, log).table,
                    Replay(def, tenant, log + [y]).table, Replay(def, tenant, log + [y] + [x]).table,
                    Replay(def, tenant, log + [x]).table, Replay(def, tenant, log + [x] + [y]).table);
  }

  // ── runs that go wrong ───────────────────────────────────────────────────────

  const ACME := View(0, "acme")

  /** At rest and not stale, and yet not what the log says. */
  ghost predicate Wrong(def: ProjectionDef, moves: seq<Move>) {
    var s := End(START, moves);
    && Runs([def], START, moves) && DefsOf([def], moves) == [def] && ACME !in s.stale && Queue(s, ACME) == []
    && !Faithful(def, "acme", s.tables, s.log)
  }

  lemma WrongIf(def: ProjectionDef, moves: seq<Move>, log: seq<EventLike>, taken: seq<EventLike>)
    requires Shows([def], ACME, moves, log, [], taken)
             && Replay(def, "acme", taken).table != Replay(def, "acme", log).table
    ensures Wrong(def, moves)
  {
    RunKeepsInv([def], moves);
    assert Mirrors([def], End(START, moves), ACME);
  }

  lemma AssignsState(evt: string, state: string)
    requires (evt == "Opened" && state == "open") || (evt == "Closed" && state == "closed")
    ensures var e := EventLike(evt, "s1", "acme", map[]);
            && PureCounters(ASSIGNING) && Effective(ASSIGNING, e) && !IsDelete(ASSIGNING, e)
            && RowOf(ASSIGNING, e) == RowKey("acme", "s1") && EditOf(ASSIGNING, e, "state") == Put(Text(state))
  {
    AssignedColumns(evt, state);
    assert IncColumns(ASSIGNING, ASSIGNING.on[evt]) == {};
  }

  lemma AssignmentsDoNotCommute()
    ensures !Commutes(ASSIGNING, OPENED, CLOSED)
  {
    AssignsState("Opened", "open");
    AssignsState("Closed", "closed");
    assert "state" in ASSIGNING.columns;
    assert "open"[2] != "closed"[2];
  }

  /** Two handlers fold their events in the other order: with a rule that assigns, the view
      stays wrong although nothing failed. */
  lemma FoldOrderIsNeeded()
    ensures exists moves :: Wrong(ASSIGNING, moves) && AlwaysSplits(START, moves, ACME)
  {
    AssignsState("Opened", "open");
    AssignsState("Closed", "closed");
    StartShows([ASSIGNING], ACME);
    CountersNeverFail(ASSIGNING, "acme", [] + [OPENED] + [CLOSED]);
    CountersNeverFail(ASSIGNING, "acme", [] + [CLOSED] + [OPENED]);
    var moves := SwapHarmlessIff([ASSIGNING], ACME, [], [], OPENED, CLOSED);
    AssignmentsDoNotCommute();
    AlikeSelf(Replay(ASSIGNING, "acme", [] + [OPENED] + [CLOSED]));
    assert Wrong(ASSIGNING, moves);
  }

  /** What a live fold or a refold of the counting rule meets. */
  lemma CountingFolds(taken: seq<EventLike>)
    ensures ApplyTo(DELETING, OPENED, Replay(DELETING, "acme", taken).table).Folded?
  {
    OneIncrement();
    CountersNeverFail(DELETING, "acme", taken);
    FoldKeepsCounters(DELETING, OPENED, Replay(DELETING, "acme", taken).table);
    FoldErrorIsDeterministic(DELETING, OPENED, Replay(DELETING, "acme", taken).table);
  }

  lemma OneIncrement()
    ensures var rule := DELETING.on["Opened"];
            ResolveIncs(DELETING, rule, map[]) == Some(map["n" := 1.0]) && ResolveSets(DELETING, rule, map[]) == map[]
  {
    var rule := DELETING.on["Opened"];
    assert IncColumns(DELETING, rule) == {"n"} && SetColumns(DELETING, rule) == {};
    var one := ResolveInc(map[], rule.incs["n"]);
    assert one == Some(1.0);
    assert forall c :: c in IncColumns(DELETING, rule) ==> c == "n";
    assert (map c | c in IncColumns(DELETING, rule) :: ResolveInc(map[], rule.incs[c]).value) == map["n" := 1.0];
  }

  /** The counter after one event and after the same event twice. */
  lemma Counts(s: ReplayState)
    requires !s.failed && CanAdd(RowAt(s.table, RowKey("acme", "s1")), map["n" := 1.0])
    ensures var after := ReplayStep(DELETING, "acme", s, OPENED); var k := RowKey("acme", "s1");
            && !after.failed && k in after.table
            && Cell(RowAt(after.table, k), "n") == Plus(Cell(RowAt(s.table, k), "n"), 1.0)
  {
    OneIncrement();
    MergedCell(RowAt(s.table, RowKey("acme", "s1")), map[], map["n" := 1.0], "n");
  }

  lemma CountedOnceOrTwice()
    ensures Replay(DELETING, "acme", []).table != Replay(DELETING, "acme", [OPENED]).table
    ensures Replay(DELETING, "acme", [OPENED]).table != Replay(DELETING, "acme", [OPENED, OPENED]).table
  {
    var start := ReplayState(map[], 0, false);
    Counts(start);
    Counts(ReplayStep(DELETING, "acme", start, OPENED));
    ReplayTwo(DELETING, "acme", OPENED, OPENED);
    assert [] + [OPENED] == [OPENED];
    ReplayExtends(DELETING, "acme", map[], [], OPENED);
  }

  /** A rebuild that read too early loses a counted event. */
  lemma OverlapLosesAnEvent()
    ensures exists moves :: Wrong(DELETING, moves) && Taken(End(START, moves), ACME) == []
  {
    StartShows([DELETING], ACME);
    var one := Todo(OPENED, false);
    var m1 := CommitShows([DELETING], ACME, [], [], [], [], OPENED);
    assert [] + [OPENED] == [OPENED] && [] + [one] == [one];
    CountingFolds([]);
    var m2 := FoldShows([DELETING], ACME, m1, [OPENED], [one], [], 0);
    assert Without([one], 0) == [];
    var m3 := WipeShows([DELETING], ACME, m2, [OPENED], [], [OPENED], 0);
    assert [OPENED][..0] == [] && Todos(Mine("acme", []), true) + [] == [];
    CountedOnceOrTwice();
    WrongIf(DELETING, m3, [OPENED], []);
  }

  /** A rebuild that read an event whose live fold was still to come counts it twice. */
  lemma OverlapCountsTwice()
    ensures exists moves :: Wrong(DELETING, moves) && Taken(End(START, moves), ACME) == [OPENED, OPENED]
  {
    StartShows([DELETING], ACME);
    var one, again := Todo(OPENED, false), Todo(OPENED, true);
    var m1 := CommitShows([DELETING], ACME, [], [], [], [], OPENED);
    assert [] + [OPENED] == [OPENED] && [] + [one] == [one];
    var m2 := WipeShows([DELETING], ACME, m1, [OPENED], [one], [], 1);
    AllMine("acme", [OPENED], "acme");
    assert [OPENED][..1] == [OPENED] && Todos([OPENED], true) + [one] == [again, one];
    assert [] + [OPENED] + [OPENED] == [OPENED, OPENED];
    CountingFolds([]);
    CountingFolds([OPENED]);
    var m3 := FoldTwoShows([DELETING], ACME, m2, [OPENED], [], again, 0, one);
    CountedOnceOrTwice();
    WrongIf(DELETING, m3, [OPENED], [OPENED, OPENED]);
  }
}
