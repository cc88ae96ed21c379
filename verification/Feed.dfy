/** The live feed end to end: appends commit and publish, a session catches up from the log
    and tails the bus, a client keeps a cursor, drops and reconnects
    (go/internal/httpapi/router.go, `append` and `subscribe`; go/internal/bus/bus.go;
    clients/ts/src/client.ts, `subscribe`).

    Every handler, the session and the client move on their own, one small step at a time.
    One client is followed; other subscribers have buffers of their own. */
module Feed {
  import opened EventLog
  import opened Store
  import opened Bus

  datatype Phase = Off | Subscribed | CatchUp(rest: seq<StoredEvent>) | Live

  datatype State = State(
    log: seq<StoredEvent>,
    /** What each append handler has committed and not yet published. */
    handlers: map<nat, seq<StoredEvent>>,
    phase: Phase,
    lastSeq: int,
    /** Bookkeeping of the proof: how far into the log the session has looked. */
    covered: int,
    queue: seq<StoredEvent>,
    over: bool,
    /** Frames sent and not yet parsed by the client. */
    wire: seq<StoredEvent>,
    cursor: int,
    received: seq<StoredEvent>)

  datatype Step =
    | Commit(handler: nat, rows: seq<StoredEvent>)
    | Publish(handler: nat)
    | Connect
    | Snapshot
    | SendCatchUp
    | Tail
    /** The session sees `over` and ends; what is on the wire still arrives. */
    | EndOver
    | Receive
    /** The connection breaks: the session ends and the wire is lost. */
    | Drop
    /** The process restarts: sessions and unpublished events are gone. */
    | Restart

  function Start(from: int): State { State([], map[], Off, from, 0, [], false, [], from, []) }

  /** The session's own filter: at or below `lastSeq` is overlap, another category is skipped. */
  predicate Sends(q: Topic, lastSeq: int, e: StoredEvent) {
    e.globalSeq > lastSeq && (q.category == "" || e.streamType == q.category)
  }

  /** What a session has put on the wire, and the last sequence number among it. */
  datatype Outlet = Outlet(lastSeq: int, wire: seq<StoredEvent>)

  function Written(o: Outlet, e: StoredEvent): Outlet { Outlet(e.globalSeq, o.wire + [e]) }

  /** One event taken from the buffer. */
  function Tailed(q: Topic, o: Outlet, e: StoredEvent): Outlet { if Sends(q, o.lastSeq, e) then Written(o, e) else o }

  function Max(a: int, b: int): int { if a < b then b else a }

  function AfterPublish(q: Topic, s: State, h: nat): State
    requires h in s.handlers && s.handlers[h] != []
  {
    var e := s.handlers[h][0];
    var s' := s.(handlers := s.handlers[h := s.handlers[h][1..]]);
    if s.phase.Off? || e.tenant != q.tenant then s'
    else
      var b := Enqueued(Buffer(s.queue, s.over), e);
      s'.(queue := b.ch, over := b.over)
  }

  function AfterTail(q: Topic, s: State): State
    requires s.queue != []
  {
    var e := s.queue[0];
    var o := Tailed(q, Outlet(s.lastSeq, s.wire), e);
    s.(queue := s.queue[1..], covered := Max(s.covered, e.globalSeq), wire := o.wire, lastSeq := o.lastSeq)
  }

  ghost function Next(q: Topic, s: State, step: Step): State {
    match step
    case Commit(h, rows) =>
      if h !in s.handlers && Ordered(s.log + rows) && (rows != [] ==> rows[0].globalSeq > Horizon(s.log))
      then s.(log := s.log + rows, handlers := s.handlers[h := rows]) else s
    case Publish(h) =>
      if h in s.handlers && s.handlers[h] != [] then AfterPublish(q, s, h) else s
    case Connect =>
      if s.phase.Off? && s.wire == [] then s.(phase := Subscribed, lastSeq := s.cursor, queue := [], over := false)
      else s
    case Snapshot =>
      if s.phase.Subscribed? then s.(phase := CatchUp(ReadFrom(s.log, q, s.lastSeq)), covered := Horizon(s.log)) else s
    case SendCatchUp =>
      if !s.phase.CatchUp? then s
      else if s.phase.rest == [] then s.(phase := Live)
      else
        var o := Written(Outlet(s.lastSeq, s.wire), s.phase.rest[0]);
        s.(phase := CatchUp(s.phase.rest[1..]), wire := o.wire, lastSeq := o.lastSeq)
    case Tail =>
      if s.phase.Live? && s.queue != [] then AfterTail(q, s) else s
    case EndOver =>
      if s.phase.Live? && s.over then s.(phase := Off) else s
    case Receive =>
      if s.wire == [] then s
      else s.(wire := s.wire[1..], cursor := s.wire[0].globalSeq, received := s.received + [s.wire[0]])
    case Drop => s.(phase := Off, wire := [], lastSeq := s.cursor)
    case Restart => s.(phase := Off, wire := [], lastSeq := s.cursor, handlers := map[])
  }

  ghost function Run(q: Topic, s: State, steps: seq<Step>): State
    decreases |steps|
  {
    if steps == [] then s else Run(q, Next(q, s, steps[0]), steps[1..])
  }

  // ── the two hypotheses ───────────────────────────────────────────────────────

  predicate Pending(handlers: map<nat, seq<StoredEvent>>, e: StoredEvent) {
    exists h :: h in handlers && e in handlers[h]
  }

  /** Publishes follow globalSeq order: nothing older of the tenant is still unpublished. */
  ghost predicate InOrder(s: State, step: Step) {
    step.Publish? && step.handler in s.handlers && s.handlers[step.handler] != [] ==>
      var e := s.handlers[step.handler][0];
      forall f :: Pending(s.handlers, f) && f.tenant == e.tenant ==> e.globalSeq <= f.globalSeq
  }

  /** Nothing is sent from the buffer once it has overflowed. */
  predicate QuietAfterOver(q: Topic, s: State, step: Step) {
    step.Tail? && s.phase.Live? && s.queue != [] && s.over ==> !Sends(q, s.lastSeq, s.queue[0])
  }

  ghost predicate PublishesInOrder(q: Topic, s: State, steps: seq<Step>)
    decreases |steps|
  {
    steps == [] || (InOrder(s, steps[0]) && PublishesInOrder(q, Next(q, s, steps[0]), steps[1..]))
  }

  ghost predicate NothingAfterOver(q: Topic, s: State, steps: seq<Step>)
    decreases |steps|
  {
    steps == [] || (QuietAfterOver(q, s, steps[0]) && NothingAfterOver(q, Next(q, s, steps[0]), steps[1..]))
  }

  // ── the invariant ────────────────────────────────────────────────────────────

  /** The log moves past `hi` or the range is empty for good. */
  predicate Settled(log: seq<StoredEvent>, lo: int, hi: int) { lo <= hi && (lo == hi || hi <= Horizon(log)) }

  ghost predicate ClientOk(log: seq<StoredEvent>, q: Topic, from: int, cursor: int, received: seq<StoredEvent>) {
    Settled(log, from, cursor) && received == Between(log, q, from, cursor)
  }

  ghost predicate WireOk(log: seq<StoredEvent>, q: Topic, cursor: int, lastSeq: int, wire: seq<StoredEvent>) {
    Settled(log, cursor, lastSeq) && wire == Between(log, q, cursor, lastSeq)
  }

  ghost predicate HandlersOk(log: seq<StoredEvent>, handlers: map<nat, seq<StoredEvent>>) {
    && (forall h, e :: h in handlers && e in handlers[h] ==> e in log)
    && (forall h :: h in handlers ==> Ordered(handlers[h]))
    && forall h, g, e :: h in handlers && g in handlers && e in handlers[h] && e in handlers[g] ==> h == g
  }

  /** The buffer holds the tenant's events in order, all older than what is unpublished. */
  ghost predicate QueueOk(log: seq<StoredEvent>, handlers: map<nat, seq<StoredEvent>>, q: Topic,
                          queue: seq<StoredEvent>) {
    && Ordered(queue)
    && (forall e :: e in queue ==> e in log && e.tenant == q.tenant)
    && forall e, f :: e in queue && Pending(handlers, f) && f.tenant == q.tenant ==> e.globalSeq < f.globalSeq
  }

  /** Past the snapshot every event of the tenant is still to be published or in the buffer. */
  ghost predicate Covers(log: seq<StoredEvent>, handlers: map<nat, seq<StoredEvent>>, q: Topic, queue: seq<StoredEvent>,
                         covered: int) {
    covered <= Horizon(log)
    && forall e :: e in log && e.tenant == q.tenant && e.globalSeq > covered ==> Pending(handlers, e) || e in queue
  }

  ghost predicate SessionOk(s: State, q: Topic) {
    match s.phase
    case Off => true
    case Subscribed => QueueOk(s.log, s.handlers, q, s.queue)
    case CatchUp(rest) =>
      && QueueOk(s.log, s.handlers, q, s.queue)
      && s.covered <= Horizon(s.log) && rest == Between(s.log, q, s.lastSeq, s.covered)
      && (!s.over ==> Covers(s.log, s.handlers, q, s.queue, s.covered))
    case Live =>
      && QueueOk(s.log, s.handlers, q, s.queue)
      && (!s.over ==> Covers(s.log, s.handlers, q, s.queue, s.covered) && Between(s.log, q, s.lastSeq, s.covered) == [])
  }

  ghost predicate Inv(q: Topic, from: int, s: State) {
    && Ordered(s.log) && HandlersOk(s.log, s.handlers)
    && ClientOk(s.log, q, from, s.cursor, s.received)
    && WireOk(s.log, q, s.cursor, s.lastSeq, s.wire)
    && SessionOk(s, q)
  }

  // ── commits ──────────────────────────────────────────────────────────────────

  predicate Fresh(log: seq<StoredEvent>, rows: seq<StoredEvent>) { rows != [] ==> rows[0].globalSeq > Horizon(log) }

  lemma RowsAreNewer(log: seq<StoredEvent>, rows: seq<StoredEvent>)
    requires Ordered(log + rows) && Fresh(log, rows)
    ensures Ordered(log) && Ordered(rows) && Horizon(log) <= Horizon(log + rows)
    ensures forall e :: e in rows ==> e.globalSeq > Horizon(log)
    ensures forall e :: e in log ==> e.globalSeq <= Horizon(log)
  {
    var all := log + rows;
    assert forall i :: 0 <= i < |log| ==> log[i] == all[i];
    assert forall i :: 0 <= i < |rows| ==> rows[i] == all[|log| + i];
    HorizonBounds(log);
  }

  lemma RangeKeeps(log: seq<StoredEvent>, rows: seq<StoredEvent>, q: Topic, lo: int, hi: int)
    requires Ordered(log + rows) && Fresh(log, rows) && (hi <= lo || hi <= Horizon(log))
    ensures Between(log + rows, q, lo, hi) == Between(log, q, lo, hi)
  {
    RowsAreNewer(log, rows);
    if hi <= lo {
      BetweenEmpty(log, q, lo, hi);
      BetweenEmpty(log + rows, q, lo, hi);
    } else {
      BetweenGrow(log, rows, q, lo, hi);
    }
  }

  lemma CommitHandlers(log: seq<StoredEvent>, rows: seq<StoredEvent>, handlers: map<nat, seq<StoredEvent>>, h: nat)
    requires HandlersOk(log, handlers) && h !in handlers && Ordered(log + rows) && Fresh(log, rows)
    ensures HandlersOk(log + rows, handlers[h := rows])
  {
    RowsAreNewer(log, rows);
  }

  lemma CommitPending(handlers: map<nat, seq<StoredEvent>>, h: nat, rows: seq<StoredEvent>, e: StoredEvent)
    requires h !in handlers
    ensures Pending(handlers[h := rows], e) <==> Pending(handlers, e) || e in rows
  {
    var after := handlers[h := rows];
    if e in rows {
      assert after[h] == rows;
    }
    if Pending(handlers, e) {
      var g :| g in handlers && e in handlers[g];
      assert after[g] == handlers[g];
    }
  }

  lemma CommitQueue(log: seq<StoredEvent>, rows: seq<StoredEvent>, handlers: map<nat, seq<StoredEvent>>, h: nat,
                    q: Topic, queue: seq<StoredEvent>)
    requires h !in handlers && Ordered(log + rows) && Fresh(log, rows) && QueueOk(log, handlers, q, queue)
    ensures QueueOk(log + rows, handlers[h := rows], q, queue)
  {
    RowsAreNewer(log, rows);
    forall e, f | e in queue && Pending(handlers[h := rows], f) && f.tenant == q.tenant
      ensures e.globalSeq < f.globalSeq
    {
      CommitPending(handlers, h, rows, f);
    }
  }

  lemma CommitCovers(log: seq<StoredEvent>, rows: seq<StoredEvent>, handlers: map<nat, seq<StoredEvent>>, h: nat,
                     q: Topic, queue: seq<StoredEvent>, covered: int)
    requires h !in handlers && Ordered(log + rows) && Fresh(log, rows) && Covers(log, handlers, q, queue, covered)
    ensures Covers(log + rows, handlers[h := rows], q, queue, covered)
  {
    RowsAreNewer(log, rows);
    forall e | e in log + rows && e.tenant == q.tenant && e.globalSeq > covered
      ensures Pending(handlers[h := rows], e) || e in queue
    {
      CommitPending(handlers, h, rows, e);
    }
  }

  lemma CommitKeeps(q: Topic, from: int, s: State, h: nat, rows: seq<StoredEvent>)
    requires Inv(q, from, s) && h !in s.handlers && Ordered(s.log + rows) && Fresh(s.log, rows)
    ensures Inv(q, from, s.(log := s.log + rows, handlers := s.handlers[h := rows]))
  {
    RowsAreNewer(s.log, rows);
    CommitHandlers(s.log, rows, s.handlers, h);
    RangeKeeps(s.log, rows, q, from, s.cursor);
    RangeKeeps(s.log, rows, q, s.cursor, s.lastSeq);
    if !s.phase.Off? {
      CommitQueue(s.log, rows, s.handlers, h, q, s.queue);
      if Covers(s.log, s.handlers, q, s.queue, s.covered) {
        CommitCovers(s.log, rows, s.handlers, h, q, s.queue, s.covered);
      }
    }
    if s.covered <= Horizon(s.log) {
      RangeKeeps(s.log, rows, q, s.lastSeq, s.covered);
    }
  }

  // ── publishes ────────────────────────────────────────────────────────────────

  lemma PublishHandlers(log: seq<StoredEvent>, handlers: map<nat, seq<StoredEvent>>, h: nat)
    requires HandlersOk(log, handlers) && h in handlers && handlers[h] != []
    ensures var after := handlers[h := handlers[h][1..]];
            HandlersOk(log, after) && forall e :: Pending(after, e) <==> Pending(handlers, e) && e != handlers[h][0]
  {
    var mine := handlers[h];
    var after := handlers[h := mine[1..]];
    assert mine == [mine[0]] + mine[1..];
    assert forall g, e :: g in after && e in after[g] ==> e in handlers[g];
    forall e ensures Pending(after, e) <==> Pending(handlers, e) && e != mine[0] {
      if Pending(after, e) {
        var g :| g in after && e in after[g];
        assert g == h ==> e.globalSeq > mine[0].globalSeq;
        assert e in handlers[g];
        assert mine[0] in handlers[h];
      }
      if Pending(handlers, e) && e != mine[0] {
        var g :| g in handlers && e in handlers[g];
        assert e in after[g];
      }
    }
  }

  lemma PublishKeeps(q: Topic, from: int, s: State, h: nat)
    requires Inv(q, from, s) && h in s.handlers && s.handlers[h] != [] && InOrder(s, Publish(h))
    ensures Inv(q, from, AfterPublish(q, s, h))
  {
    var e := s.handlers[h][0];
    assert Pending(s.handlers, e) by { assert e in s.handlers[h]; }
    PublishHandlers(s.log, s.handlers, h);
    if !s.phase.Off? {
      PublishQueue(s, q, h);
    }
  }

  lemma PublishQueue(s: State, q: Topic, h: nat)
    requires Ordered(s.log) && HandlersOk(s.log, s.handlers) && h in s.handlers && s.handlers[h] != []
             && InOrder(s, Publish(h))
    requires QueueOk(s.log, s.handlers, q, s.queue)
    ensures var t := AfterPublish(q, s, h); !s.phase.Off? ==>
            QueueOk(t.log, t.handlers, q, t.queue)
            && (!t.over && Covers(s.log, s.handlers, q, s.queue, s.covered) ==>
                Covers(t.log, t.handlers, q, t.queue, t.covered))
  {
    PublishKeepsQueue(s, q, h);
    if !s.phase.Off? && !AfterPublish(q, s, h).over && Covers(s.log, s.handlers, q, s.queue, s.covered) {
      PublishCovers(s, q, h);
    }
  }

  lemma FirstIsOldest(s: State, h: nat)
    requires Ordered(s.log) && HandlersOk(s.log, s.handlers) && h in s.handlers && s.handlers[h] != []
             && InOrder(s, Publish(h))
    ensures var e := s.handlers[h][0];
            && Pending(s.handlers, e) && e in s.log
            && forall f :: Pending(s.handlers, f) && f != e && f.tenant == e.tenant ==> e.globalSeq < f.globalSeq
  {
    var e := s.handlers[h][0];
    assert e in s.handlers[h];
    forall f | Pending(s.handlers, f) && f != e && f.tenant == e.tenant ensures e.globalSeq < f.globalSeq {
      if e.globalSeq == f.globalSeq {
        SameSeq(s.log, e, f);
      }
    }
  }

  lemma PublishKeepsQueue(s: State, q: Topic, h: nat)
    requires Ordered(s.log) && HandlersOk(s.log, s.handlers) && h in s.handlers && s.handlers[h] != []
             && InOrder(s, Publish(h))
    requires QueueOk(s.log, s.handlers, q, s.queue)
    ensures var t := AfterPublish(q, s, h); !s.phase.Off? ==> QueueOk(t.log, t.handlers, q, t.queue)
  {
    FirstIsOldest(s, h);
    PublishHandlers(s.log, s.handlers, h);
  }

  lemma PublishCovers(s: State, q: Topic, h: nat)
    requires HandlersOk(s.log, s.handlers) && h in s.handlers && s.handlers[h] != [] && !s.phase.Off?
    requires Covers(s.log, s.handlers, q, s.queue, s.covered) && !AfterPublish(q, s, h).over
    ensures var t := AfterPublish(q, s, h); Covers(t.log, t.handlers, q, t.queue, t.covered)
  {
    PublishHandlers(s.log, s.handlers, h);
  }

  // ── the session ──────────────────────────────────────────────────────────────

  lemma SnapshotKeeps(q: Topic, from: int, s: State)
    requires Inv(q, from, s) && s.phase.Subscribed?
    ensures Inv(q, from, Next(q, s, Snapshot))
  {
    HorizonBounds(s.log);
  }

  /** Sending the first event of a range moves its start to that event. */
  lemma FirstOfRange(log: seq<StoredEvent>, q: Topic, lo: int, hi: int)
    requires Ordered(log) && Between(log, q, lo, hi) != []
    ensures var r := Between(log, q, lo, hi);
            && lo < r[0].globalSeq <= hi && r[0].globalSeq <= Horizon(log)
            && Between(log, q, lo, r[0].globalSeq) == [r[0]]
            && Between(log, q, r[0].globalSeq, hi) == r[1..]
  {
    var r := Between(log, q, lo, hi);
    BetweenMembers(log, q, lo, hi, r[0]);
    BetweenOrdered(log, q, lo, hi);
    HorizonBounds(log);
    forall x | x in log && Wanted(x, q) ensures !(lo < x.globalSeq < r[0].globalSeq) {
      BetweenMembers(log, q, lo, hi, x);
    }
    BetweenOne(log, q, lo, r[0]);
    BetweenSplit(log, q, lo, r[0].globalSeq, hi);
  }

  /** A send right after what was sent before keeps the wire exact. */
  lemma WireGrows(log: seq<StoredEvent>, q: Topic, cursor: int, lastSeq: int, wire: seq<StoredEvent>, e: StoredEvent)
    requires Ordered(log) && WireOk(log, q, cursor, lastSeq, wire) && lastSeq < e.globalSeq && e in log
    requires Between(log, q, lastSeq, e.globalSeq) == [e]
    ensures WireOk(log, q, cursor, e.globalSeq, wire + [e])
  {
    HorizonBounds(log);
    BetweenSplit(log, q, cursor, lastSeq, e.globalSeq);
  }

  lemma CatchUpKeeps(q: Topic, from: int, s: State)
    requires Inv(q, from, s) && s.phase.CatchUp?
    ensures Inv(q, from, Next(q, s, SendCatchUp))
  {
    var rest := s.phase.rest;
    if rest != [] {
      FirstOfRange(s.log, q, s.lastSeq, s.covered);
      BetweenMembers(s.log, q, s.lastSeq, s.covered, rest[0]);
      WireGrows(s.log, q, s.cursor, s.lastSeq, s.wire, rest[0]);
    }
  }

  /** While the buffer is intact, nothing wanted lies between what was sent and its head. */
  lemma NothingBefore(s: State, q: Topic)
    requires Ordered(s.log) && QueueOk(s.log, s.handlers, q, s.queue) && s.queue != []
    requires Covers(s.log, s.handlers, q, s.queue, s.covered) && Between(s.log, q, s.lastSeq, s.covered) == []
    ensures forall x :: x in s.log && Wanted(x, q) && s.lastSeq < x.globalSeq ==>
            x.globalSeq >= s.queue[0].globalSeq && x.globalSeq > s.covered
  {
    var e := s.queue[0];
    assert e in s.queue;
    forall x | x in s.log && Wanted(x, q) && s.lastSeq < x.globalSeq
      ensures x.globalSeq >= e.globalSeq && x.globalSeq > s.covered
    {
      BetweenMembers(s.log, q, s.lastSeq, s.covered, x);
      assert Pending(s.handlers, x) || x in s.queue;
    }
  }

  lemma TailQueue(s: State, q: Topic)
    requires Ordered(s.log) && QueueOk(s.log, s.handlers, q, s.queue) && s.queue != []
    ensures QueueOk(s.log, s.handlers, q, s.queue[1..])
    ensures Covers(s.log, s.handlers, q, s.queue, s.covered)
            ==> Covers(s.log, s.handlers, q, s.queue[1..], Max(s.covered, s.queue[0].globalSeq))
  {
    var e := s.queue[0];
    assert s.queue == [e] + s.queue[1..];
    assert e in s.queue;
    HorizonBounds(s.log);
  }

  lemma TailKeeps(q: Topic, from: int, s: State)
    requires Inv(q, from, s) && s.phase.Live? && s.queue != [] && QuietAfterOver(q, s, Tail)
    ensures Inv(q, from, AfterTail(q, s))
  {
    var e := s.queue[0];
    assert e in s.queue;
    TailQueue(s, q);
    if !s.over {
      NothingBefore(s, q);
      var upTo := Max(s.covered, e.globalSeq);
      if Sends(q, s.lastSeq, e) {
        BetweenOne(s.log, q, s.lastSeq, e);
        WireGrows(s.log, q, s.cursor, s.lastSeq, s.wire, e);
        BetweenEmpty(s.log, q, e.globalSeq, upTo);
      } else {
        SkipLeavesNothing(s, q);
      }
    }
  }

  lemma SkipLeavesNothing(s: State, q: Topic)
    requires Ordered(s.log) && QueueOk(s.log, s.handlers, q, s.queue) && s.queue != []
    requires Covers(s.log, s.handlers, q, s.queue, s.covered) && Between(s.log, q, s.lastSeq, s.covered) == []
    requires !Sends(q, s.lastSeq, s.queue[0])
    ensures Between(s.log, q, s.lastSeq, Max(s.covered, s.queue[0].globalSeq)) == []
  {
    var e := s.queue[0];
    assert e in s.queue;
    NothingBefore(s, q);
    forall x | x in s.log && Wanted(x, q) ensures !(s.lastSeq < x.globalSeq <= Max(s.covered, e.globalSeq)) {
      if s.lastSeq < x.globalSeq && x.globalSeq == e.globalSeq {
        SameSeq(s.log, x, e);
      }
    }
    BetweenEmpty(s.log, q, s.lastSeq, Max(s.covered, e.globalSeq));
  }

  // ── the client ───────────────────────────────────────────────────────────────

  lemma ReceiveKeeps(q: Topic, from: int, s: State)
    requires Inv(q, from, s) && s.wire != []
    ensures Inv(q, from, Next(q, s, Receive))
  {
    FirstOfRange(s.log, q, s.cursor, s.lastSeq);
    BetweenSplit(s.log, q, from, s.cursor, s.wire[0].globalSeq);
  }

  lemma CutKeeps(log: seq<StoredEvent>, q: Topic, cursor: int)
    ensures WireOk(log, q, cursor, cursor, [])
  {
    BetweenEmpty(log, q, cursor, cursor);
  }

  // ── every run ────────────────────────────────────────────────────────────────

  lemma StepKeepsInv(q: Topic, from: int, s: State, step: Step)
    requires Inv(q, from, s) && InOrder(s, step) && QuietAfterOver(q, s, step)
    ensures Inv(q, from, Next(q, s, step))
  {
    match step
    case Commit(h, rows) =>
      if h !in s.handlers && Ordered(s.log + rows) && Fresh(s.log, rows) {
        CommitKeeps(q, from, s, h, rows);
      }
    case Publish(h) =>
      if h in s.handlers && s.handlers[h] != [] {
        PublishKeeps(q, from, s, h);
      }
    case Connect => CutKeeps(s.log, q, s.cursor);
    case Snapshot =>
      if s.phase.Subscribed? {
        SnapshotKeeps(q, from, s);
      }
    case SendCatchUp =>
      if s.phase.CatchUp? {
        CatchUpKeeps(q, from, s);
      }
    case Tail =>
      if s.phase.Live? && s.queue != [] {
        TailKeeps(q, from, s);
      }
    case EndOver =>
    case Receive =>
      if s.wire != [] {
        ReceiveKeeps(q, from, s);
      }
    case Drop => CutKeeps(s.log, q, s.cursor);
    case Restart => CutKeeps(s.log, q, s.cursor);
  }

  lemma {:induction false} RunKeepsInv(q: Topic, from: int, s: State, steps: seq<Step>)
    requires Inv(q, from, s) && PublishesInOrder(q, s, steps) && NothingAfterOver(q, s, steps)
    ensures Inv(q, from, Run(q, s, steps))
    decreases |steps|
  {
    if steps != [] {
      StepKeepsInv(q, from, s, steps[0]);
      RunKeepsInv(q, from, Next(q, s, steps[0]), steps[1..]);
    }
  }

  lemma StartInv(q: Topic, from: int)
    ensures Inv(q, from, Start(from))
  {
  }

  // ── one send ─────────────────────────────────────────────────────────────────

  /** Without any hypothesis: a send from the buffer keeps the feed exact if and only if no
      wanted event lies between the last one sent and this one. */
  lemma SendIsExactIff(log: seq<StoredEvent>, q: Topic, cursor: int, lastSeq: int, wire: seq<StoredEvent>,
                       e: StoredEvent)
    requires Ordered(log) && WireOk(log, q, cursor, lastSeq, wire) && e in log && Wanted(e, q) && lastSeq < e.globalSeq
    ensures WireOk(log, q, cursor, e.globalSeq, wire + [e])
            <==> forall x :: x in log && Wanted(x, q) ==> !(lastSeq < x.globalSeq < e.globalSeq)
  {
    BetweenSplit(log, q, cursor, lastSeq, e.globalSeq);
    if forall x :: x in log && Wanted(x, q) ==> !(lastSeq < x.globalSeq < e.globalSeq) {
      BetweenOne(log, q, lastSeq, e);
      WireGrows(log, q, cursor, lastSeq, wire, e);
    } else {
      var x :| x in log && Wanted(x, q) && lastSeq < x.globalSeq < e.globalSeq;
      BetweenMembers(log, q, lastSeq, e.globalSeq, x);
      var r := Between(log, q, lastSeq, e.globalSeq);
      assert (wire + r)[|wire|..] == r && (wire + [e])[|wire|..] == [e];
    }
  }

  // ── exactly when a run stays exact ───────────────────────────────────────────

  /** What every run keeps, whatever the order of publishes and whatever is sent: the log is
      ordered, handlers and buffer hold events of the log, and catch-up goes through its range. */
  ghost predicate Base(q: Topic, s: State) {
    && Ordered(s.log)
    && (forall h, e :: h in s.handlers && e in s.handlers[h] ==> e in s.log)
    && (forall e :: e in s.queue ==> e in s.log && e.tenant == q.tenant)
    && (s.phase.CatchUp? ==> s.covered <= Horizon(s.log) && s.phase.rest == Between(s.log, q, s.lastSeq, s.covered))
  }

  /** The client holds exactly the wanted events up to its cursor, the wire exactly those
      from there to the last one sent. */
  ghost predicate Exact(q: Topic, from: int, s: State) {
    ClientOk(s.log, q, from, s.cursor, s.received) && WireOk(s.log, q, s.cursor, s.lastSeq, s.wire)
  }

  /** This step sends an event from the buffer over the head of an older wanted one. */
  ghost predicate Skips(q: Topic, s: State, step: Step) {
    step.Tail? && s.phase.Live? && s.queue != [] && Sends(q, s.lastSeq, s.queue[0])
    && exists x :: x in s.log && Wanted(x, q) && s.lastSeq < x.globalSeq < s.queue[0].globalSeq
  }

  ghost predicate NeverSkips(q: Topic, s: State, steps: seq<Step>)
    decreases |steps|
  {
    steps == [] || (!Skips(q, s, steps[0]) && NeverSkips(q, Next(q, s, steps[0]), steps[1..]))
  }

  ghost predicate AlwaysExact(q: Topic, from: int, s: State, steps: seq<Step>)
    decreases |steps|
  {
    Exact(q, from, s) && (steps == [] || AlwaysExact(q, from, Next(q, s, steps[0]), steps[1..]))
  }

  lemma CommitBase(q: Topic, s: State, h: nat, rows: seq<StoredEvent>)
    requires Base(q, s) && h !in s.handlers && Ordered(s.log + rows) && Fresh(s.log, rows)
    ensures Base(q, s.(log := s.log + rows, handlers := s.handlers[h := rows]))
  {
    assert forall e :: e in s.log ==> e in s.log + rows;
    if s.phase.CatchUp? {
      RowsAreNewer(s.log, rows);
      RangeKeeps(s.log, rows, q, s.lastSeq, s.covered);
    }
  }

  lemma CommitExact(q: Topic, from: int, s: State, h: nat, rows: seq<StoredEvent>)
    requires Exact(q, from, s) && Ordered(s.log + rows) && Fresh(s.log, rows)
    ensures Exact(q, from, s.(log := s.log + rows, handlers := s.handlers[h := rows]))
  {
    RowsAreNewer(s.log, rows);
    RangeKeeps(s.log, rows, q, from, s.cursor);
    RangeKeeps(s.log, rows, q, s.cursor, s.lastSeq);
  }

  lemma PublishBase(q: Topic, s: State, h: nat)
    requires Base(q, s) && h in s.handlers && s.handlers[h] != []
    ensures Base(q, AfterPublish(q, s, h))
  {
    assert s.handlers[h][0] in s.handlers[h];
  }

  lemma StepKeepsBase(q: Topic, s: State, step: Step)
    requires Base(q, s)
    ensures Base(q, Next(q, s, step))
  {
    match step
    case Commit(h, rows) =>
      if h !in s.handlers && Ordered(s.log + rows) && Fresh(s.log, rows) {
        CommitBase(q, s, h, rows);
      }
    case Publish(h) =>
      if h in s.handlers && s.handlers[h] != [] {
        PublishBase(q, s, h);
      }
    case SendCatchUp =>
      if s.phase.CatchUp? && s.phase.rest != [] {
        FirstOfRange(s.log, q, s.lastSeq, s.covered);
      }
    case _ =>
  }

  lemma CatchUpExact(q: Topic, from: int, s: State)
    requires Base(q, s) && Exact(q, from, s) && s.phase.CatchUp?
    ensures Exact(q, from, Next(q, s, SendCatchUp))
  {
    var rest := s.phase.rest;
    if rest != [] {
      FirstOfRange(s.log, q, s.lastSeq, s.covered);
      BetweenMembers(s.log, q, s.lastSeq, s.covered, rest[0]);
      WireGrows(s.log, q, s.cursor, s.lastSeq, s.wire, rest[0]);
    }
  }

  lemma ReceiveExact(q: Topic, from: int, s: State)
    requires Base(q, s) && Exact(q, from, s) && s.wire != []
    ensures Exact(q, from, Next(q, s, Receive))
  {
    FirstOfRange(s.log, q, s.cursor, s.lastSeq);
    BetweenSplit(s.log, q, from, s.cursor, s.wire[0].globalSeq);
  }

  lemma TailExactIff(q: Topic, from: int, s: State)
    requires Base(q, s) && Exact(q, from, s) && s.phase.Live? && s.queue != []
    ensures Exact(q, from, AfterTail(q, s)) <==> !Skips(q, s, Tail)
  {
    var e := s.queue[0];
    assert e in s.queue;
    if Sends(q, s.lastSeq, e) {
      SendIsExactIff(s.log, q, s.cursor, s.lastSeq, s.wire, e);
    }
  }

  /** From an exact state, every step but a skipping send leads to an exact state. */
  lemma StepIsExactIff(q: Topic, from: int, s: State, step: Step)
    requires Base(q, s) && Exact(q, from, s)
    ensures Exact(q, from, Next(q, s, step)) <==> !Skips(q, s, step)
  {
    match step
    case Commit(h, rows) =>
      if h !in s.handlers && Ordered(s.log + rows) && Fresh(s.log, rows) {
        CommitExact(q, from, s, h, rows);
      }
    case Connect => CutKeeps(s.log, q, s.cursor);
    case SendCatchUp =>
      if s.phase.CatchUp? {
        CatchUpExact(q, from, s);
      }
    case Tail =>
      if s.phase.Live? && s.queue != [] {
        TailExactIff(q, from, s);
      }
    case Receive =>
      if s.wire != [] {
        ReceiveExact(q, from, s);
      }
    case Drop => CutKeeps(s.log, q, s.cursor);
    case Restart => CutKeeps(s.log, q, s.cursor);
    case _ =>
  }

  lemma {:induction false} ExactRun(q: Topic, from: int, s: State, steps: seq<Step>)
    requires Base(q, s) && Exact(q, from, s)
    ensures AlwaysExact(q, from, s, steps) <==> NeverSkips(q, s, steps)
    decreases |steps|
  {
    if steps != [] {
      StepKeepsBase(q, s, steps[0]);
      StepIsExactIff(q, from, s, steps[0]);
      if !Skips(q, s, steps[0]) {
        ExactRun(q, from, Next(q, s, steps[0]), steps[1..]);
      }
    }
  }

  lemma StartExact(q: Topic, from: int)
    ensures Base(q, Start(from)) && Exact(q, from, Start(from))
  {
  }

  lemma {:induction false} ExactToTheEnd(q: Topic, from: int, s: State, steps: seq<Step>)
    requires AlwaysExact(q, from, s, steps)
    ensures Exact(q, from, Run(q, s, steps))
    decreases |steps|
  {
    if steps != [] {
      ExactToTheEnd(q, from, Next(q, s, steps[0]), steps[1..]);
    }
  }

  /** Without hypotheses, for every run: client and wire are exact at each of its states if and
      only if none of its sends from the buffer passes over a wanted event. */
  lemma ExactIffNothingSkipped(q: Topic, from: int, steps: seq<Step>)
    ensures AlwaysExact(q, from, Start(from), steps) <==> NeverSkips(q, Start(from), steps)
    ensures var s := Run(q, Start(from), steps);
            NeverSkips(q, Start(from), steps) ==> s.received == Between(s.log, q, from, s.cursor)
  {
    StartExact(q, from);
    ExactRun(q, from, Start(from), steps);
    if NeverSkips(q, Start(from), steps) {
      ExactToTheEnd(q, from, Start(from), steps);
    }
  }

  /** The two hypotheses rule out a skipping send. */
  lemma {:induction false} HypothesesNeverSkip(q: Topic, from: int, s: State, steps: seq<Step>)
    requires Base(q, s) && Inv(q, from, s) && PublishesInOrder(q, s, steps) && NothingAfterOver(q, s, steps)
    ensures NeverSkips(q, s, steps)
    decreases |steps|
  {
    if steps != [] {
      StepKeepsBase(q, s, steps[0]);
      StepKeepsInv(q, from, s, steps[0]);
      StepIsExactIff(q, from, s, steps[0]);
      HypothesesNeverSkip(q, from, Next(q, s, steps[0]), steps[1..]);
    }
  }

  /** In every run whose publishes follow globalSeq order and whose session is quiet after an
      overflow, whatever was dropped, broken off or restarted: the client has received exactly
      the wanted events past its starting point up to its cursor, in order, none twice. */
  lemma GapFree(q: Topic, from: int, steps: seq<Step>)
    requires PublishesInOrder(q, Start(from), steps) && NothingAfterOver(q, Start(from), steps)
    ensures var s := Run(q, Start(from), steps);
            && s.received == Between(s.log, q, from, s.cursor) && Ordered(s.received)
            && forall e :: e in s.received <==> e in s.log && Wanted(e, q) && from < e.globalSeq <= s.cursor
  {
    StartInv(q, from);
    StartExact(q, from);
    HypothesesNeverSkip(q, from, Start(from), steps);
    ExactIffNothingSkipped(q, from, steps);
    RunKeepsInv(q, from, Start(from), steps);
    var s := Run(q, Start(from), steps);
    BetweenOrdered(s.log, q, from, s.cursor);
    forall e ensures e in s.received <==> e in s.log && Wanted(e, q) && from < e.globalSeq <= s.cursor {
      BetweenMembers(s.log, q, from, s.cursor, e);
    }
  }

  /** Once nothing is on its way, a live client that lost no event to its buffer has the whole
      log past its starting point. */
  lemma QuietMeansComplete(q: Topic, from: int, s: State)
    requires Inv(q, from, s) && s.phase.Live? && !s.over && s.queue == [] && s.wire == []
    requires forall e :: Pending(s.handlers, e) ==> e.tenant != q.tenant
    ensures s.received == ReadFrom(s.log, q, from)
  {
    NothingLeft(q, from, s);
  }

  lemma NothingLeft(q: Topic, from: int, s: State)
    requires Inv(q, from, s) && s.wire == []
    requires Between(s.log, q, s.lastSeq, s.covered) == []
    requires forall e :: e in s.log && Wanted(e, q) && e.globalSeq > s.covered ==> e.globalSeq <= s.lastSeq
    ensures s.received == ReadFrom(s.log, q, from)
  {
    var top := Horizon(s.log);
    HorizonBounds(s.log);
    forall x | x in s.log && Wanted(x, q) ensures !(s.cursor < x.globalSeq <= top) {
      BetweenMembers(s.log, q, s.cursor, s.lastSeq, x);
      BetweenMembers(s.log, q, s.lastSeq, s.covered, x);
    }
    if s.cursor <= top {
      BetweenSplit(s.log, q, from, s.cursor, top);
      BetweenEmpty(s.log, q, s.cursor, top);
    } else {
      BetweenEmpty(s.log, q, from, top);
      BetweenEmpty(s.log, q, from, s.cursor);
    }
  }

  // ── a single writer publishes in order ───────────────────────────────────────

  predicate NobodyPending(handlers: map<nat, seq<StoredEvent>>) { forall h :: h in handlers ==> handlers[h] == [] }

  /** The single-writer discipline: a batch is committed only when everything committed
      before it has been published. */
  ghost predicate OneAtATime(q: Topic, s: State, steps: seq<Step>)
    decreases |steps|
  {
    steps == []
    || ((steps[0].Commit? ==> NobodyPending(s.handlers)) && OneAtATime(q, Next(q, s, steps[0]), steps[1..]))
  }

  ghost predicate Solo(s: State) {
    && (forall h :: h in s.handlers ==> Ordered(s.handlers[h]))
    && forall h, g :: h in s.handlers && g in s.handlers && s.handlers[h] != [] && s.handlers[g] != [] ==> h == g
  }

  lemma SoloCommit(q: Topic, s: State, h: nat, rows: seq<StoredEvent>)
    requires Solo(s) && NobodyPending(s.handlers)
    ensures Solo(Next(q, s, Commit(h, rows)))
  {
    if Ordered(s.log + rows) && Fresh(s.log, rows) {
      RowsAreNewer(s.log, rows);
    }
  }

  lemma SoloStep(q: Topic, s: State, step: Step)
    requires Solo(s) && (step.Commit? ==> NobodyPending(s.handlers))
    ensures Solo(Next(q, s, step)) && InOrder(s, step)
  {
    match step
    case Commit(h, rows) => SoloCommit(q, s, h, rows);
    case Publish(h) =>
      if h in s.handlers && s.handlers[h] != [] {
        SoloPublish(q, s, h);
      }
    case _ =>
  }

  lemma SoloPublish(q: Topic, s: State, h: nat)
    requires Solo(s) && h in s.handlers && s.handlers[h] != []
    ensures Solo(AfterPublish(q, s, h)) && InOrder(s, Publish(h))
  {
    assert forall g, f :: g in s.handlers && f in s.handlers[g] ==> g == h;
  }

  lemma {:induction false} SingleWriterPublishesInOrder(q: Topic, s: State, steps: seq<Step>)
    requires Solo(s) && OneAtATime(q, s, steps)
    ensures PublishesInOrder(q, s, steps)
    decreases |steps|
  {
    if steps != [] {
      SoloStep(q, s, steps[0]);
      SingleWriterPublishesInOrder(q, Next(q, s, steps[0]), steps[1..]);
    }
  }

  // ── reconnecting always catches up ───────────────────────────────────────────

  function Repeat(step: Step, n: nat): seq<Step> { if n == 0 then [] else [step] + Repeat(step, n - 1) }

  lemma {:induction false} RunAppend(q: Topic, s: State, a: seq<Step>, b: seq<Step>)
    ensures Run(q, s, a + b) == Run(q, Run(q, s, a), b)
    decreases |a|
  {
    if a == [] {
      assert a + b == b;
    } else {
      assert (a + b)[1..] == a[1..] + b;
      RunAppend(q, Next(q, s, a[0]), a[1..], b);
    }
  }

  lemma RunFirst(q: Topic, s: State, step: Step, rest: seq<Step>)
    ensures Run(q, s, [step] + rest) == Run(q, Next(q, s, step), rest)
  {
    assert ([step] + rest)[1..] == rest;
  }

  lemma {:induction false} RepeatKeepsInv(q: Topic, from: int, s: State, step: Step, n: nat)
    requires Inv(q, from, s) && (step.SendCatchUp? || step.Receive?)
    ensures Inv(q, from, Run(q, s, Repeat(step, n)))
    decreases n
  {
    if n > 0 {
      StepKeepsInv(q, from, s, step);
      RunFirst(q, s, step, Repeat(step, n - 1));
      RepeatKeepsInv(q, from, Next(q, s, step), step, n - 1);
    }
  }

  lemma {:induction false} SendMany(q: Topic, s: State, k: nat)
    requires s.phase.CatchUp? && k <= |s.phase.rest|
    ensures var t := Run(q, s, Repeat(SendCatchUp, k));
            t.phase == CatchUp(s.phase.rest[k..]) && t.log == s.log && t.covered == s.covered
    decreases k
  {
    if k == 0 {
      assert s.phase.rest[0..] == s.phase.rest;
    } else {
      RunFirst(q, s, SendCatchUp, Repeat(SendCatchUp, k - 1));
      SendMany(q, Next(q, s, SendCatchUp), k - 1);
      assert s.phase.rest[1..][k - 1..] == s.phase.rest[k..];
    }
  }

  function LastSeq(events: seq<StoredEvent>, cursor: int): int {
    if events == [] then cursor else events[|events| - 1].globalSeq
  }

  lemma {:induction false} ReceiveMany(q: Topic, s: State, k: nat)
    requires k <= |s.wire|
    ensures Run(q, s, Repeat(Receive, k))
            == s.(wire := s.wire[k..], received := s.received + s.wire[..k], cursor := LastSeq(s.wire[..k], s.cursor))
    decreases k
  {
    if k == 0 {
      assert s.wire[0..] == s.wire && s.received + s.wire[..0] == s.received;
    } else {
      var next := Next(q, s, Receive);
      RunFirst(q, s, Receive, Repeat(Receive, k - 1));
      ReceiveMany(q, next, k - 1);
      assert s.wire[1..][k - 1..] == s.wire[k..];
      assert s.wire[1..][..k - 1] == s.wire[..k][1..];
      assert s.received + [s.wire[0]] + s.wire[1..][..k - 1] == s.received + s.wire[..k];
    }
  }

  function Plan(sends: nat, receives: nat): seq<Step> { Repeat(SendCatchUp, sends) + Repeat(Receive, receives) }

  lemma CaughtUpComplete(q: Topic, from: int, s: State)
    requires Inv(q, from, s) && s.phase == CatchUp([]) && s.covered == Horizon(s.log) && s.wire == []
    ensures s.received == ReadFrom(s.log, q, from)
  {
    HorizonBounds(s.log);
    NothingLeft(q, from, s);
  }

  lemma CatchUpDelivers(q: Topic, from: int, s: State) returns (receives: nat)
    requires Inv(q, from, s) && s.phase.CatchUp? && s.covered == Horizon(s.log)
    ensures Run(q, s, Plan(|s.phase.rest|, receives)).received == ReadFrom(s.log, q, from)
  {
    var n := |s.phase.rest|;
    SendMany(q, s, n);
    RepeatKeepsInv(q, from, s, SendCatchUp, n);
    var t := Run(q, s, Repeat(SendCatchUp, n));
    receives := |t.wire|;
    ReceiveMany(q, t, receives);
    RepeatKeepsInv(q, from, t, Receive, receives);
    RunAppend(q, s, Repeat(SendCatchUp, n), Repeat(Receive, receives));
    CaughtUpComplete(q, from, Run(q, t, Repeat(Receive, receives)));
  }

  lemma Reopened(q: Topic, from: int, s: State)
    requires Inv(q, from, s)
    ensures var t := Next(q, Next(q, Next(q, s, Drop), Connect), Snapshot);
            Inv(q, from, t) && t.phase.CatchUp? && t.log == s.log && t.covered == Horizon(s.log)
  {
    StepKeepsInv(q, from, s, Drop);
    StepKeepsInv(q, from, Next(q, s, Drop), Connect);
    SnapshotKeeps(q, from, Next(q, Next(q, s, Drop), Connect));
  }

  /** Whatever state the feed is in, a fresh connection re-reads all that is missing. */
  lemma ReconnectHeals(q: Topic, from: int, s: State)
    requires Inv(q, from, s)
    ensures exists steps :: Run(q, s, [Drop, Connect, Snapshot] + steps).received == ReadFrom(s.log, q, from)
  {
    var opening := [Drop, Connect, Snapshot];
    var t := Next(q, Next(q, Next(q, s, Drop), Connect), Snapshot);
    Reopened(q, from, s);
    RunThree(q, s, Drop, Connect, Snapshot);
    var receives := CatchUpDelivers(q, from, t);
    RunAppend(q, s, opening, Plan(|t.phase.rest|, receives));
  }

  lemma RunThree(q: Topic, s: State, a: Step, b: Step, c: Step)
    ensures Run(q, s, [a, b, c]) == Next(q, Next(q, Next(q, s, a), b), c)
  {
    assert [a, b, c] == [a] + ([b] + [c]) && [c] == [c] + [];
    RunFirst(q, s, a, [b] + [c]);
    RunFirst(q, Next(q, s, a), b, [c]);
    RunFirst(q, Next(q, Next(q, s, a), b), c, []);
  }
}
