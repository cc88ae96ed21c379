/** Both hypotheses of the gap-free feed are needed: a short run without each of them in
    which the client loses an event for good. */
module FeedHypotheses {
  import opened EventLog
  import opened Store
  import opened Bus
  import opened Feed
  import opened JsonValues

  function Event(seqNo: nat, category: string): StoredEvent {
    StoredEvent("t", [(seqNo % 1000) as char], "s", category, seqNo, seqNo, "E", map[])
  }

  /** A client connects to an empty log and goes live. */
  const OPENING: seq<Step> := [Connect, Snapshot, SendCatchUp]

  function Opened(): State { Start(0).(phase := Live) }

  lemma OpeningGoesLive(q: Topic)
    ensures Run(q, Start(0), OPENING) == Opened()
    ensures PublishesInOrder(q, Start(0), OPENING) && NothingAfterOver(q, Start(0), OPENING)
            && OneAtATime(q, Start(0), OPENING)
  {
    RunThree(q, Start(0), Connect, Snapshot, SendCatchUp);
    assert OPENING[1..] == [Snapshot, SendCatchUp] && OPENING[1..][1..] == [SendCatchUp]
        && OPENING[1..][1..][1..] == [];
  }

  lemma {:induction false} QuietAppend(q: Topic, s: State, a: seq<Step>, b: seq<Step>)
    ensures NothingAfterOver(q, s, a + b) <==> NothingAfterOver(q, s, a) && NothingAfterOver(q, Run(q, s, a), b)
    ensures OneAtATime(q, s, a + b) <==> OneAtATime(q, s, a) && OneAtATime(q, Run(q, s, a), b)
    decreases |a|
  {
    if a == [] {
      assert a + b == b;
    } else {
      assert (a + b)[1..] == a[1..] + b;
      QuietAppend(q, Next(q, s, a[0]), a[1..], b);
    }
  }

  // ── publishes out of order ───────────────────────────────────────────────────

  /** Two handlers commit 1 and 2, and the second publishes first. */
  const OVERTAKEN: seq<Step> :=
    [Commit(1, [Event(1, "a")]), Commit(2, [Event(2, "a")]), Publish(2), Tail, Publish(1), Tail, Receive]

  function Overtaking(e1: StoredEvent, e2: StoredEvent): State {
    Opened().(log := [e1, e2], handlers := map[1 := [e1], 2 := []], queue := [e2])
  }

  lemma OvertakenStart(q: Topic, e1: StoredEvent, e2: StoredEvent)
    requires q == Topic("t", "") && e1 == Event(1, "a") && e2 == Event(2, "a")
    ensures Next(q, Next(q, Next(q, Opened(), Commit(1, [e1])), Commit(2, [e2])), Publish(2)) == Overtaking(e1, e2)
  {
    FirstCommit(q, Opened(), 1, [e1]);
    SecondCommit(q, e1, e2);
    SecondFirst(q, e1, e2);
  }

  lemma FirstCommit(q: Topic, s: State, h: nat, rows: seq<StoredEvent>)
    requires s.log == [] && s.handlers == map[] && Ordered(rows) && (rows != [] ==> rows[0].globalSeq > 0)
    ensures Next(q, s, Commit(h, rows)) == s.(log := rows, handlers := map[h := rows])
  {
    assert [] + rows == rows;
  }

  function BothCommitted(e1: StoredEvent, e2: StoredEvent): State {
    Opened().(log := [e1, e2], handlers := map[1 := [e1], 2 := [e2]])
  }

  lemma SecondCommit(q: Topic, e1: StoredEvent, e2: StoredEvent)
    requires e1.globalSeq < e2.globalSeq
    ensures Next(q, Opened().(log := [e1], handlers := map[1 := [e1]]), Commit(2, [e2])) == BothCommitted(e1, e2)
  {
    assert [e1] + [e2] == [e1, e2];
    assert map[1 := [e1]][2 := [e2]] == map[1 := [e1], 2 := [e2]];
  }

  lemma SecondFirst(q: Topic, e1: StoredEvent, e2: StoredEvent)
    requires e2.tenant == q.tenant
    ensures Next(q, BothCommitted(e1, e2), Publish(2)) == Overtaking(e1, e2)
  {
    assert [e2][1..] == [] && [] + [e2] == [e2];
    assert map[1 := [e1], 2 := [e2]][2 := []] == map[1 := [e1], 2 := []];
  }

  lemma OvertakenEnd(q: Topic, e1: StoredEvent, e2: StoredEvent)
    requires q == Topic("t", "") && e1 == Event(1, "a") && e2 == Event(2, "a")
    ensures var s6 := Next(q, Next(q, Next(q, Overtaking(e1, e2), Tail), Publish(1)), Tail);
            !s6.over && s6.wire == [e2] && s6.queue == [] && s6.received == [] && s6.log == [e1, e2]
  {
    var s4 := Next(q, Overtaking(e1, e2), Tail);
    assert [e2][1..] == [] && [] + [e2] == [e2];
    assert s4 == Overtaking(e1, e2).(queue := [], wire := [e2], lastSeq := 2, covered := 2);
    var s5 := Next(q, s4, Publish(1));
    assert s5.queue == [] + [e1] == [e1] && s5.lastSeq == 2 && s5.wire == [e2] && s5.phase.Live?;
    assert [e1][1..] == [];
  }

  lemma OvertakenRun(q: Topic)
    requires q == Topic("t", "")
    ensures var t := Run(q, Opened(), OVERTAKEN);
            t.received == [Event(2, "a")] && t.cursor == 2 && t.log == [Event(1, "a"), Event(2, "a")] && t.queue == []
    ensures NothingAfterOver(q, Opened(), OVERTAKEN)
  {
    OvertakenBy(q, Event(1, "a"), Event(2, "a"));
  }

  lemma OvertakenBy(q: Topic, e1: StoredEvent, e2: StoredEvent)
    requires q == Topic("t", "") && e1 == Event(1, "a") && e2 == Event(2, "a")
    ensures var steps := [Commit(1, [e1]), Commit(2, [e2]), Publish(2), Tail, Publish(1), Tail, Receive];
            var t := Run(q, Opened(), steps);
            && t.received == [e2] && t.cursor == 2 && t.log == [e1, e2] && t.queue == []
            && NothingAfterOver(q, Opened(), steps)
  {
    OvertakenStart(q, e1, e2);
    OvertakenEnd(q, e1, e2);
    RunSeven(q, Opened(), Commit(1, [e1]), Commit(2, [e2]), Publish(2), Tail, Publish(1), Tail, Receive);
    assert [e2][1..] == [] && [] + [e2] == [e2];
    NeverOver(q, Opened(), Commit(1, [e1]), Commit(2, [e2]), Publish(2));
    NeverOver(q, Overtaking(e1, e2), Tail, Publish(1), Tail);
  }

  lemma NeverOver(q: Topic, s: State, a: Step, b: Step, c: Step)
    requires !s.over && !Next(q, s, a).over && !Next(q, Next(q, s, a), b).over
    ensures NothingAfterOver(q, s, [a, b, c])
  {
    assert [a, b, c][1..] == [b, c] && [b, c][1..] == [c] && [c][1..] == [];
    assert NothingAfterOver(q, Next(q, Next(q, s, a), b), [c]);
    assert NothingAfterOver(q, Next(q, s, a), [b, c]);
  }

  lemma RunSeven(q: Topic, s: State, a: Step, b: Step, c: Step, d: Step, e: Step, f: Step, g: Step)
    ensures var s3 := Next(q, Next(q, Next(q, s, a), b), c); var s6 := Next(q, Next(q, Next(q, s3, d), e), f);
            && Run(q, s, [a, b, c, d, e, f, g]) == Next(q, s6, g)
            && (NothingAfterOver(q, s, [a, b, c, d, e, f, g]) <==>
                NothingAfterOver(q, s, [a, b, c]) && NothingAfterOver(q, s3, [d, e, f]) && QuietAfterOver(q, s6, g))
  {
    var s3 := Next(q, Next(q, Next(q, s, a), b), c);
    var s6 := Next(q, Next(q, Next(q, s3, d), e), f);
    assert [a, b, c, d, e, f, g] == [a, b, c] + ([d, e, f] + [g]);
    assert [g][1..] == [];
    RunThree(q, s, a, b, c);
    RunThree(q, s3, d, e, f);
    RunAppend(q, s, [a, b, c], [d, e, f] + [g]);
    RunAppend(q, s3, [d, e, f], [g]);
    QuietAppend(q, s, [a, b, c], [d, e, f] + [g]);
    QuietAppend(q, s3, [d, e, f], [g]);
    assert Run(q, s6, [g]) == Next(q, s6, g);
  }

  lemma OvertakenFeed(q: Topic)
    requires q == Topic("t", "")
    ensures var t := Run(q, Start(0), OPENING + OVERTAKEN);
            t.received == [Event(2, "a")] && t.cursor == 2 && t.log == [Event(1, "a"), Event(2, "a")]
    ensures NothingAfterOver(q, Start(0), OPENING + OVERTAKEN)
  {
    OpeningGoesLive(q);
    OvertakenRun(q);
    RunAppend(q, Start(0), OPENING, OVERTAKEN);
    QuietAppend(q, Start(0), OPENING, OVERTAKEN);
  }

  lemma FirstIsMissing(q: Topic)
    requires q == Topic("t", "")
    ensures Between([Event(1, "a"), Event(2, "a")], q, 0, 2) != [Event(2, "a")]
  {
    BetweenMembers([Event(1, "a"), Event(2, "a")], q, 0, 2, Event(1, "a"));
    assert Event(1, "a").globalSeq != Event(2, "a").globalSeq;
  }

  lemma OrderIsNeeded()
    ensures exists steps ::
              var q := Topic("t", ""); var t := Run(q, Start(0), steps);
              && NothingAfterOver(q, Start(0), steps) && t.received != Between(t.log, q, 0, t.cursor)
              && !NeverSkips(q, Start(0), steps)
  {
    var q := Topic("t", "");
    var steps := OPENING + OVERTAKEN;
    OvertakenFeed(q);
    FirstIsMissing(q);
    ExactIffNothingSkipped(q, 0, steps);
    assert NothingAfterOver(q, Start(0), steps);
  }

  // ── sending after an overflow ────────────────────────────────────────────────

  /** A batch of 258: the first 256 fill the buffer with events of another category, the
      257th finds it full, the 258th finds the room one skip has made. */
  function Batch(): (b: seq<StoredEvent>)
    ensures |b| == BUFFER_SIZE + 2
    ensures forall i :: 0 <= i < |b| ==> b[i] == Event(i + 1, if i < BUFFER_SIZE then "b" else "a")
  {
    seq(BUFFER_SIZE + 2, i requires 0 <= i < BUFFER_SIZE + 2 => Event(i + 1, if i < BUFFER_SIZE then "b" else "a"))
  }

  lemma BatchFacts()
    ensures Ordered(Batch()) && forall e :: e in Batch() ==> e.tenant == "t"
  {
    var b := Batch();
    assert forall i :: 0 <= i < |b| ==> b[i].globalSeq == i + 1 && b[i].tenant == "t";
  }

  lemma {:induction false} PublishMany(q: Topic, s: State, k: nat)
    requires s.phase.Live? && 0 in s.handlers && k <= |s.handlers[0]| && |s.queue| + k <= BUFFER_SIZE
    requires forall e :: e in s.handlers[0] ==> e.tenant == q.tenant
    ensures Run(q, s, Repeat(Publish(0), k))
            == s.(handlers := s.handlers[0 := s.handlers[0][k..]], queue := s.queue + s.handlers[0][..k])
    decreases k
  {
    var mine := s.handlers[0];
    if k == 0 {
      assert s.handlers[0 := mine[0..]] == s.handlers && s.queue + mine[..0] == s.queue;
    } else {
      var next := s.(handlers := s.handlers[0 := mine[1..]], queue := s.queue + [mine[0]]);
      RunFirst(q, s, Publish(0), Repeat(Publish(0), k - 1));
      PublishOne(q, s);
      PublishMany(q, next, k - 1);
      MovedOn(mine, s.queue, k);
      assert s.handlers[0 := mine[1..]][0 := mine[k..]] == s.handlers[0 := mine[k..]];
    }
  }

  lemma PublishOne(q: Topic, s: State)
    requires s.phase.Live? && 0 in s.handlers && s.handlers[0] != [] && |s.queue| < BUFFER_SIZE
    requires s.handlers[0][0].tenant == q.tenant
    ensures Next(q, s, Publish(0))
            == s.(handlers := s.handlers[0 := s.handlers[0][1..]], queue := s.queue + [s.handlers[0][0]])
  {
  }

  lemma MovedOn(mine: seq<StoredEvent>, queue: seq<StoredEvent>, k: nat)
    requires 0 < k <= |mine|
    ensures mine[1..][k - 1..] == mine[k..] && queue + [mine[0]] + mine[1..][..k - 1] == queue + mine[..k]
  {
  }

  predicate SameButCovered(a: State, b: State) { a.(covered := 0) == b.(covered := 0) }

  lemma {:induction false} SkipMany(q: Topic, s: State, k: nat)
    requires s.phase.Live? && k <= |s.queue| && q.category != ""
    requires forall i :: 0 <= i < k ==> s.queue[i].streamType != q.category
    ensures SameButCovered(Run(q, s, Repeat(Tail, k)), s.(queue := s.queue[k..]))
    decreases k
  {
    if k == 0 {
      assert s.queue[0..] == s.queue;
    } else {
      RunFirst(q, s, Tail, Repeat(Tail, k - 1));
      SkipMany(q, Next(q, s, Tail), k - 1);
      assert s.queue[1..][k - 1..] == s.queue[k..];
    }
  }

  lemma {:induction false} RepeatOnly(step: Step, n: nat)
    ensures forall x :: x in Repeat(step, n) ==> x == step
  {
    if n > 0 {
      RepeatOnly(step, n - 1);
    }
  }

  lemma {:induction false} NoCommits(q: Topic, s: State, steps: seq<Step>)
    requires forall x :: x in steps ==> !x.Commit?
    ensures OneAtATime(q, s, steps)
    decreases |steps|
  {
    if steps != [] {
      assert steps[0] in steps;
      NoCommits(q, Next(q, s, steps[0]), steps[1..]);
    }
  }

  function Overflowing(): seq<Step> { Repeat(Publish(0), BUFFER_SIZE) + [Publish(0), Tail, Publish(0)] }

  function Draining(): seq<Step> { Repeat(Tail, BUFFER_SIZE - 1) + ([Tail] + [Receive]) }

  function Full(s: State): State {
    s.(handlers := map[0 := Batch()[BUFFER_SIZE..]], queue := Batch()[..BUFFER_SIZE])
  }

  lemma FillsUp(q: Topic, s: State)
    requires q == Topic("t", "a") && s == Opened().(log := Batch(), handlers := map[0 := Batch()])
    ensures Run(q, s, Repeat(Publish(0), BUFFER_SIZE)) == Full(s)
  {
    var all := Batch();
    BatchFacts();
    PublishMany(q, s, BUFFER_SIZE);
    assert s.handlers[0 := all[BUFFER_SIZE..]] == map[0 := all[BUFFER_SIZE..]]
        && s.queue + all[..BUFFER_SIZE] == all[..BUFFER_SIZE];
  }

  /** The 257th is dropped, a skip makes room, the 258th goes in. */
  lemma DropsOne(q: Topic, s: State)
    requires q == Topic("t", "a") && s.phase.Live? && s.lastSeq == 0
    ensures SameButCovered(Run(q, Full(s), [Publish(0), Tail, Publish(0)]),
              s.(handlers := map[0 := []], over := true, queue := Batch()[1..BUFFER_SIZE] + [Batch()[BUFFER_SIZE + 1]]))
  {
    var all := Batch();
    var n := BUFFER_SIZE;
    var s1 := Full(s);
    var s2 := s1.(handlers := map[0 := all[n + 1..]], over := true);
    assert all[n..][1..] == all[n + 1..] && s1.handlers[0 := all[n + 1..]] == s2.handlers;
    assert Next(q, s1, Publish(0)) == s2;
    var s3 := Next(q, s2, Tail);
    assert all[..n][1..] == all[1..n];
    assert SameButCovered(s3, s2.(queue := all[1..n]));
    var s4 := Next(q, s3, Publish(0));
    assert all[n + 1..][1..] == [] && s3.handlers[0 := []] == map[0 := []] && all[n + 1..][0] == all[n + 1];
    assert SameButCovered(s4, s3.(handlers := map[0 := []], queue := all[1..n] + [all[n + 1]]));
    RunThree(q, s1, Publish(0), Tail, Publish(0));
  }

  /** After the batch is published the buffer has lost its 257th event and holds the 258th. */
  lemma OverflowRun(q: Topic, s: State)
    requires q == Topic("t", "a") && s == Opened().(log := Batch(), handlers := map[0 := Batch()])
    ensures SameButCovered(Run(q, s, Overflowing()),
              s.(handlers := map[0 := []], over := true, queue := Batch()[1..BUFFER_SIZE] + [Batch()[BUFFER_SIZE + 1]]))
  {
    FillsUp(q, s);
    DropsOne(q, s);
    RunAppend(q, s, Repeat(Publish(0), BUFFER_SIZE), [Publish(0), Tail, Publish(0)]);
  }

  /** The last event of a drained buffer is sent and received. */
  lemma LastOut(q: Topic, s: State, e: StoredEvent)
    requires s.phase.Live? && s.queue == [e] && Sends(q, s.lastSeq, e) && s.wire == [] && s.received == []
    ensures var t := Run(q, s, [Tail] + [Receive]); t.received == [e] && t.cursor == e.globalSeq && t.log == s.log
  {
    var t := Next(q, s, Tail);
    assert t.wire == [] + [e];
    RunFirst(q, s, Tail, [Receive]);
    assert [Receive] == [Receive] + [];
    RunFirst(q, t, Receive, []);
  }

  lemma DrainRun(q: Topic, s: State, e: StoredEvent)
    requires q == Topic("t", "a") && s.phase.Live? && s.lastSeq < e.globalSeq && e.streamType == "a" && s.wire == []
             && s.received == []
    requires |s.queue| == BUFFER_SIZE && s.queue[BUFFER_SIZE - 1] == e
    requires forall i :: 0 <= i < BUFFER_SIZE - 1 ==> s.queue[i].streamType == "b"
    ensures var t := Run(q, s, Draining()); t.received == [e] && t.cursor == e.globalSeq && t.log == s.log
  {
    var n := BUFFER_SIZE - 1;
    SkipMany(q, s, n);
    assert s.queue[n..] == [e];
    LastOut(q, Run(q, s, Repeat(Tail, n)), e);
    RunAppend(q, s, Repeat(Tail, n), [Tail] + [Receive]);
  }

  lemma BatchCommits(q: Topic)
    ensures Next(q, Opened(), Commit(0, Batch())) == Opened().(log := Batch(), handlers := map[0 := Batch()])
  {
    BatchFacts();
    FirstCommit(q, Opened(), 0, Batch());
  }

  lemma NoneInBoth(a: seq<Step>, b: seq<Step>)
    requires (forall x :: x in a ==> !x.Commit?) && (forall x :: x in b ==> !x.Commit?)
    ensures forall x :: x in a + b ==> !x.Commit?
  {
  }

  lemma NoMoreCommits()
    ensures forall x :: x in Overflowing() + Draining() ==> !x.Commit?
  {
    RepeatOnly(Publish(0), BUFFER_SIZE);
    RepeatOnly(Tail, BUFFER_SIZE - 1);
    NoneInBoth(Repeat(Publish(0), BUFFER_SIZE), [Publish(0), Tail, Publish(0)]);
    NoneInBoth(Repeat(Tail, BUFFER_SIZE - 1), [Tail] + [Receive]);
    NoneInBoth(Overflowing(), Draining());
  }

  lemma CommitThenQuiet(q: Topic, rest: seq<Step>)
    requires forall x :: x in rest ==> !x.Commit?
    ensures OneAtATime(q, Opened(), [Commit(0, Batch())] + rest)
  {
    NoCommits(q, Next(q, Opened(), Commit(0, Batch())), rest);
    assert ([Commit(0, Batch())] + rest)[1..] == rest;
  }

  lemma OneHandlerOnly(q: Topic)
    ensures PublishesInOrder(q, Start(0), Overflow())
  {
    var rest := Overflowing() + Draining();
    NoMoreCommits();
    CommitThenQuiet(q, rest);
    OpeningGoesLive(q);
    QuietAppend(q, Start(0), OPENING, [Commit(0, Batch())] + rest);
    SingleWriterPublishesInOrder(q, Start(0), Overflow());
  }

  function Overflow(): seq<Step> { OPENING + ([Commit(0, Batch())] + (Overflowing() + Draining())) }

  lemma Overflowed(q: Topic, s: State)
    requires q == Topic("t", "a") && s == Opened().(log := Batch(), handlers := map[0 := Batch()])
    ensures var t := Run(q, s, Overflowing());
            && t.phase.Live? && t.lastSeq == 0 && t.wire == [] && t.received == [] && t.log == s.log
            && t.queue == Batch()[1..BUFFER_SIZE] + [Batch()[BUFFER_SIZE + 1]]
  {
    OverflowRun(q, s);
  }

  lemma DrainedAfter(q: Topic, s: State, before: seq<Step>, e: StoredEvent)
    requires var t := Run(q, s, before);
             && q == Topic("t", "a") && t.phase.Live? && t.lastSeq < e.globalSeq && e.streamType == "a" && t.wire == []
             && t.received == []
             && |t.queue| == BUFFER_SIZE && t.queue[BUFFER_SIZE - 1] == e
             && forall i :: 0 <= i < BUFFER_SIZE - 1 ==> t.queue[i].streamType == "b"
    ensures var t := Run(q, s, before + Draining());
            t.received == [e] && t.cursor == e.globalSeq && t.log == Run(q, s, before).log
  {
    DrainRun(q, Run(q, s, before), e);
    RunAppend(q, s, before, Draining());
  }

  lemma BatchOverflows(q: Topic, s: State)
    requires q == Topic("t", "a") && s == Opened().(log := Batch(), handlers := map[0 := Batch()])
    ensures var t := Run(q, s, Overflowing() + Draining()); var last := Batch()[BUFFER_SIZE + 1];
            t.received == [last] && t.cursor == last.globalSeq && t.log == s.log
  {
    Overflowed(q, s);
    DrainedAfter(q, s, Overflowing(), Batch()[BUFFER_SIZE + 1]);
  }

  lemma OverflowReceives(q: Topic)
    requires q == Topic("t", "a")
    ensures var t := Run(q, Start(0), Overflow()); var last := Batch()[BUFFER_SIZE + 1];
            t.received == [last] && t.cursor == last.globalSeq && t.log == Batch()
  {
    var rest := Overflowing() + Draining();
    OpeningGoesLive(q);
    BatchCommits(q);
    RunFirst(q, Opened(), Commit(0, Batch()), rest);
    RunAppend(q, Start(0), OPENING, [Commit(0, Batch())] + rest);
    BatchOverflows(q, Next(q, Opened(), Commit(0, Batch())));
  }

  lemma QuietIsNeeded()
    ensures exists steps ::
              var q := Topic("t", "a"); var t := Run(q, Start(0), steps);
              && PublishesInOrder(q, Start(0), steps) && t.received != Between(t.log, q, 0, t.cursor)
              && !NeverSkips(q, Start(0), steps)
  {
    var q := Topic("t", "a");
    OneHandlerOnly(q);
    OverflowReceives(q);
    MissingOne(q);
    ExactIffNothingSkipped(q, 0, Overflow());
    assert PublishesInOrder(q, Start(0), Overflow());
  }

  /** The 257th event is wanted, and it is not the 258th. */
  lemma MissingOne(q: Topic)
    requires q == Topic("t", "a")
    ensures Between(Batch(), q, 0, BUFFER_SIZE + 2) != [Batch()[BUFFER_SIZE + 1]]
  {
    BatchFacts();
    BetweenMembers(Batch(), q, 0, BUFFER_SIZE + 2, Batch()[BUFFER_SIZE]);
    assert Batch()[BUFFER_SIZE].globalSeq != Batch()[BUFFER_SIZE + 1].globalSeq;
  }
}
