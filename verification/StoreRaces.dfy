/** Appends racing each other: the version read, every insert and the commit of `Append` are
    separate steps of a transaction, interleaved with those of any other
    (go/internal/store/store.go, `Append`; the unique constraints of `EventsSchema` in
    go/internal/dialect/dialect.go).

    Rows get their sequence numbers at the commit, so commit order is globalSeq order. */
module StoreRaces {
  import opened Basics
  import opened EventLog
  import opened Store

  datatype Tx =
    | Started(req: Request)
    | Writing(req: Request, kind: string, done: nat)
    | Ended

  /** A committed transaction and the sequence number of its first row. */
  datatype Win = Win(tx: nat, req: Request, firstSeq: int)

  datatype State = State(log: seq<StoredEvent>, nextSeq: int, txs: map<nat, Tx>, wins: seq<Win>)

  datatype Step =
    | Begin(tx: nat, req: Request)
    | ReadVersion(tx: nat)
    | Insert(tx: nat)
    | Commit(tx: nat)
    | Rollback(tx: nat)
    /** A refused row may have used up a sequence number. */
    | SkipNumbers(count: nat)

  /** What the primary-key and (tenant, stream, version) constraints refuse. */
  predicate Clash(a: StoredEvent, b: StoredEvent) {
    a.id == b.id || (InStream(a, b.tenant, b.streamId) && a.version == b.version)
  }

  predicate Blocked(table: seq<StoredEvent>, row: StoredEvent) { exists f :: f in table && Clash(f, row) }

  predicate AnyBlocked(table: seq<StoredEvent>, rows: seq<StoredEvent>) {
    exists k :: 0 <= k < |rows| && Blocked(table, rows[k])
  }

  /** The aggregate query and the checks on its answer. */
  function Checked(log: seq<StoredEvent>, req: Request): Tx {
    var s := StreamOf(log, req.tenant, req.stream);
    if MaxVersion(s) != req.expected then Ended
    else if MaxVersion(s) > 0 && req.streamType != "" && MaxType(s) != req.streamType then Ended
    else Writing(req, if MaxVersion(s) > 0 then MaxType(s) else req.streamType, 0)
  }

  function AfterInsert(log: seq<StoredEvent>, firstSeq: int, w: Tx): Tx
    requires w.Writing? && w.done < |w.req.events|
  {
    var rows := Rows(w.req, w.kind, firstSeq);
    if Blocked(log + rows[..w.done], rows[w.done]) then Ended else w.(done := w.done + 1)
  }

  function AfterCommit(s: State, t: nat): State
    requires t in s.txs && s.txs[t].Writing?
  {
    var rows := Rows(s.txs[t].req, s.txs[t].kind, s.nextSeq);
    if AnyBlocked(s.log, rows) then s.(txs := s.txs[t := Ended])
    else State(s.log + rows, s.nextSeq + |rows|, s.txs[t := Ended], s.wins + [Win(t, s.txs[t].req, s.nextSeq)])
  }

  function Next(s: State, step: Step): State {
    match step
    case Begin(t, req) =>
      if t in s.txs || req.events == [] then s else s.(txs := s.txs[t := Started(req)])
    case ReadVersion(t) =>
      if t in s.txs && s.txs[t].Started? then s.(txs := s.txs[t := Checked(s.log, s.txs[t].req)]) else s
    case Insert(t) =>
      if t in s.txs && s.txs[t].Writing? && s.txs[t].done < |s.txs[t].req.events|
      then s.(txs := s.txs[t := AfterInsert(s.log, s.nextSeq, s.txs[t])]) else s
    case Commit(t) =>
      if t in s.txs && s.txs[t].Writing? && s.txs[t].done == |s.txs[t].req.events| then AfterCommit(s, t) else s
    case Rollback(t) =>
      if t in s.txs then s.(txs := s.txs[t := Ended]) else s
    case SkipNumbers(count) => s.(nextSeq := s.nextSeq + count)
  }

  predicate Init(s: State) { s == State([], 1, map[], []) }

  ghost predicate IsRun(states: seq<State>, steps: seq<Step>) {
    && |states| == |steps| + 1
    && Init(states[0])
    && forall i :: 0 <= i < |steps| ==> states[i + 1] == Next(states[i], steps[i])
  }

  // ── the reference: one append after the other ────────────────────────────────

  /** The log after the winning requests ran alone, in commit order. */
  function Serial(wins: seq<Win>): seq<StoredEvent> {
    if wins == [] then []
    else
      var w := wins[|wins| - 1];
      var before := Serial(wins[..|wins| - 1]);
      before + NewRows(Answer(before, w.firstSeq, w.req))
  }

  /** Every winner, run alone at its turn, is answered with its whole batch. */
  ghost predicate AllWin(wins: seq<Win>) {
    forall i :: 0 <= i < |wins| ==>
      wins[i].req.events != [] && Answer(Serial(wins[..i]), wins[i].firstSeq, wins[i].req).Appended?
  }

  predicate SameStream(a: Request, b: Request) { a.tenant == b.tenant && a.stream == b.stream }

  /** On one stream a later winner starts at or past where an earlier one ended, so no
      expected version wins twice. */
  ghost predicate WinsOnce(wins: seq<Win>) {
    forall i, j :: 0 <= i < j < |wins| && SameStream(wins[i].req, wins[j].req)
      ==> wins[i].req.expected < wins[i].req.expected + |wins[i].req.events| <= wins[j].req.expected
  }

  // ── the invariant ────────────────────────────────────────────────────────────

  /** What a transaction knows after its version read: the stream has not shrunk since, and
      while it has not grown either the type it settled on is still the right one. */
  ghost predicate WriterOk(log: seq<StoredEvent>, w: Tx)
    requires w.Writing?
  {
    var s := StreamOf(log, w.req.tenant, w.req.stream);
    && w.req.events != [] && w.done <= |w.req.events|
    && 0 <= w.req.expected <= |s|
    && (|s| == w.req.expected ==> w.kind == if s == [] then w.req.streamType else MaxType(s))
    && (s != [] && |s| == w.req.expected && w.req.streamType != "" ==> w.kind == w.req.streamType)
    && forall i, j :: 0 <= i < j < w.done ==> Row(w.req, w.kind, 0, i).id != Row(w.req, w.kind, 0, j).id
  }

  ghost predicate TxOk(log: seq<StoredEvent>, tx: Tx) {
    (tx.Started? ==> tx.req.events != []) && (tx.Writing? ==> WriterOk(log, tx))
  }

  ghost predicate WinsFit(log: seq<StoredEvent>, wins: seq<Win>) {
    forall w :: w in wins ==> w.req.expected + |w.req.events| <= |StreamOf(log, w.req.tenant, w.req.stream)|
  }

  ghost predicate LogInv(log: seq<StoredEvent>, nextSeq: int, wins: seq<Win>) {
    && LogOk(log) && nextSeq > Horizon(log)
    && log == Serial(wins) && AllWin(wins) && WinsOnce(wins) && WinsFit(log, wins)
  }

  ghost predicate TxsOk(log: seq<StoredEvent>, txs: map<nat, Tx>) { forall t :: t in txs ==> TxOk(log, txs[t]) }

  ghost predicate Inv(s: State) { LogInv(s.log, s.nextSeq, s.wins) && TxsOk(s.log, s.txs) }

  // ── the step that matters ────────────────────────────────────────────────────

  /** The commit of a fully written transaction goes through exactly when the same append
      running alone at this moment would, and then does the same thing. */
  lemma CommitIsAtomicAppend(log: seq<StoredEvent>, firstSeq: int, w: Tx)
    requires LogOk(log) && w.Writing? && WriterOk(log, w) && w.done == |w.req.events|
    ensures var rows := Rows(w.req, w.kind, firstSeq); var r := Answer(log, firstSeq, w.req);
            (!AnyBlocked(log, rows) <==> r.Appended?) && (r.Appended? ==> r.events == rows)
  {
    var rows := Rows(w.req, w.kind, firstSeq);
    var s := StreamOf(log, w.req.tenant, w.req.stream);
    StreamFacts(log, w.req.tenant, w.req.stream);
    if |s| > w.req.expected {
      VersionTaken(log, w.req, w.kind, firstSeq);
    } else {
      IdsDecide(log, firstSeq, w);
    }
  }

  /** A stream that moved on holds the version the first row wants. */
  lemma VersionTaken(log: seq<StoredEvent>, req: Request, kind: string, firstSeq: int)
    requires LogOk(log) && req.events != [] && 0 <= req.expected < |StreamOf(log, req.tenant, req.stream)|
    ensures AnyBlocked(log, Rows(req, kind, firstSeq))
  {
    var s := StreamOf(log, req.tenant, req.stream);
    var f := s[req.expected];
    StreamMembers(log, req.tenant, req.stream, f);
    assert Dense(s);
    assert Clash(f, Rows(req, kind, firstSeq)[0]);
    assert Blocked(log, Rows(req, kind, firstSeq)[0]);
  }

  /** A stream that did not move leaves only the ids to decide. */
  lemma IdsDecide(log: seq<StoredEvent>, firstSeq: int, w: Tx)
    requires LogOk(log) && w.Writing? && WriterOk(log, w) && w.done == |w.req.events|
    requires |StreamOf(log, w.req.tenant, w.req.stream)| == w.req.expected
    ensures AnyBlocked(log, Rows(w.req, w.kind, firstSeq)) <==> !UniqueIds(log + Rows(w.req, w.kind, firstSeq))
  {
    var rows := Rows(w.req, w.kind, firstSeq);
    var all := log + rows;
    if AnyBlocked(log, rows) {
      var k :| 0 <= k < |rows| && Blocked(log, rows[k]);
      var f :| f in log && Clash(f, rows[k]);
      VersionsEnd(log, w.req, f);
      var i :| 0 <= i < |log| && log[i] == f;
      assert all[i].id == all[|log| + k].id;
    } else {
      forall i, j | 0 <= i < j < |all| ensures all[i].id != all[j].id {
        if i < |log| <= j {
          assert !Blocked(log, rows[j - |log|]);
          assert all[i] in log && all[j] == rows[j - |log|];
        } else if |log| <= i {
          assert Row(w.req, w.kind, 0, i - |log|).id != Row(w.req, w.kind, 0, j - |log|).id;
        }
      }
    }
  }

  lemma VersionsEnd(log: seq<StoredEvent>, req: Request, f: StoredEvent)
    requires LogOk(log) && f in log
    ensures InStream(f, req.tenant, req.stream) ==> f.version <= |StreamOf(log, req.tenant, req.stream)|
  {
    StreamMembers(log, req.tenant, req.stream, f);
    assert Dense(StreamOf(log, req.tenant, req.stream));
  }

  // ── growth ───────────────────────────────────────────────────────────────────

  lemma {:induction false} StreamGrows(log: seq<StoredEvent>, rows: seq<StoredEvent>, tenant: string, stream: string)
    ensures StreamOf(log, tenant, stream) <= StreamOf(log + rows, tenant, stream)
  {
    if rows == [] {
      assert log + rows == log;
    } else {
      StreamGrows(log, rows[..|rows| - 1], tenant, stream);
      assert log + rows == log + rows[..|rows| - 1] + [rows[|rows| - 1]];
      StreamPush(log + rows[..|rows| - 1], rows[|rows| - 1], tenant, stream);
    }
  }

  lemma TxSurvives(log: seq<StoredEvent>, rows: seq<StoredEvent>, tx: Tx)
    requires TxOk(log, tx)
    ensures TxOk(log + rows, tx)
  {
    if tx.Writing? {
      StreamGrows(log, rows, tx.req.tenant, tx.req.stream);
      var before := StreamOf(log, tx.req.tenant, tx.req.stream);
      var after := StreamOf(log + rows, tx.req.tenant, tx.req.stream);
      assert before == after[..|before|];
      assert |before| == |after| ==> before == after;
    }
  }

  lemma CheckedOk(log: seq<StoredEvent>, req: Request)
    requires LogOk(log) && req.events != []
    ensures TxOk(log, Checked(log, req))
  {
    StreamFacts(log, req.tenant, req.stream);
  }

  lemma InsertOk(log: seq<StoredEvent>, firstSeq: int, w: Tx)
    requires w.Writing? && WriterOk(log, w) && w.done < |w.req.events|
    ensures TxOk(log, AfterInsert(log, firstSeq, w))
  {
    var rows := Rows(w.req, w.kind, firstSeq);
    if !Blocked(log + rows[..w.done], rows[w.done]) {
      forall i | 0 <= i < w.done ensures Row(w.req, w.kind, 0, i).id != Row(w.req, w.kind, 0, w.done).id {
        assert rows[..w.done][i] == rows[i];
        assert rows[i] in log + rows[..w.done];
        assert !Clash(rows[i], rows[w.done]);
      }
    }
  }

  lemma AllWinGrows(wins: seq<Win>, w: Win)
    requires AllWin(wins) && w.req.events != [] && Answer(Serial(wins), w.firstSeq, w.req).Appended?
    ensures AllWin(wins + [w])
  {
    var more := wins + [w];
    forall i | 0 <= i < |more|
      ensures more[i].req.events != [] && Answer(Serial(more[..i]), more[i].firstSeq, more[i].req).Appended?
    {
      if i < |wins| {
        assert more[..i] == wins[..i];
      } else {
        assert more[..i] == wins;
      }
    }
  }

  lemma WinsOnceGrows(log: seq<StoredEvent>, wins: seq<Win>, w: Win)
    requires WinsOnce(wins) && WinsFit(log, wins) && w.req.events != []
    requires |StreamOf(log, w.req.tenant, w.req.stream)| == w.req.expected
    requires forall v :: v in wins ==> v.req.events != []
    ensures WinsOnce(wins + [w])
  {
    var more := wins + [w];
    forall i, j | 0 <= i < j < |more| && SameStream(more[i].req, more[j].req)
      ensures more[i].req.expected < more[i].req.expected + |more[i].req.events| <= more[j].req.expected
    {
      if j == |wins| {
        assert wins[i] in wins;
      }
    }
  }

  lemma WinsFitGrows(log: seq<StoredEvent>, rows: seq<StoredEvent>, wins: seq<Win>, w: Win)
    requires WinsFit(log, wins)
    requires |StreamOf(log + rows, w.req.tenant, w.req.stream)| == w.req.expected + |w.req.events|
    ensures WinsFit(log + rows, wins + [w])
  {
    forall v | v in wins + [w]
      ensures v.req.expected + |v.req.events| <= |StreamOf(log + rows, v.req.tenant, v.req.stream)|
    {
      if v in wins {
        StreamGrows(log, rows, v.req.tenant, v.req.stream);
      }
    }
  }

  lemma WinsGrow(log: seq<StoredEvent>, wins: seq<Win>, w: Win, rows: seq<StoredEvent>)
    requires LogInv(log, w.firstSeq, wins)
    requires w.req.events != [] && Answer(log, w.firstSeq, w.req).Appended?
    requires rows == NewRows(Answer(log, w.firstSeq, w.req))
    ensures LogInv(log + rows, w.firstSeq + |rows|, wins + [w])
  {
    AppendKeepsLog(log, w.firstSeq, w.req);
    AllWinGrows(wins, w);
    forall v | v in wins ensures v.req.events != [] {
      var i :| 0 <= i < |wins| && wins[i] == v;
    }
    WinsOnceGrows(log, wins, w);
    WinsFitGrows(log, rows, wins, w);
    assert (wins + [w])[..|wins|] == wins;
  }

  // ── all runs ─────────────────────────────────────────────────────────────────

  lemma CommitKeepsInv(s: State, t: nat)
    requires Inv(s) && t in s.txs && s.txs[t].Writing? && s.txs[t].done == |s.txs[t].req.events|
    ensures Inv(AfterCommit(s, t)) && s.log <= AfterCommit(s, t).log
  {
    var w := s.txs[t];
    assert TxOk(s.log, w);
    var rows := Rows(w.req, w.kind, s.nextSeq);
    CommitIsAtomicAppend(s.log, s.nextSeq, w);
    if AnyBlocked(s.log, rows) {
      TxsUpdate(s.log, s.txs, t, Ended);
    } else {
      WinsGrow(s.log, s.wins, Win(t, w.req, s.nextSeq), rows);
      OthersSurvive(s.log, rows, s.txs);
      TxsUpdate(s.log + rows, s.txs, t, Ended);
    }
  }

  lemma TxsUpdate(log: seq<StoredEvent>, txs: map<nat, Tx>, t: nat, tx: Tx)
    requires TxsOk(log, txs) && TxOk(log, tx)
    ensures TxsOk(log, txs[t := tx])
  {
  }

  lemma OthersSurvive(log: seq<StoredEvent>, rows: seq<StoredEvent>, txs: map<nat, Tx>)
    requires TxsOk(log, txs)
    ensures TxsOk(log + rows, txs)
  {
    forall t | t in txs ensures TxOk(log + rows, txs[t]) {
      TxSurvives(log, rows, txs[t]);
    }
  }

  lemma StepKeepsInv(s: State, step: Step)
    requires Inv(s)
    ensures Inv(Next(s, step)) && s.log <= Next(s, step).log
  {
    match step
    case Begin(t, req) =>
      if !(t in s.txs || req.events == []) {
        TxsUpdate(s.log, s.txs, t, Started(req));
      }
    case ReadVersion(t) =>
      if t in s.txs && s.txs[t].Started? {
        assert TxOk(s.log, s.txs[t]);
        CheckedOk(s.log, s.txs[t].req);
        TxsUpdate(s.log, s.txs, t, Checked(s.log, s.txs[t].req));
      }
    case Insert(t) =>
      if t in s.txs && s.txs[t].Writing? && s.txs[t].done < |s.txs[t].req.events| {
        assert TxOk(s.log, s.txs[t]);
        InsertOk(s.log, s.nextSeq, s.txs[t]);
        TxsUpdate(s.log, s.txs, t, AfterInsert(s.log, s.nextSeq, s.txs[t]));
      }
    case Commit(t) =>
      if t in s.txs && s.txs[t].Writing? && s.txs[t].done == |s.txs[t].req.events| {
        CommitKeepsInv(s, t);
      }
    case Rollback(t) =>
      if t in s.txs {
        TxsUpdate(s.log, s.txs, t, Ended);
      }
    case SkipNumbers(count) =>
  }

  /** In every reachable state, however the transactions interleaved: the log is sound, it is
      what the winners alone would have written one after the other, each of them in whole,
      and no expected version of a stream won twice. */
  lemma {:induction false} EveryLogIsSerial(states: seq<State>, steps: seq<Step>, k: nat)
    requires IsRun(states, steps) && k < |states|
    ensures Inv(states[k])
    decreases k
  {
    if k == 0 {
      assert forall tenant, stream :: StreamOf(states[0].log, tenant, stream) == [];
    } else {
      EveryLogIsSerial(states, steps, k - 1);
      StepKeepsInv(states[k - 1], steps[k - 1]);
    }
  }

  /** The log only ever grows. */
  lemma {:induction false} LogOnlyGrows(states: seq<State>, steps: seq<Step>, i: nat, j: nat)
    requires IsRun(states, steps) && i <= j < |states|
    ensures states[i].log <= states[j].log
    decreases j
  {
    if i < j {
      LogOnlyGrows(states, steps, i, j - 1);
      EveryLogIsSerial(states, steps, j - 1);
      StepKeepsInv(states[j - 1], steps[j - 1]);
    }
  }

  /** Two transactions that both read version 0 of the same stream: one commits, and the
      other's commit is refused by the unique index, whatever its ids. */
  lemma OneOfTwoWins(a: NewEvent, b: NewEvent, tenant: string, stream: string)
    ensures var r1 := Request(tenant, stream, "", 0, [a]); var r2 := Request(tenant, stream, "", 0, [b]);
            var s := State([], 1, map[1 := Writing(r1, "", 1), 2 := Writing(r2, "", 1)], []);
            var end := Next(Next(s, Commit(1)), Commit(2));
            |end.wins| == 1 && end.wins[0].tx == 1 && end.txs[2] == Ended && |end.log| == 1
  {
    var r1 := Request(tenant, stream, "", 0, [a]);
    var r2 := Request(tenant, stream, "", 0, [b]);
    var s := State([], 1, map[1 := Writing(r1, "", 1), 2 := Writing(r2, "", 1)], []);
    var mid := Next(s, Commit(1));
    assert mid.log == [Row(r1, "", 1, 0)];
    assert Clash(mid.log[0], Rows(r2, "", mid.nextSeq)[0]);
    assert Blocked(mid.log, Rows(r2, "", mid.nextSeq)[0]);
  }
}
