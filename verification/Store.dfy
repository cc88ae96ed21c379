/** Appending with optimistic concurrency (go/internal/store/store.go, `Append`;
    go/internal/dialect/dialect.go, the unique constraints of `EventsSchema`). */
module Store {
  import opened Basics
  import opened JsonValues
  import opened EventLog
  import Sorting

  // ── what a log keeps ─────────────────────────────────────────────────────────

  predicate UniqueIds(log: seq<StoredEvent>) { forall i, j :: 0 <= i < j < |log| ==> log[i].id != log[j].id }

  ghost predicate OneType(log: seq<StoredEvent>) {
    forall e, f :: e in log && f in log && e.tenant == f.tenant && e.streamId == f.streamId ==>
        e.streamType == f.streamType
  }

  ghost predicate AllDense(log: seq<StoredEvent>) { forall tenant, stream :: Dense(StreamOf(log, tenant, stream)) }

  ghost predicate Positive(log: seq<StoredEvent>) { forall e :: e in log ==> e.globalSeq > 0 }

  /** Sequence numbers are positive and ascend, ids are unique, every stream has versions 1..n
      and one type. */
  ghost predicate LogOk(log: seq<StoredEvent>) {
    Ordered(log) && Positive(log) && UniqueIds(log) && OneType(log) && AllDense(log)
  }

  /** What a row has to meet to be added after the rows of a log. */
  ghost predicate Fits(log: seq<StoredEvent>, e: StoredEvent) {
    && e.globalSeq > Horizon(log)
    && (forall f :: f in log ==> f.id != e.id)
    && e.version == |StreamOf(log, e.tenant, e.streamId)| + 1
    && forall f :: f in log && InStream(f, e.tenant, e.streamId) ==> f.streamType == e.streamType
  }

  lemma PushOrdered(log: seq<StoredEvent>, e: StoredEvent)
    requires Ordered(log) && e.globalSeq > Horizon(log)
    ensures Ordered(log + [e])
  {
    HorizonBounds(log);
    assert forall i :: 0 <= i < |log| ==> log[i] in log;
  }

  lemma PushUnique(log: seq<StoredEvent>, e: StoredEvent)
    requires UniqueIds(log) && forall f :: f in log ==> f.id != e.id
    ensures UniqueIds(log + [e])
  {
    assert forall i :: 0 <= i < |log| ==> log[i] in log;
  }

  lemma PushDense(log: seq<StoredEvent>, e: StoredEvent)
    requires AllDense(log) && e.version == |StreamOf(log, e.tenant, e.streamId)| + 1
    ensures AllDense(log + [e])
  {
    forall tenant, stream ensures Dense(StreamOf(log + [e], tenant, stream)) {
      StreamPush(log, e, tenant, stream);
      assert Dense(StreamOf(log, tenant, stream));
    }
  }

  lemma PushKeepsLog(log: seq<StoredEvent>, e: StoredEvent)
    requires LogOk(log) && Fits(log, e)
    ensures LogOk(log + [e])
  {
    PushOrdered(log, e);
    PushUnique(log, e);
    PushDense(log, e);
  }

  // ── the aggregate query ──────────────────────────────────────────────────────

  /** `MAX(version)` over a stream's rows, 0 when there are none. */
  function MaxVersion(events: seq<StoredEvent>): int {
    if events == [] then 0
    else
      var m := MaxVersion(events[..|events| - 1]);
      if events[|events| - 1].version > m then events[|events| - 1].version else m
  }

  /** `MAX(stream_type)` over a stream's rows: the largest in text order. */
  function MaxType(events: seq<StoredEvent>): string {
    if events == [] then ""
    else
      var m := MaxType(events[..|events| - 1]);
      if Sorting.Leq(m, events[|events| - 1].streamType) then events[|events| - 1].streamType else m
  }

  lemma {:induction false} MaxVersionIsLength(events: seq<StoredEvent>)
    requires Dense(events)
    ensures MaxVersion(events) == |events|
  {
    if events != [] {
      MaxVersionIsLength(events[..|events| - 1]);
    }
  }

  /** All events of a stream share one type, so `MAX` reads that type for free. */
  lemma {:induction false} MaxTypeIsTheType(events: seq<StoredEvent>, kind: string)
    requires events != [] && forall e :: e in events ==> e.streamType == kind
    ensures MaxType(events) == kind
  {
    var last := events[|events| - 1];
    assert last in events;
    if |events| > 1 {
      MaxTypeIsTheType(events[..|events| - 1], kind);
      Sorting.LeqTotal(kind, kind);
    } else {
      assert events[..0] == [];
    }
  }

  lemma StreamFacts(log: seq<StoredEvent>, tenant: string, stream: string)
    requires LogOk(log)
    ensures MaxVersion(StreamOf(log, tenant, stream)) == |StreamOf(log, tenant, stream)|
    ensures forall e :: e in log && InStream(e, tenant, stream)
              ==> StreamOf(log, tenant, stream) != [] && e.streamType == MaxType(StreamOf(log, tenant, stream))
  {
    var events := StreamOf(log, tenant, stream);
    MaxVersionIsLength(events);
    forall e | e in log && InStream(e, tenant, stream) ensures events != [] && e.streamType == MaxType(events) {
      StreamMembers(log, tenant, stream, e);
      forall f | f in events ensures f.streamType == e.streamType {
        StreamMembers(log, tenant, stream, f);
      }
      MaxTypeIsTheType(events, e.streamType);
    }
  }

  // ── one append ───────────────────────────────────────────────────────────────

  /** A client-supplied id may be empty; `generated` is the one the store would mint instead. */
  datatype NewEvent = NewEvent(id: string, generated: string, eventType: string, payload: Payload)

  datatype Request = Request(tenant: string, stream: string, streamType: string, expected: int, events: seq<NewEvent>)

  datatype AppendResult =
    | Appended(events: seq<StoredEvent>, version: int)
    | Conflict(actual: int)
    | TypeMismatch(existing: string)
    | UniqueViolation

  /** The row the i-th event of a request becomes. */
  function Row(req: Request, kind: string, firstSeq: int, i: nat): StoredEvent
    requires i < |req.events|
  {
    var e := req.events[i];
    StoredEvent(req.tenant, if e.id != "" then e.id else e.generated, req.stream, kind,
                req.expected + i + 1, firstSeq + i, e.eventType, e.payload)
  }

  function Rows(req: Request, kind: string, firstSeq: int): (rows: seq<StoredEvent>)
    ensures |rows| == |req.events|
    ensures forall i :: 0 <= i < |rows| ==> rows[i] == Row(req, kind, firstSeq, i)
  {
    seq(|req.events|, i requires 0 <= i < |req.events| => Row(req, kind, firstSeq, i))
  }

  /** What an append that runs alone answers. What is refused, and in which order it is
      checked: a version other than the expected one, then a type other than the stream's,
      then an id already taken. */
  function Answer(log: seq<StoredEvent>, firstSeq: int, req: Request): AppendResult {
    var s := StreamOf(log, req.tenant, req.stream);
    var rows := Rows(req, if |s| > 0 then MaxType(s) else req.streamType, firstSeq);
    if req.events == [] then Appended([], req.expected)
    else if |s| != req.expected then Conflict(|s|)
    else if |s| > 0 && req.streamType != "" && MaxType(s) != req.streamType then TypeMismatch(MaxType(s))
    else if !UniqueIds(log + rows) then UniqueViolation
    else Appended(rows, req.expected + |req.events|)
  }

  function NewRows(r: AppendResult): seq<StoredEvent> { if r.Appended? then r.events else [] }

  /** The table inside the transaction after some rows of a batch: still a sound log, its
      stream grown row by row under one type. */
  ghost predicate Staged(table: seq<StoredEvent>, req: Request, kind: string, length: int, nextSeq: int) {
    && LogOk(table) && nextSeq > Horizon(table)
    && |StreamOf(table, req.tenant, req.stream)| == length
    && forall f :: f in table && InStream(f, req.tenant, req.stream) ==> f.streamType == kind
  }

  lemma StageRow(table: seq<StoredEvent>, req: Request, kind: string, firstSeq: int, i: nat)
    requires i < |req.events| && Staged(table, req, kind, req.expected + i, firstSeq + i)
    requires !IdTaken(table, Row(req, kind, firstSeq, i).id)
    ensures Staged(table + [Row(req, kind, firstSeq, i)], req, kind, req.expected + i + 1, firstSeq + i + 1)
  {
    var row := Row(req, kind, firstSeq, i);
    PushKeepsLog(table, row);
    StreamPush(table, row, req.tenant, req.stream);
  }

  predicate IdTaken(table: seq<StoredEvent>, id: string) { exists f :: f in table && f.id == id }

  lemma DuplicateId(log: seq<StoredEvent>, rows: seq<StoredEvent>, i: nat)
    requires i < |rows| && IdTaken(log + rows[..i], rows[i].id)
    ensures !UniqueIds(log + rows)
  {
    var f :| f in log + rows[..i] && f.id == rows[i].id;
    var k :| 0 <= k < |log + rows[..i]| && (log + rows[..i])[k] == f;
    var all := log + rows;
    assert all[k] == f && all[|log| + i] == rows[i];
  }

  lemma TakeOneMore(log: seq<StoredEvent>, rows: seq<StoredEvent>, i: nat)
    requires i < |rows|
    ensures rows[..i + 1] == rows[..i] + [rows[i]] && log + rows[..i + 1] == log + rows[..i] + [rows[i]]
  {
  }

  class EventStore {
    var log: seq<StoredEvent>
    /** The next sequence number the database hands out. */
    var nextSeq: int

    ghost predicate Valid()
      reads this
    {
      LogOk(log) && nextSeq > Horizon(log)
    }

    constructor ()
      ensures Valid() && log == []
    {
      log, nextSeq := [], 1;
    }

    /** The batch goes in whole or not at all. */
    method Append(req: Request) returns (r: AppendResult)
      requires Valid()
      modifies this
      ensures Valid() && nextSeq >= old(nextSeq)
      ensures r == Answer(old(log), old(nextSeq), req)
      ensures log == old(log) + NewRows(r)
    {
      if |req.events| == 0 {
        return Appended([], req.expected);
      }
      StreamFacts(log, req.tenant, req.stream);
      var cur := MaxVersion(StreamOf(log, req.tenant, req.stream));
      if cur != req.expected {
        return Conflict(cur);
      }
      var existing := MaxType(StreamOf(log, req.tenant, req.stream));
      if cur > 0 && req.streamType != "" && existing != req.streamType {
        return TypeMismatch(existing);
      }
      r := InsertRows(req, if cur > 0 then existing else req.streamType);
    }

    /** The transaction's insert loop, committed at the end. */
    method InsertRows(req: Request, kind: string) returns (r: AppendResult)
      requires Staged(log, req, kind, req.expected, nextSeq)
      modifies this
      ensures Valid() && nextSeq >= old(nextSeq)
      ensures var rows := Rows(req, kind, old(nextSeq));
              if UniqueIds(old(log) + rows) then
                r == Appended(rows, req.expected + |req.events|) && log == old(log) + rows
              else r == UniqueViolation && log == old(log)
    {
      ghost var rows := Rows(req, kind, nextSeq);
      var stored: seq<StoredEvent> := [];
      var table := log;
      for i := 0 to |req.events|
        invariant log == old(log) && nextSeq == old(nextSeq) + i
        invariant stored == rows[..i] && table == log + rows[..i]
        invariant UniqueIds(table)
      {
        var row := Row(req, kind, nextSeq - i, i);
        nextSeq := nextSeq + 1;
        if IdTaken(table, row.id) {
          DuplicateId(log, rows, i);
          return UniqueViolation;
        }
        PushUnique(table, row);
        TakeOneMore(log, rows, i);
        stored := stored + [row];
        table := table + [row];
      }
      assert rows[..|req.events|] == rows;
      StageRows(log, req, kind, nextSeq - |req.events|, |req.events|);
      log := table;
      return Appended(stored, req.expected + |req.events|);
    }
  }

  // ── what an append does to the log ───────────────────────────────────────────

  lemma NotTaken(log: seq<StoredEvent>, rows: seq<StoredEvent>, i: nat)
    requires i < |rows| && UniqueIds(log + rows)
    ensures !IdTaken(log + rows[..i], rows[i].id)
  {
    if IdTaken(log + rows[..i], rows[i].id) {
      DuplicateId(log, rows, i);
    }
  }

  lemma StageNext(log: seq<StoredEvent>, req: Request, kind: string, firstSeq: int, i: nat)
    requires i < |req.events| && UniqueIds(log + Rows(req, kind, firstSeq))
    requires Staged(log + Rows(req, kind, firstSeq)[..i], req, kind, req.expected + i, firstSeq + i)
    ensures Staged(log + Rows(req, kind, firstSeq)[..i + 1], req, kind, req.expected + i + 1, firstSeq + i + 1)
  {
    var rows := Rows(req, kind, firstSeq);
    NotTaken(log, rows, i);
    TakeOneMore(log, rows, i);
    StageRow(log + rows[..i], req, kind, firstSeq, i);
  }

  lemma {:induction false} StageRows(log: seq<StoredEvent>, req: Request, kind: string, firstSeq: int, n: nat)
    requires n <= |req.events| && Staged(log, req, kind, req.expected, firstSeq)
    requires UniqueIds(log + Rows(req, kind, firstSeq))
    ensures Staged(log + Rows(req, kind, firstSeq)[..n], req, kind, req.expected + n, firstSeq + n)
  {
    if n == 0 {
      assert log + Rows(req, kind, firstSeq)[..0] == log;
    } else {
      StageRows(log, req, kind, firstSeq, n - 1);
      StageNext(log, req, kind, firstSeq, n - 1);
    }
  }

  /** An append keeps every property of the log, and one that goes through leaves its stream
      exactly as many versions longer as it has events. */
  lemma AppendKeepsLog(log: seq<StoredEvent>, firstSeq: int, req: Request)
    requires LogOk(log) && firstSeq > Horizon(log)
    ensures var r := Answer(log, firstSeq, req); var after := log + NewRows(r);
            && LogOk(after) && firstSeq + |NewRows(r)| > Horizon(after)
            && (r.Appended? && req.events != [] ==>
                |StreamOf(log, req.tenant, req.stream)| == req.expected
                && |StreamOf(after, req.tenant, req.stream)| == req.expected + |req.events|)
  {
    var r := Answer(log, firstSeq, req);
    if r.Appended? && req.events != [] {
      StreamFacts(log, req.tenant, req.stream);
      var s := StreamOf(log, req.tenant, req.stream);
      var kind := if |s| > 0 then MaxType(s) else req.streamType;
      StageRows(log, req, kind, firstSeq, |req.events|);
      assert Rows(req, kind, firstSeq)[..|req.events|] == r.events;
    } else {
      assert log + [] == log;
    }
  }
}
