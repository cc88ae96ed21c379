/** The append-only log: stored events, their order, and the reads over them
    (go/internal/store/store.go). */
module EventLog {
  import opened Basics
  import opened JsonValues

  datatype StoredEvent = StoredEvent(
    tenant: string, id: string, streamId: string, streamType: string, version: int, globalSeq: int,
    eventType: string, payload: Payload)

  /** A reader's tenant and category; the empty category is every stream. */
  datatype Topic = Topic(tenant: string, category: string)

  predicate Wanted(e: StoredEvent, q: Topic) {
    e.tenant == q.tenant && (q.category == "" || e.streamType == q.category)
  }

  ghost predicate Ordered(log: seq<StoredEvent>) {
    forall i, j :: 0 <= i < j < |log| ==> log[i].globalSeq < log[j].globalSeq
  }

  /** The highest sequence number handed out to the log so far. */
  function Horizon(log: seq<StoredEvent>): int { if log == [] then 0 else log[|log| - 1].globalSeq }

  /** The wanted events with lo < globalSeq <= hi, in log order. */
  function Between(log: seq<StoredEvent>, q: Topic, lo: int, hi: int): seq<StoredEvent> {
    if log == [] then []
    else
      var e := log[|log| - 1];
      Between(log[..|log| - 1], q, lo, hi) + if Wanted(e, q) && lo < e.globalSeq <= hi then [e] else []
  }

  /** `ReadAll` without a limit: everything wanted past the cursor. */
  function ReadFrom(log: seq<StoredEvent>, q: Topic, from: int): seq<StoredEvent> {
    Between(log, q, from, Horizon(log))
  }

  // ── facts about ranges ───────────────────────────────────────────────────────

  lemma BetweenPush(log: seq<StoredEvent>, e: StoredEvent, q: Topic, lo: int, hi: int)
    ensures Between(log + [e], q, lo, hi)
            == Between(log, q, lo, hi) + if Wanted(e, q) && lo < e.globalSeq <= hi then [e] else []
  {
    assert (log + [e])[..|log|] == log;
  }

  lemma {:induction false} BetweenMembers(log: seq<StoredEvent>, q: Topic, lo: int, hi: int, e: StoredEvent)
    ensures e in Between(log, q, lo, hi) <==> e in log && Wanted(e, q) && lo < e.globalSeq <= hi
  {
    if log != [] {
      BetweenMembers(log[..|log| - 1], q, lo, hi, e);
      assert log == log[..|log| - 1] + [log[|log| - 1]];
    }
  }

  lemma {:induction false} BetweenOrdered(log: seq<StoredEvent>, q: Topic, lo: int, hi: int)
    requires Ordered(log)
    ensures Ordered(Between(log, q, lo, hi))
  {
    if log != [] {
      var before := log[..|log| - 1];
      BetweenOrdered(before, q, lo, hi);
      forall e | e in Between(before, q, lo, hi) ensures e.globalSeq < log[|log| - 1].globalSeq {
        BetweenMembers(before, q, lo, hi, e);
      }
    }
  }

  /** A range splits at any point inside it. */
  lemma {:induction false} BetweenSplit(log: seq<StoredEvent>, q: Topic, lo: int, mid: int, hi: int)
    requires Ordered(log) && lo <= mid <= hi
    ensures Between(log, q, lo, hi) == Between(log, q, lo, mid) + Between(log, q, mid, hi)
  {
    if log != [] {
      var before := log[..|log| - 1];
      var e := log[|log| - 1];
      BetweenSplit(before, q, lo, mid, hi);
      if e.globalSeq <= mid {
        BetweenEmpty(before, q, mid, hi);
      }
    }
  }

  lemma {:induction false} BetweenEmpty(log: seq<StoredEvent>, q: Topic, lo: int, hi: int)
    requires forall e :: e in log && Wanted(e, q) ==> !(lo < e.globalSeq <= hi)
    ensures Between(log, q, lo, hi) == []
  {
    if log != [] {
      BetweenEmpty(log[..|log| - 1], q, lo, hi);
    }
  }

  /** Exactly one wanted event in the range. */
  lemma BetweenOne(log: seq<StoredEvent>, q: Topic, lo: int, e: StoredEvent)
    requires Ordered(log) && e in log && Wanted(e, q) && lo < e.globalSeq
    requires forall x :: x in log && Wanted(x, q) ==> !(lo < x.globalSeq < e.globalSeq)
    ensures Between(log, q, lo, e.globalSeq) == [e]
  {
    var r := Between(log, q, lo, e.globalSeq);
    BetweenMembers(log, q, lo, e.globalSeq, e);
    BetweenOrdered(log, q, lo, e.globalSeq);
    assert |r| <= 1 || r[0].globalSeq < r[1].globalSeq;
    forall k | 0 <= k < |r| ensures r[k] == e {
      BetweenMembers(log, q, lo, e.globalSeq, r[k]);
      SameSeq(log, r[k], e);
    }
  }

  lemma SameSeq(log: seq<StoredEvent>, x: StoredEvent, y: StoredEvent)
    requires Ordered(log) && x in log && y in log && x.globalSeq == y.globalSeq
    ensures x == y
  {
    var i :| 0 <= i < |log| && log[i] == x;
    var j :| 0 <= j < |log| && log[j] == y;
    assert i == j;
  }

  /** Events past the range do not change it. */
  lemma {:induction false} BetweenGrow(log: seq<StoredEvent>, more: seq<StoredEvent>, q: Topic, lo: int, hi: int)
    requires forall e :: e in more ==> e.globalSeq > hi
    ensures Between(log + more, q, lo, hi) == Between(log, q, lo, hi)
  {
    if more == [] {
      assert log + more == log;
    } else {
      var front := more[..|more| - 1];
      assert log + more == log + front + [more[|more| - 1]];
      BetweenGrow(log, front, q, lo, hi);
      BetweenPush(log + front, more[|more| - 1], q, lo, hi);
    }
  }

  lemma HorizonBounds(log: seq<StoredEvent>)
    requires Ordered(log)
    ensures forall e :: e in log ==> e.globalSeq <= Horizon(log)
  {
  }

  // ── paging ───────────────────────────────────────────────────────────────────

  const DEFAULT_READ_LIMIT := 1000
  const MAX_READ_LIMIT := 10000

  /** `readLimit` on the parsed query parameter: absent or below 1 means the default. */
  function ReadLimit(raw: Option<int>): (n: int)
    ensures 1 <= n <= MAX_READ_LIMIT
    ensures raw.Some? && 1 <= raw.value <= MAX_READ_LIMIT ==> n == raw.value
  {
    match raw
    case None => DEFAULT_READ_LIMIT
    case Some(n) => if n < 1 then DEFAULT_READ_LIMIT else if n > MAX_READ_LIMIT then MAX_READ_LIMIT else n
  }

  function Take(s: seq<StoredEvent>, n: int): seq<StoredEvent>
    requires n >= 0
  {
    if |s| <= n then s else s[..n]
  }

  /** One page: at most `limit` events past the cursor. */
  function Page(log: seq<StoredEvent>, q: Topic, cursor: int, limit: int): seq<StoredEvent>
    requires limit >= 0
  {
    Take(ReadFrom(log, q, cursor), limit)
  }

  /** A client paging to the end: it takes the last globalSeq it saw as its next cursor and
      asks again, with whatever limit it likes each time, until a page comes back empty. */
  method PageThrough(log: seq<StoredEvent>, q: Topic, from: int, limits: nat -> Option<int>)
    returns (all: seq<StoredEvent>)
    requires Ordered(log)
    ensures all == ReadFrom(log, q, from)
  {
    all := [];
    var cursor := from;
    var n := 0;
    while true
      invariant all + ReadFrom(log, q, cursor) == ReadFrom(log, q, from)
      decreases |ReadFrom(log, q, cursor)|
    {
      var limit := ReadLimit(limits(n));
      var page := Page(log, q, cursor, limit);
      if page == [] {
        return;
      }
      PageAdvances(log, q, cursor, limit);
      all := all + page;
      cursor := page[|page| - 1].globalSeq;
      n := n + 1;
    }
  }

  /** Reading on from a page's last event gives exactly what the page left out. */
  lemma PageAdvances(log: seq<StoredEvent>, q: Topic, cursor: int, limit: int)
    requires Ordered(log) && limit >= 1 && Page(log, q, cursor, limit) != []
    ensures var page := Page(log, q, cursor, limit); var rest := ReadFrom(log, q, page[|page| - 1].globalSeq);
            page + rest == ReadFrom(log, q, cursor) && |rest| < |ReadFrom(log, q, cursor)|
  {
    var whole := ReadFrom(log, q, cursor);
    var page := Page(log, q, cursor, limit);
    var last := page[|page| - 1];
    assert last == whole[|page| - 1] && last in whole;
    BetweenMembers(log, q, cursor, Horizon(log), last);
    BetweenSplit(log, q, cursor, last.globalSeq, Horizon(log));
    BetweenOrdered(log, q, cursor, Horizon(log));
    var front := Between(log, q, cursor, last.globalSeq);
    var rest := Between(log, q, last.globalSeq, Horizon(log));
    assert whole == front + rest;
    if |front| > |page| {
      assert whole[|page|] == front[|page|];
      BetweenMembers(log, q, cursor, last.globalSeq, whole[|page|]);
    } else if |front| < |page| {
      assert last == rest[|page| - 1 - |front|];
      BetweenMembers(log, q, last.globalSeq, Horizon(log), last);
    }
    assert front == whole[..|page|] == page;
  }

  // ── one stream ───────────────────────────────────────────────────────────────

  predicate InStream(e: StoredEvent, tenant: string, stream: string) { e.tenant == tenant && e.streamId == stream }

  /** A stream's events in log order. */
  function StreamOf(log: seq<StoredEvent>, tenant: string, stream: string): seq<StoredEvent> {
    if log == [] then []
    else
      var e := log[|log| - 1];
      StreamOf(log[..|log| - 1], tenant, stream) + if InStream(e, tenant, stream) then [e] else []
  }

  lemma StreamPush(log: seq<StoredEvent>, e: StoredEvent, tenant: string, stream: string)
    ensures StreamOf(log + [e], tenant, stream)
            == StreamOf(log, tenant, stream) + if InStream(e, tenant, stream) then [e] else []
  {
    assert (log + [e])[..|log|] == log;
  }

  lemma {:induction false} StreamMembers(log: seq<StoredEvent>, tenant: string, stream: string, e: StoredEvent)
    ensures e in StreamOf(log, tenant, stream) <==> e in log && InStream(e, tenant, stream)
  {
    if log != [] {
      StreamMembers(log[..|log| - 1], tenant, stream, e);
      assert log == log[..|log| - 1] + [log[|log| - 1]];
    }
  }

  /** Versions are exactly 1..n. */
  ghost predicate Dense(events: seq<StoredEvent>) { forall i :: 0 <= i < |events| ==> events[i].version == i + 1 }

  /** `ReadStream`: the events past a version, at most `limit` of them. */
  function StreamPage(log: seq<StoredEvent>, tenant: string, stream: string, from: nat, limit: int): seq<StoredEvent>
    requires limit >= 0
  {
    Take(PastVersion(StreamOf(log, tenant, stream), from), limit)
  }

  function PastVersion(events: seq<StoredEvent>, from: nat): seq<StoredEvent> {
    if events == [] then [] else (if events[0].version > from then [events[0]] else []) + PastVersion(events[1..], from)
  }

  lemma {:induction false} PastVersionIsSuffix(events: seq<StoredEvent>, from: nat, offset: nat)
    requires forall i :: 0 <= i < |events| ==> events[i].version == offset + i + 1
    ensures PastVersion(events, from)
            == if from <= offset then events else if from - offset <= |events| then events[from - offset..] else []
  {
    if events != [] {
      PastVersionIsSuffix(events[1..], from, offset + 1);
    }
  }

  lemma StreamPageAdvances(events: seq<StoredEvent>, cursor: nat, limit: int)
    requires Dense(events) && limit >= 1 && Take(PastVersion(events, cursor), limit) != []
    ensures var page := Take(PastVersion(events, cursor), limit); var last := page[|page| - 1].version;
            && last >= 0 && page + PastVersion(events, last) == PastVersion(events, cursor)
            && |PastVersion(events, last)| < |PastVersion(events, cursor)|
  {
    PastVersionFrom(events, cursor);
    var size := |Take(PastVersion(events, cursor), limit)|;
    PastVersionFrom(events, cursor + size);
    SuffixPage(events, cursor, size);
  }

  lemma PastVersionFrom(events: seq<StoredEvent>, cursor: nat)
    requires Dense(events)
    ensures PastVersion(events, cursor) == if cursor <= |events| then events[cursor..] else []
  {
    PastVersionIsSuffix(events, cursor, 0);
    assert events[0..] == events;
  }

  lemma SuffixPage(events: seq<StoredEvent>, cursor: nat, size: nat)
    requires Dense(events) && cursor <= |events| && 1 <= size <= |events| - cursor
    ensures var page := events[cursor..][..size];
            page[size - 1].version == cursor + size && page + events[cursor + size..] == events[cursor..]
  {
    assert events[cursor..][size - 1] == events[cursor + size - 1];
  }

  /** Paging one stream by version. */
  method PageStream(log: seq<StoredEvent>, tenant: string, stream: string, from: nat, limits: nat -> Option<int>)
    returns (all: seq<StoredEvent>)
    requires Dense(StreamOf(log, tenant, stream))
    ensures all == PastVersion(StreamOf(log, tenant, stream), from)
  {
    ghost var events := StreamOf(log, tenant, stream);
    all := [];
    var cursor: nat := from;
    var n := 0;
    while true
      invariant all + PastVersion(events, cursor) == PastVersion(events, from)
      decreases |PastVersion(events, cursor)|
    {
      var page := StreamPage(log, tenant, stream, cursor, ReadLimit(limits(n)));
      if page == [] {
        return;
      }
      StreamPageAdvances(events, cursor, ReadLimit(limits(n)));
      all := all + page;
      cursor := page[|page| - 1].version;
      n := n + 1;
    }
  }
}
