/** The log as a table of the database: `go/main.go` opens the store and the registry on one
    connection, so a statement that names the table `events` reaches the stored events
    (go/internal/dialect/dialect.go, `EventsSchema`). */
module LogTable {
  import opened Basics
  import opened JsonValues
  import opened Definitions
  import opened EventLog
  import opened Store
  import opened Projector
  import opened UpsertStatement
  import Sql

  const LOG_TABLE := "events"

  const LOG_COLUMNS := {
    "global_seq", "id", "tenant", "stream_id", "stream_type", "version", "type", "actor", "payload",
    "causation_id", "correlation_id", "metadata", "recorded_at"}

  predicate OverLog(def: ProjectionDef) { def.TableOf() == LOG_TABLE }

  function EventKey(e: StoredEvent): RowKey { RowKey(e.tenant, e.id) }

  /** The other columns a condition could read. */
  function EventRow(e: StoredEvent): Row {
    map["stream_id" := Text(e.streamId), "stream_type" := Text(e.streamType), "type" := Text(e.eventType)]
  }

  /** What is left when the events the condition is TRUE of are gone. */
  function Undeleted(c: Sql.Expr, args: seq<Value>, log: seq<StoredEvent>): seq<StoredEvent> {
    if log == [] then []
    else
      var e := log[|log| - 1];
      Undeleted(c, args, log[..|log| - 1]) + if Selects(c, args, EventKey(e), EventRow(e)) then [] else [e]
  }

  /** The events of other tenants. */
  function OthersIn(log: seq<StoredEvent>, tenant: string): seq<StoredEvent> {
    if log == [] then []
    else
      var e := log[|log| - 1];
      OthersIn(log[..|log| - 1], tenant) + if e.tenant == tenant then [] else [e]
  }

  /** The log without one event of a tenant. */
  function WithoutEvent(log: seq<StoredEvent>, k: RowKey): seq<StoredEvent> {
    if log == [] then []
    else
      var e := log[|log| - 1];
      WithoutEvent(log[..|log| - 1], k) + if EventKey(e) == k then [] else [e]
  }

  lemma {:induction false} TenantUndeleted(log: seq<StoredEvent>, tenant: string)
    ensures Undeleted(TenantExpr(), [Text(tenant)], log) == OthersIn(log, tenant)
  {
    if log != [] {
      var e := log[|log| - 1];
      TenantUndeleted(log[..|log| - 1], tenant);
      TenantCondition(EventKey(e), EventRow(e), tenant);
    }
  }

  lemma {:induction false} EventUndeleted(log: seq<StoredEvent>, k: RowKey)
    ensures Undeleted(RowExpr(), [Text(k.tenant), Text(k.id)], log) == WithoutEvent(log, k)
  {
    if log != [] {
      var e := log[|log| - 1];
      EventUndeleted(log[..|log| - 1], k);
      RowCondition(EventKey(e), EventRow(e), k);
    }
  }

  lemma {:induction false} OthersMembers(log: seq<StoredEvent>, tenant: string, e: StoredEvent)
    ensures e in OthersIn(log, tenant) <==> e in log && e.tenant != tenant
  {
    if log != [] {
      OthersMembers(log[..|log| - 1], tenant, e);
      assert log == log[..|log| - 1] + [log[|log| - 1]];
    }
  }

  lemma OthersPush(log: seq<StoredEvent>, e: StoredEvent, tenant: string)
    ensures OthersIn(log + [e], tenant)
            == if e.tenant == tenant then OthersIn(log, tenant) else OthersIn(log, tenant) + [e]
  {
    assert (log + [e])[..|log|] == log;
    assert OthersIn(log, tenant) + [] == OthersIn(log, tenant);
  }

  lemma WithoutPush(log: seq<StoredEvent>, e: StoredEvent, k: RowKey)
    ensures WithoutEvent(log + [e], k) == if EventKey(e) == k then WithoutEvent(log, k) else WithoutEvent(log, k) + [e]
  {
    assert (log + [e])[..|log|] == log;
    assert WithoutEvent(log, k) + [] == WithoutEvent(log, k);
  }

  predicate NoneOf(log: seq<StoredEvent>, tenant: string) { forall e :: e in log ==> e.tenant != tenant }

  lemma {:induction false} NothingToRemove(log: seq<StoredEvent>, k: RowKey)
    requires NoneOf(log, k.tenant)
    ensures OthersIn(log, k.tenant) == log && WithoutEvent(log, k) == log
    decreases |log|
  {
    if log != [] {
      var before, e := log[..|log| - 1], log[|log| - 1];
      assert log == before + [e] && e in log;
      NothingToRemove(before, k);
      OthersPush(before, e, k.tenant);
      WithoutPush(before, e, k);
    }
  }

  lemma NoneLeft(log: seq<StoredEvent>, tenant: string)
    ensures NoneOf(OthersIn(log, tenant), tenant)
  {
    forall e | e in OthersIn(log, tenant) ensures e.tenant != tenant {
      OthersMembers(log, tenant, e);
    }
  }

  /** Removing one event of a tenant moves no other tenant's. */
  lemma {:induction false} WithoutIsLocal(log: seq<StoredEvent>, k: RowKey)
    ensures OthersIn(WithoutEvent(log, k), k.tenant) == OthersIn(log, k.tenant)
    decreases |log|
  {
    if log != [] {
      var before, e := log[..|log| - 1], log[|log| - 1];
      assert log == before + [e];
      WithoutIsLocal(before, k);
      WithoutPush(before, e, k);
      OthersPush(before, e, k.tenant);
      OthersPush(WithoutEvent(before, k), e, k.tenant);
    }
  }

  // ── a log without one tenant is still a log ──────────────────────────────────

  lemma {:induction false} OthersOrdered(log: seq<StoredEvent>, tenant: string)
    requires Ordered(log)
    ensures Ordered(OthersIn(log, tenant))
  {
    if log != [] {
      var before := log[..|log| - 1];
      OthersOrdered(before, tenant);
      forall e | e in OthersIn(before, tenant) ensures e.globalSeq < log[|log| - 1].globalSeq {
        OthersMembers(before, tenant, e);
      }
    }
  }

  lemma {:induction false} OthersUnique(log: seq<StoredEvent>, tenant: string)
    requires UniqueIds(log)
    ensures UniqueIds(OthersIn(log, tenant))
  {
    if log != [] {
      var before := log[..|log| - 1];
      OthersUnique(before, tenant);
      forall e | e in OthersIn(before, tenant) ensures e.id != log[|log| - 1].id {
        OthersMembers(before, tenant, e);
        var i :| 0 <= i < |before| && before[i] == e;
        assert log[i] == e;
      }
    }
  }

  lemma {:induction false} OthersStreams(log: seq<StoredEvent>, tenant: string, other: string, stream: string)
    ensures StreamOf(OthersIn(log, tenant), other, stream)
            == if other == tenant then [] else StreamOf(log, other, stream)
  {
    if log != [] {
      var before, e := log[..|log| - 1], log[|log| - 1];
      assert log == before + [e];
      OthersStreams(before, tenant, other, stream);
      OthersPush(before, e, tenant);
      StreamPush(before, e, other, stream);
      StreamPush(OthersIn(before, tenant), e, other, stream);
    }
  }

  lemma OthersKeepLog(log: seq<StoredEvent>, tenant: string)
    requires LogOk(log)
    ensures LogOk(OthersIn(log, tenant)) && Horizon(OthersIn(log, tenant)) <= Horizon(log)
  {
    var left := OthersIn(log, tenant);
    OthersOrdered(log, tenant);
    OthersUnique(log, tenant);
    forall e | e in left ensures e in log {
      OthersMembers(log, tenant, e);
    }
    forall other, stream ensures Dense(StreamOf(left, other, stream)) {
      OthersStreams(log, tenant, other, stream);
    }
    HorizonBounds(log);
    assert left != [] ==> left[|left| - 1] in left;
    assert log != [] ==> log[|log| - 1] in log;
  }

  // ── what a projection over the log does to it ────────────────────────────────

  /** The log after a rebuild against a database that takes this many statements. */
  function LogAfterRebuild(def: ProjectionDef, tenant: string, log: seq<StoredEvent>, budget: nat): seq<StoredEvent> {
    if OverLog(def) && budget > 0 then OthersIn(log, tenant) else log
  }

  /** The log after the fold of one event. */
  function LogAfterFold(def: ProjectionDef, e: EventLike, log: seq<StoredEvent>, budget: nat): seq<StoredEvent> {
    if OverLog(def) && budget > 0 && e.eventType in def.on && def.on[e.eventType].op == "delete"
       && ResolveKey(def.on[e.eventType], e).Some?
    then WithoutEvent(log, RowKey(e.tenant, ResolveKey(def.on[e.eventType], e).value))
    else log
  }

  lemma FoldIsLocalInLog(def: ProjectionDef, e: EventLike, log: seq<StoredEvent>, budget: nat)
    ensures OthersIn(LogAfterFold(def, e, log, budget), e.tenant) == OthersIn(log, e.tenant)
    ensures NoneOf(log, e.tenant) ==> LogAfterFold(def, e, log, budget) == log
  {
    if LogAfterFold(def, e, log, budget) != log {
      var k := RowKey(e.tenant, ResolveKey(def.on[e.eventType], e).value);
      WithoutIsLocal(log, k);
      if NoneOf(log, e.tenant) {
        NothingToRemove(log, k);
      }
    }
  }

  /** For one log: a rebuild keeps it iff the projection has a table of its own, or there is
      nothing of the tenant to delete, or the database refuses. */
  lemma RebuildKeepsLogIff(def: ProjectionDef, tenant: string, log: seq<StoredEvent>, budget: nat)
    ensures LogAfterRebuild(def, tenant, log, budget) == log
            <==> !OverLog(def) || budget == 0 || NoneOf(log, tenant)
  {
    if NoneOf(log, tenant) {
      NothingToRemove(log, RowKey(tenant, ""));
    } else {
      var e :| e in log && e.tenant == tenant;
      OthersMembers(log, tenant, e);
    }
  }

  /** A log of one event. */
  function FirstEvent(tenant: string): StoredEvent { StoredEvent(tenant, "e1", "s1", "", 1, 1, "Opened", map[]) }

  lemma OneEventLog(tenant: string)
    ensures LogOk([FirstEvent(tenant)])
  {
    LoneEventLog(FirstEvent(tenant));
  }

  lemma LoneEventLog(e: StoredEvent)
    requires e.globalSeq > 0 && e.version == 1
    ensures LogOk([e])
  {
    assert [] + [e] == [e];
    PushKeepsLog([], e);
  }

  /** A rebuild keeps every log if and only if the projection's table is not the log's. */
  lemma KeepsEveryLogIff(def: ProjectionDef, tenant: string)
    ensures (forall log, budget: nat :: LogOk(log) ==> LogAfterRebuild(def, tenant, log, budget) == log)
            <==> def.TableOf() != LOG_TABLE
  {
    if OverLog(def) {
      OneEventLog(tenant);
      RebuildKeepsLogIff(def, tenant, [FirstEvent(tenant)], 1);
    }
  }
}
