/** The in-process bus: bounded buffers per live subscriber and a close-once overflow signal
    (go/internal/bus/bus.go). */
module Bus {
  import opened EventLog

  const BUFFER_SIZE := 256

  datatype Publication = Publication(tenant: string, event: StoredEvent)

  /** One tenant's events in a history of publications. */
  function EventsFor(history: seq<Publication>, tenant: string): seq<StoredEvent> {
    if history == [] then []
    else
      var p := history[|history| - 1];
      EventsFor(history[..|history| - 1], tenant) + if p.tenant == tenant then [p.event] else []
  }

  lemma EventsForPush(history: seq<Publication>, p: Publication, tenant: string)
    ensures EventsFor(history + [p], tenant)
            == EventsFor(history, tenant) + if p.tenant == tenant then [p.event] else []
  {
    assert (history + [p])[..|history|] == history;
  }

  /** A subscriber: its channel, whether its overflow signal is up, and what happened to it so
      far: taken by the session, published to its tenant, dropped, and how often `over` closed. */
  datatype View = View(ch: seq<StoredEvent>, over: bool, consumed: seq<StoredEvent>, offered: seq<StoredEvent>,
                       drops: nat, closings: nat)

  const FRESH := View([], false, [], [], 0, 0)

  /** Until something is dropped nothing is missing; `over` closes once, and exactly when
      something was. */
  predicate Sound(v: View) {
    && |v.ch| <= BUFFER_SIZE
    && (v.over <==> v.drops > 0)
    && v.closings == (if v.over then 1 else 0)
    && (!v.over ==> v.consumed + v.ch == v.offered)
    && |v.consumed| + |v.ch| + v.drops == |v.offered|
  }

  /** What a subscriber can see: its channel and whether `over` is closed. */
  datatype Buffer = Buffer(ch: seq<StoredEvent>, over: bool)

  /** The non-blocking send: a full buffer keeps what it holds and `over` closes. */
  function Enqueued(b: Buffer, ev: StoredEvent): Buffer {
    if |b.ch| < BUFFER_SIZE then b.(ch := b.ch + [ev]) else b.(over := true)
  }

  function Sent(v: View, ev: StoredEvent): View {
    var b := Enqueued(Buffer(v.ch, v.over), ev);
    v.(ch := b.ch, over := b.over, offered := v.offered + [ev],
       drops := if |v.ch| < BUFFER_SIZE then v.drops else v.drops + 1,
       closings := if b.over && !v.over then v.closings + 1 else v.closings)
  }

  function AfterPublish(v: View, reached: bool, ev: StoredEvent): View { if reached then Sent(v, ev) else v }

  lemma SentSound(v: View, ev: StoredEvent)
    requires Sound(v)
    ensures Sound(Sent(v, ev))
  {
    assert v.consumed + (v.ch + [ev]) == v.consumed + v.ch + [ev];
  }

  class Subscriber {
    var ch: seq<StoredEvent>
    /** Whether the overflow channel is closed. */
    var over: bool

    ghost const id: nat
    ghost const tenant: string
    /** How much had been published before this subscription. */
    ghost const since: nat
    ghost var consumed: seq<StoredEvent>
    ghost var offered: seq<StoredEvent>
    ghost var drops: nat
    ghost var closings: nat

    ghost function Now(): View
      reads this
    {
      View(ch, over, consumed, offered, drops, closings)
    }

    constructor (ghost id: nat, ghost tenant: string, ghost since: nat)
      ensures Now() == FRESH && this.id == id && this.tenant == tenant && this.since == since
    {
      ch, over := [], false;
      this.id, this.tenant, this.since := id, tenant, since;
      consumed, offered, drops, closings := [], [], 0, 0;
    }

    method Offer(ev: StoredEvent)
      requires Sound(Now())
      modifies this
      ensures Now() == Sent(old(Now()), ev) && Sound(Now())
    {
      SentSound(Now(), ev);
      if |ch| < BUFFER_SIZE {
        ch := ch + [ev];
      } else {
        drops := drops + 1;
        if !over {
          over, closings := true, closings + 1;
        }
      }
      offered := offered + [ev];
    }

    /** The session takes the oldest queued event. */
    method Receive() returns (ev: StoredEvent)
      requires Sound(Now()) && ch != []
      modifies this
      ensures Sound(Now()) && old(ch) == [ev] + ch
      ensures Now() == old(Now()).(ch := ch, consumed := old(consumed) + [ev])
    {
      ev := ch[0];
      assert consumed + ch == (consumed + [ev]) + ch[1..];
      consumed, ch := consumed + [ev], ch[1..];
    }
  }

  type Members = map<nat, Subscriber>

  function TenantMembers(subs: map<string, Members>, tenant: string): Members {
    if tenant in subs then subs[tenant] else map[]
  }

  ghost function Views(m: Members): map<nat, View>
    reads m.Values
  {
    map id | id in m :: m[id].Now()
  }

  /** Those already visited have been offered the event. */
  ghost function Offered(before: map<nat, View>, todo: set<nat>, ev: StoredEvent): map<nat, View> {
    map id | id in before :: if id in todo then before[id] else Sent(before[id], ev)
  }

  lemma OneMoreOffered(before: map<nat, View>, todo: set<nat>, id: nat, ev: StoredEvent)
    requires id in before && id in todo
    ensures Offered(before, todo, ev)[id] == before[id]
    ensures Offered(before, todo, ev)[id := Sent(before[id], ev)] == Offered(before, todo - {id}, ev)
  {
  }

  predicate Entry(subs: map<string, Members>, tenant: string, id: int) { id >= 0 && id in TenantMembers(subs, tenant) }

  function With(subs: map<string, Members>, tenant: string, s: Subscriber, id: nat): map<string, Members> {
    subs[tenant := TenantMembers(subs, tenant)[id := s]]
  }

  function Without(subs: map<string, Members>, tenant: string, id: nat): map<string, Members> {
    if tenant !in subs then subs
    else
      var m := subs[tenant] - {id};
      if |m| == 0 then subs - {tenant} else subs[tenant := m]
  }

  /** No empty map is kept; the entries are the live subscribers, each under its own id and
      its own tenant. */
  ghost predicate Registered(subs: map<string, Members>, issued: seq<Subscriber>, live: set<int>) {
    && (forall tenant :: tenant in subs ==> |subs[tenant]| > 0)
    && (forall i :: i in live ==> 0 <= i < |issued|)
    && (forall i :: 0 <= i < |issued| ==> issued[i].id == i)
    && (forall tenant, id :: Entry(subs, tenant, id) <==> id in live && issued[id].tenant == tenant)
    && forall tenant, id :: Entry(subs, tenant, id) ==> TenantMembers(subs, tenant)[id] == issued[id]
  }

  lemma WithEntries(subs: map<string, Members>, tenant: string, s: Subscriber, id: nat, t: string, i: int)
    ensures Entry(With(subs, tenant, s, id), t, i) <==> Entry(subs, t, i) || (t == tenant && i == id)
    ensures Entry(With(subs, tenant, s, id), t, i) ==>
              TenantMembers(With(subs, tenant, s, id), t)[i]
                  == if t == tenant && i == id then s else TenantMembers(subs, t)[i]
  {
  }

  /** Every live subscriber has been offered its tenant's publications since it began. */
  ghost predicate InStep(issued: seq<Subscriber>, live: set<int>, history: seq<Publication>)
    requires forall i :: i in live ==> 0 <= i < |issued|
    reads issued
  {
    forall i :: i in live ==>
      issued[i].since <= |history| && issued[i].offered == EventsFor(history[issued[i].since..], issued[i].tenant)
  }

  ghost predicate AllSound(issued: seq<Subscriber>)
    reads issued
  {
    forall i :: 0 <= i < |issued| ==> Sound(issued[i].Now())
  }

  ghost predicate Sane(next: nat, subs: map<string, Members>, issued: seq<Subscriber>, live: set<int>,
                       history: seq<Publication>)
    reads issued
  {
    next == |issued| && Registered(subs, issued, live) && InStep(issued, live, history) && AllSound(issued)
  }

  lemma EnrolledInStep(issued: seq<Subscriber>, live: set<int>, history: seq<Publication>, s: Subscriber)
    requires (forall i :: i in live ==> 0 <= i < |issued|) && InStep(issued, live, history) && AllSound(issued)
    requires s.Now() == FRESH && s.since == |history|
    ensures InStep(issued + [s], live + {|issued|}, history) && AllSound(issued + [s])
  {
    assert history[|history|..] == [];
  }

  lemma Enrolled(subs: map<string, Members>, issued: seq<Subscriber>, live: set<int>, tenant: string, s: Subscriber)
    requires Registered(subs, issued, live) && s.id == |issued| && s.tenant == tenant
    ensures Registered(With(subs, tenant, s, |issued|), issued + [s], live + {|issued|})
  {
    var after := With(subs, tenant, s, |issued|);
    var all := issued + [s];
    forall t, i
      ensures Entry(after, t, i) <==> i in live + {|issued|} && all[i].tenant == t
      ensures Entry(after, t, i) ==> TenantMembers(after, t)[i] == all[i]
    {
      WithEntries(subs, tenant, s, |issued|, t, i);
      assert Entry(subs, t, i) <==> i in live && issued[i].tenant == t;
    }
    assert |issued| in TenantMembers(after, tenant);
    assert |TenantMembers(after, tenant)| > 0;
  }

  /** Nothing happens to an id that another tenant holds. */
  ghost function Departed(issued: seq<Subscriber>, live: set<int>, tenant: string, id: nat): set<int> {
    if id < |issued| && issued[id].tenant == tenant then live - {id} else live
  }

  lemma WithoutEntries(subs: map<string, Members>, tenant: string, id: nat, t: string, i: int)
    ensures Entry(Without(subs, tenant, id), t, i) <==> Entry(subs, t, i) && !(t == tenant && i == id)
    ensures Entry(Without(subs, tenant, id), t, i) ==>
            TenantMembers(Without(subs, tenant, id), t)[i] == TenantMembers(subs, t)[i]
  {
    var m := TenantMembers(subs, tenant) - {id};
    if |m| == 0 {
      assert m == map[];
      if t == tenant && i >= 0 {
        assert i !in m;
      }
    }
  }

  lemma Left(subs: map<string, Members>, issued: seq<Subscriber>, live: set<int>, tenant: string, id: nat)
    requires Registered(subs, issued, live)
    ensures Registered(Without(subs, tenant, id), issued, Departed(issued, live, tenant, id))
  {
    var after := Without(subs, tenant, id);
    forall t, i
      ensures Entry(after, t, i) <==> i in Departed(issued, live, tenant, id) && issued[i].tenant == t
      ensures Entry(after, t, i) ==> TenantMembers(after, t)[i] == issued[i]
    {
      WithoutEntries(subs, tenant, id, t, i);
      assert Entry(subs, t, i) <==> i in live && issued[i].tenant == t;
    }
  }

  /** A tenant's entries are its live subscribers. */
  lemma Reached(subs: map<string, Members>, issued: seq<Subscriber>, live: set<int>, tenant: string)
    requires Registered(subs, issued, live)
    ensures var m := TenantMembers(subs, tenant);
            && (forall id :: id in m ==> id < |issued| && id in live && m[id] == issued[id] && m[id].id == id)
            && forall i :: 0 <= i < |issued| ==>
               (issued[i] in m.Values <==> i in m) && (i in m <==> i in live && issued[i].tenant == tenant)
  {
    var m := TenantMembers(subs, tenant);
    forall id | id in m ensures id < |issued| && id in live && m[id] == issued[id] && m[id].id == id {
      assert Entry(subs, tenant, id);
    }
    forall i | 0 <= i < |issued|
      ensures (issued[i] in m.Values <==> i in m) && (i in m <==> i in live && issued[i].tenant == tenant)
    {
      assert Entry(subs, tenant, i) <==> i in live && issued[i].tenant == tenant;
      if issued[i] in m.Values {
        var id :| id in m && m[id] == issued[i];
      }
    }
  }

  lemma EnrolledSane(next: nat, subs: map<string, Members>, issued: seq<Subscriber>, live: set<int>,
                     history: seq<Publication>, tenant: string, s: Subscriber)
    requires Sane(next, subs, issued, live, history)
    requires s.Now() == FRESH && s.id == next && s.tenant == tenant && s.since == |history|
    ensures Sane(next + 1, With(subs, tenant, s, next), issued + [s], live + {next}, history)
  {
    Enrolled(subs, issued, live, tenant, s);
    EnrolledInStep(issued, live, history, s);
  }

  class EventBus {
    var subs: map<string, Members>
    var next: nat

    ghost var history: seq<Publication>
    /** Every subscriber there ever was, by its id, and which of them are still subscribed. */
    ghost var issued: seq<Subscriber>
    ghost var live: set<int>

    /** A live subscriber was offered exactly what was published to its tenant since. */
    ghost predicate Valid()
      reads this, issued
    {
      Sane(next, subs, issued, live, history)
    }

    constructor ()
      ensures Valid() && live == {} && history == []
    {
      subs, next := map[], 0;
      history, issued, live := [], [], {};
    }

    /** Ids are handed out once: the new one is the number issued before it. */
    method Subscribe(tenant: string) returns (id: nat, s: Subscriber)
      requires Valid()
      modifies this
      ensures Valid() && fresh(s) && s.Now() == FRESH && s.tenant == tenant && s.since == |history|
      ensures id == old(next) && issued == old(issued) + [s] && live == old(live) + {id} && history == old(history)
    {
      id := next;
      s := new Subscriber(next, tenant, |history|);
      Enroll(tenant, s);
    }

    method Enroll(tenant: string, s: Subscriber)
      requires Valid() && s.Now() == FRESH && s.id == next && s.tenant == tenant && s.since == |history|
      modifies this
      ensures Valid()
      ensures issued == old(issued) + [s] && live == old(live) + {old(next)} && history == old(history)
    {
      EnrolledSane(next, subs, issued, live, history, tenant, s);
      subs, issued, live, next := With(subs, tenant, s, next), issued + [s], live + {next}, next + 1;
    }

    method Unsubscribe(tenant: string, id: nat)
      requires Valid()
      modifies this
      ensures Valid() && issued == old(issued) && live == Departed(issued, old(live), tenant, id)
              && history == old(history)
    {
      Left(subs, issued, live, tenant, id);
      Remove(tenant, id);
      live := Departed(issued, live, tenant, id);
    }

    /** An emptied tenant map is removed with its last entry. */
    method Remove(tenant: string, id: nat)
      modifies this`subs
      ensures subs == Without(old(subs), tenant, id)
    {
      if tenant in subs {
        var m := subs[tenant] - {id};
        if |m| == 0 {
          subs := subs - {tenant};
        } else {
          subs := subs[tenant := m];
        }
      }
    }

    /** Every subscriber of the tenant is offered the event, no one else is touched. */
    method Publish(tenant: string, ev: StoredEvent)
      requires Valid()
      modifies this`history, TenantMembers(subs, tenant).Values
      ensures Valid() && history == old(history) + [Publication(tenant, ev)]
      ensures forall i :: 0 <= i < next ==>
              issued[i].Now() == AfterPublish(old(issued[i].Now()), i in live && issued[i].tenant == tenant, ev)
    {
      Recorded(tenant, ev);
      Send(tenant, ev);
      history := history + [Publication(tenant, ev)];
      forall i | i in live ensures issued[i].offered == EventsFor(history[issued[i].since..], issued[i].tenant) {
        assert issued[i].Now().offered
            == old(issued[i].Now().offered) + if issued[i].tenant == tenant then [ev] else [];
      }
    }

    method Send(tenant: string, ev: StoredEvent)
      requires Registered(subs, issued, live) && forall i :: 0 <= i < |issued| ==> Sound(issued[i].Now())
      modifies TenantMembers(subs, tenant).Values
      ensures forall i :: 0 <= i < |issued| ==>
                && Sound(issued[i].Now())
                && issued[i].Now() == AfterPublish(old(issued[i].Now()), i in live && issued[i].tenant == tenant, ev)
    {
      Reached(subs, issued, live, tenant);
      Deliver(TenantMembers(subs, tenant), ev);
    }

    /** The loop over one tenant's subscribers, in whatever order the map gives them. */
    static method Deliver(m: Members, ev: StoredEvent)
      requires forall id :: id in m ==> m[id].id == id && Sound(m[id].Now())
      modifies m.Values
      ensures forall id :: id in m ==> m[id].Now() == Sent(old(m[id].Now()), ev) && Sound(m[id].Now())
    {
      ghost var before := Views(m);
      DeliverAll(m, ev);
      AllOffered(m, before, ev);
    }

    static method DeliverAll(m: Members, ev: StoredEvent)
      requires forall id :: id in m ==> m[id].id == id && Sound(m[id].Now())
      modifies m.Values
      ensures Views(m) == Offered(old(Views(m)), {}, ev)
    {
      var todo := m.Keys;
      ghost var before := Views(m);
      while todo != {}
        invariant todo <= m.Keys
        invariant Views(m) == Offered(before, todo, ev)
        decreases |todo|
      {
        var id :| id in todo;
        OneMoreOffered(before, todo, id, ev);
        assert m[id].Now() == Views(m)[id];
        OfferOne(m, id, ev);
        todo := todo - {id};
      }
    }

    static lemma AllOffered(m: Members, before: map<nat, View>, ev: StoredEvent)
      requires Views(m) == Offered(before, {}, ev) && forall id :: id in before ==> Sound(before[id])
      ensures forall id :: id in m ==> id in before && m[id].Now() == Sent(before[id], ev) && Sound(m[id].Now())
    {
      forall id | id in m ensures id in before && m[id].Now() == Sent(before[id], ev) && Sound(m[id].Now()) {
        assert id in Views(m) && m[id].Now() == Views(m)[id];
        SentSound(before[id], ev);
      }
    }

    static method OfferOne(m: Members, id: nat, ev: StoredEvent)
      requires id in m && Sound(m[id].Now()) && forall other :: other in m ==> m[other].id == other
      modifies m.Values
      ensures Views(m) == old(Views(m))[id := Sent(old(Views(m))[id], ev)]
    {
      assert forall other :: other in m && other != id ==> m[other] != m[id];
      m[id].Offer(ev);
    }

    /** A publication lengthens the record of its own tenant's subscribers only. */
    lemma Recorded(tenant: string, ev: StoredEvent)
      requires forall i :: i in live ==> 0 <= i < |issued| && issued[i].since <= |history|
      ensures forall i :: i in live ==>
                EventsFor((history + [Publication(tenant, ev)])[issued[i].since..], issued[i].tenant)
                == EventsFor(history[issued[i].since..], issued[i].tenant)
                    + if issued[i].tenant == tenant then [ev] else []
    {
      var p := Publication(tenant, ev);
      forall i | i in live
        ensures EventsFor((history + [p])[issued[i].since..], issued[i].tenant)
                == EventsFor(history[issued[i].since..], issued[i].tenant)
                    + if issued[i].tenant == tenant then [ev] else []
      {
        assert (history + [p])[issued[i].since..] == history[issued[i].since..] + [p];
        EventsForPush(history[issued[i].since..], p, issued[i].tenant);
      }
    }
  }
}
