/** Credentials that run out: what the broker hands back is checked, held, renewed when two
    thirds of its life are gone, and bounds how long a pooled connection lives
    (go/internal/flectdb/flectdb.go). Times and durations are integer nanoseconds. */
module Credentials {
  import opened Basics

  const SECOND := 1_000_000_000
  const MAX_PAUSE := 10 * SECOND
  const DEFAULT_ATTEMPTS := 5

  datatype Manifest = Manifest(
    version: int, kind: string, provider: string, url: string, authToken: string, namespace: string,
    expiresAt: Option<int>, issuedAt: int)

  datatype Flaw = BadVersion | BadKind | BadProvider | NoUrl | NoExpiry | Expired | NamespaceNeedsHttp

  function Validate(m: Manifest, now: int): Option<Flaw> {
    if m.version != 1 then Some(BadVersion)
    else if m.kind != "database" then Some(BadKind)
    else if m.provider != "libsql" then Some(BadProvider)
    else if m.url == "" then Some(NoUrl)
    else if m.expiresAt.None? then Some(NoExpiry)
    else if m.expiresAt.value <= now then Some(Expired)
    else if m.namespace != "" && !HasPrefix(m.url, "http") && !HasPrefix(m.url, "libsql://") then
      Some(NamespaceNeedsHttp)
    else None
  }

  /** Go's integer division, which truncates. */
  function TruncDiv(a: int, b: int): int
    requires b > 0
  {
    if a >= 0 then a / b else -(-a / b)
  }

  function Expiry(m: Manifest): int { match m.expiresAt case Some(t) => t case None => 0 }

  function Life(m: Manifest): int { Expiry(m) - m.issuedAt }

  predicate RenewDue(m: Manifest, now: int) { Expiry(m) - now < TruncDiv(Life(m), 3) }

  function ConnLifetime(ttl: int): int { if TruncDiv(ttl, 4) < SECOND then SECOND else TruncDiv(ttl, 4) }

  // ── one resolution ───────────────────────────────────────────────────────────

  datatype Reply = NoAnswer | Status(code: int) | NotAManifest | Body(m: Manifest)

  datatype Error = Unreachable | Refusal(status: int) | Flawed(flaw: Flaw)

  datatype Resolution = Resolved(m: Manifest) | Failed(error: Error)

  function Resolve(reply: Reply, now: int): Resolution {
    match reply
    case NoAnswer => Failed(Unreachable)
    case Status(code) => Failed(Refusal(code))
    case NotAManifest => Failed(Refusal(200))
    case Body(m) => match Validate(m, now) case Some(flaw) => Failed(Flawed(flaw))
        case None => Resolved(m.(issuedAt := now))
  }

  predicate UrlTakesNamespace(m: Manifest) {
    m.namespace == "" || HasPrefix(m.url, "http") || HasPrefix(m.url, "libsql://")
  }

  /** What is accepted, and what becomes of it: an answer that is a version 1 libsql database
      with a url fit for its namespace and still some life, stamped with the time it arrived. */
  lemma ResolvedIff(reply: Reply, now: int)
    ensures Resolve(reply, now).Resolved? <==>
              && reply.Body? && reply.m.version == 1 && reply.m.kind == "database" && reply.m.provider == "libsql"
              && reply.m.url != "" && UrlTakesNamespace(reply.m)
              && reply.m.expiresAt.Some? && reply.m.expiresAt.value > now
    ensures Resolve(reply, now).Resolved? ==>
              Resolve(reply, now).m == reply.m.(issuedAt := now)
                  && Life(Resolve(reply, now).m) == reply.m.expiresAt.value - now > 0
  {
  }

  predicate Retryable(e: Error) { e.Refusal? ==> e.status >= 500 || e.status == 429 }

  // ── what is held ─────────────────────────────────────────────────────────────

  /** Where a manifest that `current` returns comes from. */
  datatype Source = Kept | Renewed | Fallback

  datatype Current = Has(m: Manifest, source: Source) | Gone(error: Error)

  /** `now` is read on entry, `later` when the broker's answer is checked. */
  function CurrentOf(held: Option<Manifest>, now: int, reply: Reply, later: int): Current {
    if held.Some? && !RenewDue(held.value, now) then Has(held.value, Kept)
    else match Resolve(reply, later)
      case Resolved(m) => Has(m, Renewed)
      case Failed(e) =>
        if held.Some? && Expiry(held.value) > now then Has(held.value, Fallback) else Gone(e)
  }

  /** A manifest that has passed `validate` at the moment it was stamped. */
  predicate Issued(m: Manifest) { m.expiresAt.Some? && Expiry(m) > m.issuedAt }

  class Connector {
    var m: Option<Manifest>

    predicate Valid()
      reads this
    {
      m.Some? ==> Issued(m.value)
    }

    constructor (first: Manifest)
      requires Issued(first)
      ensures Valid() && m == Some(first)
    {
      m := Some(first);
    }

    method Current(now: int, reply: Reply, later: int) returns (r: Current)
      requires Valid()
      modifies this
      ensures Valid() && r == CurrentOf(old(m), now, reply, later)
      ensures m == if r.Has? then Some(r.m) else old(m)
    {
      if m.Some? && !RenewDue(m.value, now) {
        return Has(m.value, Kept);
      }
      var resolution := Resolve(reply, later);
      if resolution.Resolved? {
        m := Some(resolution.m);
        return Has(resolution.m, Renewed);
      }
      if m.Some? && Expiry(m.value) > now {
        return Has(m.value, Fallback);
      }
      return Gone(resolution.error);
    }
  }

  // ── what is promised of it ───────────────────────────────────────────────────

  /** Not being due for renewal means not being expired, at every moment, if and only if the
      manifest lives at least three nanoseconds: below that a third of its life rounds to
      nothing and the very moment of expiry still counts as not due. */
  lemma NotDueIsUnexpiredIff(m: Manifest)
    ensures (forall now :: !RenewDue(m, now) ==> Expiry(m) > now) <==> Life(m) >= 3
  {
    var third := TruncDiv(Life(m), 3);
    if Life(m) < 3 {
      assert third <= 0;
      assert !RenewDue(m, Expiry(m) - third);
    }
  }

  /** What `current` returns is unexpired at the time it looked: always when it is freshly
      resolved or kept after a failed renewal, and when it was simply kept unless it lives
      less than three nanoseconds and expires at this very one. */
  lemma ReturnedIsUnexpired(held: Option<Manifest>, now: int, reply: Reply, later: int)
    requires held.Some? ==> Issued(held.value)
    ensures var r := CurrentOf(held, now, reply, later);
            r.Has? ==>
              && Issued(r.m)
              && (r.source == Renewed ==> Expiry(r.m) > later && r.m.issuedAt == later)
              && (r.source == Fallback ==> Expiry(r.m) > now)
              && (r.source == Kept ==> (Expiry(r.m) > now <==> !(Life(r.m) < 3 && Expiry(r.m) == now)))
  {
    var r := CurrentOf(held, now, reply, later);
    if r.Has? && r.source == Kept {
      NotDueIsUnexpiredIff(r.m);
    }
  }

  /** The pool closes a connection in time, whenever it was opened short of renewal, if and
      only if its lifetime fits in a third of the manifest's. */
  lemma LifetimeFitsIff(m: Manifest, lifetime: int)
    ensures (forall t :: !RenewDue(m, t) ==> t + lifetime <= Expiry(m)) <==> lifetime <= TruncDiv(Life(m), 3)
  {
    var third := TruncDiv(Life(m), 3);
    assert !RenewDue(m, Expiry(m) - third);
  }

  /** A connection opened with a manifest that was not due for renewal, or was just resolved,
      closes by that manifest's expiry, if the manifest lives at least three seconds and at
      least as long as the first one, which set the pool's limit. */
  lemma ConnectionsCloseInTime(first: Manifest, m: Manifest, start: int)
    requires Issued(first) && Life(m) >= 3 * SECOND && Life(m) >= Life(first)
    requires !RenewDue(m, start) || start == m.issuedAt
    ensures start + ConnLifetime(Life(first)) <= Expiry(m)
  {
    LifetimeFitsIff(m, ConnLifetime(Life(first)));
    FreshIsNotDue(m);
  }

  lemma FreshIsNotDue(m: Manifest)
    requires Life(m) >= 0
    ensures !RenewDue(m, m.issuedAt)
  {
  }

  /** The two conditions are what makes it fit: a second is at most a third of the life, and
      a quarter of the first life is at most a third of this one. */
  lemma FitsIff(first: Manifest, m: Manifest)
    requires Issued(first)
    ensures ConnLifetime(Life(first)) <= TruncDiv(Life(m), 3)
            <==> Life(m) >= 3 * SECOND && Life(first) / 4 <= Life(m) / 3
  {
  }

  /** Credentials kept after a failed renewal carry no such promise: in the last moment of
      any manifest's life `current` still returns it, and the connection outlives it. */
  lemma FallbackMayOutlive(first: Manifest, m: Manifest, error: Reply)
    requires Issued(first) && Issued(m) && Life(m) >= 6 && Resolve(error, Expiry(m)).Failed?
    ensures var now := Expiry(m) - 1;
            && CurrentOf(Some(m), now, error, Expiry(m)) == Has(m, Fallback)
            && now + ConnLifetime(Life(first)) > Expiry(m)
  {
    assert RenewDue(m, Expiry(m) - 1);
  }

  // ── boot ─────────────────────────────────────────────────────────────────────

  datatype Config = Config(attempts: int, backoff: int)

  function WithDefaults(c: Config): (r: Config)
    ensures r.attempts >= 1 && r.backoff > 0
    ensures c.attempts >= 1 && c.backoff > 0 ==> r == c
  {
    Config(if c.attempts <= 0 then DEFAULT_ATTEMPTS else c.attempts, if c.backoff <= 0 then SECOND else c.backoff)
  }

  datatype Boot = Opened(m: Manifest, lifetime: int) | GaveUp(error: Error) | Cancelled

  /** What the outside world does to a boot: the answer to each attempt, the clock when it
      is checked, and whether the context ends during the pause after it. */
  datatype World = World(reply: nat -> Reply, clock: nat -> int, ends: nat -> bool)

  function Try(w: World, attempt: nat): Resolution { Resolve(w.reply(attempt), w.clock(attempt)) }

  /** The boot goes on past this attempt. */
  predicate GoesOn(w: World, attempts: int, attempt: nat) {
    Try(w, attempt).Failed? && Retryable(Try(w, attempt).error) && attempt < attempts && !w.ends(attempt)
  }

  function Power(n: nat): nat { if n == 0 then 1 else 2 * Power(n - 1) }

  /** The pause after an attempt, counted from 1: the backoff as configured, then doubled
      each time up to ten seconds. */
  function PauseAfter(backoff: int, attempt: nat): int
    requires attempt >= 1
  {
    if attempt == 1 then backoff
    else if backoff * Power(attempt - 1) < MAX_PAUSE then backoff * Power(attempt - 1) else MAX_PAUSE
  }

  lemma NextPause(backoff: int, attempt: nat)
    requires attempt >= 1 && backoff > 0
    ensures var p := PauseAfter(backoff, attempt) * 2;
            PauseAfter(backoff, attempt + 1) == if p < MAX_PAUSE then p else MAX_PAUSE
  {
    var a := backoff * Power(attempt - 1);
    assert backoff * Power(attempt) == 2 * a;
    if attempt == 1 {
      assert a == backoff;
    }
  }

  /** `Open` resolves at most `attempts` times. It goes on exactly as long as the broker is
      out and neither the attempts nor the context has run out; it ends with the first
      manifest, the first refusal, or the last failure. */
  method Open(config: Config, w: World) returns (r: Boot, tries: nat, pauses: seq<int>)
    ensures 1 <= tries <= WithDefaults(config).attempts
    ensures forall k :: 1 <= k < tries ==> GoesOn(w, WithDefaults(config).attempts, k)
    ensures !GoesOn(w, WithDefaults(config).attempts, tries)
    ensures r == match Try(w, tries)
                 case Resolved(m) => Opened(m, ConnLifetime(Life(m)))
                 case Failed(e) => if Retryable(e)
                     && tries < WithDefaults(config).attempts then Cancelled else GaveUp(e)
    ensures |pauses| == if r.Cancelled? then tries else tries - 1
    ensures forall k :: 0 <= k < |pauses| ==> pauses[k] == PauseAfter(WithDefaults(config).backoff, k + 1)
  {
    var cfg := WithDefaults(config);
    var pause := cfg.backoff;
    tries, pauses := 1, [];
    while true
      invariant 1 <= tries <= cfg.attempts && |pauses| == tries - 1
      invariant forall k :: 1 <= k < tries ==> GoesOn(w, cfg.attempts, k)
      invariant forall k :: 0 <= k < |pauses| ==> pauses[k] == PauseAfter(cfg.backoff, k + 1)
      invariant pause == PauseAfter(cfg.backoff, tries)
      decreases cfg.attempts - tries
    {
      var resolution := Resolve(w.reply(tries), w.clock(tries));
      if resolution.Resolved? {
        r := Opened(resolution.m, ConnLifetime(Life(resolution.m)));
        return;
      }
      if !Retryable(resolution.error) || tries >= cfg.attempts {
        r := GaveUp(resolution.error);
        return;
      }
      pauses := pauses + [pause];
      if w.ends(tries) {
        r := Cancelled;
        return;
      }
      NextPause(cfg.backoff, tries);
      pause := if pause * 2 < MAX_PAUSE then pause * 2 else MAX_PAUSE;
      tries := tries + 1;
    }
  }
}
