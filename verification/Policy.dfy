/** Binding a policy's `using` fragment and working out which columns it lets through
    (go/internal/readmodel/query.go, `replaceAuth`, `compileUsing`, `allowedColumns`). */
module Policy {
  import opened Basics
  import opened JsonValues
  import opened Definitions
  import Sql
  import Dialect

  /** The caller's identity. An empty field counts as absent, and so does a null claim. */
  datatype AuthCtx = AuthCtx(tenant: string, uid: string, role: string, email: string, claims: map<string, Value>)

  const TOKEN := ":auth_"

  predicate IsTokenChar(c: char) { c == '_' || 'a' <= c <= 'z' }

  function Present(s: string): Option<Value> { if s == "" then None else Some(Text(s)) }

  /** The value a token such as `:auth_uid` stands for. */
  function AuthValue(ctx: AuthCtx, token: string): Option<Value> {
    var key := if |token| < |TOKEN| then "" else token[|TOKEN|..];
    if key == "uid" then Present(ctx.uid)
    else if key == "role" then Present(ctx.role)
    else if key == "email" then Present(ctx.email)
    else if key == "tenant" then Some(Text(ctx.tenant))
    else if HasPrefix(key, "claim_") && key[|"claim_"|..] in ctx.claims
        && !ctx.claims[key[|"claim_"|..]].NullValue? then
      Some(ctx.claims[key[|"claim_"|..]])
    else None
  }

  // ── a fragment in pieces ─────────────────────────────────────────────────────

  datatype Piece = Char(c: char) | Token(name: string)

  /** Length of the token at the start of s, which starts with `:auth_`. */
  function TokenLength(s: string): (n: nat)
    requires HasPrefix(s, TOKEN)
    ensures |TOKEN| <= n <= |s|
    ensures forall i :: |TOKEN| <= i < n ==> IsTokenChar(s[i])
    ensures n < |s| ==> !IsTokenChar(s[n])
  {
    var tail := s[|TOKEN|..];
    var k := Sql.Span(IsTokenChar, tail);
    assert forall i :: |TOKEN| <= i < |TOKEN| + k ==> s[i] == tail[i - |TOKEN|];
    |TOKEN| + k
  }

  function Pieces(s: string): seq<Piece> {
    if s == "" then []
    else if HasPrefix(s, TOKEN) then [Token(s[..TokenLength(s)])] + Pieces(s[TokenLength(s)..])
    else [Char(s[0])] + Pieces(s[1..])
  }

  function Text1(p: Piece, ctx: AuthCtx): string {
    match p
    case Char(c) => [c]
    case Token(name) => if AuthValue(ctx, name).Some? then "?" else name
  }

  function Replaced(ps: seq<Piece>, ctx: AuthCtx): string {
    if ps == [] then "" else Text1(ps[0], ctx) + Replaced(ps[1..], ctx)
  }

  function Values(ps: seq<Piece>, ctx: AuthCtx): seq<Value> {
    if ps == [] then []
    else
      (if ps[0].Token? && AuthValue(ctx, ps[0].name).Some? then [AuthValue(ctx, ps[0].name).value] else [])
      + Values(ps[1..], ctx)
  }

  function Missing(ps: seq<Piece>, ctx: AuthCtx): seq<string> {
    if ps == [] then []
    else (if ps[0].Token? && AuthValue(ctx, ps[0].name).None? then [ps[0].name] else []) + Missing(ps[1..], ctx)
  }

  /** The text written so far, the arguments bound, and the tokens that had no value. */
  datatype Rewritten = Rewritten(text: string, args: seq<Value>, missing: seq<string>)

  const EMPTY := Rewritten("", [], [])

  function Add(acc: Rewritten, p: Piece, ctx: AuthCtx): Rewritten {
    match p
    case Char(c) => acc.(text := acc.text + [c])
    case Token(name) =>
      match AuthValue(ctx, name)
      case Some(v) => acc.(text := acc.text + "?", args := acc.args + [v])
      case None => acc.(text := acc.text + name, missing := acc.missing + [name])
  }

  function After(acc: Rewritten, ps: seq<Piece>, ctx: AuthCtx): Rewritten {
    Rewritten(acc.text + Replaced(ps, ctx), acc.args + Values(ps, ctx), acc.missing + Missing(ps, ctx))
  }

  lemma AfterPiece(acc: Rewritten, p: Piece, rest: seq<Piece>, ctx: AuthCtx)
    ensures After(acc, [p] + rest, ctx) == After(Add(acc, p, ctx), rest, ctx)
  {
    var ps := [p] + rest;
    assert ps[0] == p && ps[1..] == rest;
    ThreeParts(acc.text, Text1(p, ctx), Replaced(rest, ctx));
    var vs := if p.Token? && AuthValue(ctx, p.name).Some? then [AuthValue(ctx, p.name).value] else [];
    ThreeParts(acc.args, vs, Values(rest, ctx));
    var ms := if p.Token? && AuthValue(ctx, p.name).None? then [p.name] else [];
    ThreeParts(acc.missing, ms, Missing(rest, ctx));
    assert acc.args + [] == acc.args && acc.missing + [] == acc.missing;
  }

  lemma ThreeParts<T>(a: seq<T>, b: seq<T>, c: seq<T>)
    ensures a + (b + c) == a + b + c
  {
  }

  lemma AfterNone(acc: Rewritten, ctx: AuthCtx)
    ensures After(acc, [], ctx) == acc
  {
  }

  /** The cursor loop: copy characters, replace tokens, note the ones with no value. */
  method ReplaceAuth(s: string, ctx: AuthCtx) returns (r: Rewritten)
    ensures r == After(EMPTY, Pieces(s), ctx)
  {
    r := EMPTY;
    var i := 0;
    assert s[0..] == s;
    while i < |s|
      invariant 0 <= i <= |s|
      invariant After(r, Pieces(s[i..]), ctx) == After(EMPTY, Pieces(s), ctx)
    {
      if HasPrefix(s[i..], TOKEN) {
        var j := i + |TOKEN|;
        while j < |s| && IsTokenChar(s[j])
          invariant i + |TOKEN| <= j <= |s|
          invariant forall k :: i + |TOKEN| <= k < j ==> IsTokenChar(s[k])
        {
          j := j + 1;
        }
        TokenEndsAt(s, i, j);
        var name := s[i..j];
        AfterPiece(r, Token(name), Pieces(s[j..]), ctx);
        var v := AuthValue(ctx, name);
        if v.Some? {
          r := r.(text := r.text + "?", args := r.args + [v.value]);
        } else {
          r := r.(text := r.text + name, missing := r.missing + [name]);
        }
        i := j;
      } else {
        assert s[i..][0] == s[i] && s[i..][1..] == s[i + 1..];
        AfterPiece(r, Char(s[i]), Pieces(s[i + 1..]), ctx);
        r := r.(text := r.text + [s[i]]);
        i := i + 1;
      }
    }
    assert s[i..] == "";
    AfterNone(r, ctx);
  }

  lemma TokenEndsAt(s: string, i: nat, j: nat)
    requires i <= |s| && HasPrefix(s[i..], TOKEN) && i + |TOKEN| <= j <= |s|
    requires forall k :: i + |TOKEN| <= k < j ==> IsTokenChar(s[k])
    requires j < |s| ==> !IsTokenChar(s[j])
    ensures TokenLength(s[i..]) == j - i
    ensures Pieces(s[i..]) == [Token(s[i..j])] + Pieces(s[j..])
  {
    var t := s[i..];
    assert forall k :: 0 <= k < |t| ==> t[k] == s[i + k];
    assert t[..j - i] == s[i..j] && t[j - i..] == s[j..];
  }

  datatype Using = Bound(text: string, args: seq<Value>) | NotAFragment | Denied(token: string)

  /** `compileUsing`: a fragment with a `;` is refused, a token with no value denies. */
  method CompileUsing(using: string, ctx: AuthCtx) returns (r: Using)
    ensures r == BindUsing(using, ctx)
  {
    if ';' in using {
      return NotAFragment;
    }
    var w := ReplaceAuth(using, ctx);
    if w.missing != [] {
      return Denied(w.missing[0]);
    }
    return Bound(w.text, w.args);
  }

  function BindUsing(using: string, ctx: AuthCtx): Using {
    if ';' in using then NotAFragment
    else if Missing(Pieces(using), ctx) != [] then Denied(Missing(Pieces(using), ctx)[0])
    else Bound(Replaced(Pieces(using), ctx), Values(Pieces(using), ctx))
  }

  // ── what binding in position means ───────────────────────────────────────────

  datatype Filled = Plain(c: char) | Operand(v: Value)

  /** The text with its k-th `?` replaced by the k-th argument. */
  function Fill(text: string, args: seq<Value>): seq<Filled> {
    if text == "" then []
    else if text[0] == '?' && args != [] then [Operand(args[0])] + Fill(text[1..], args[1..])
    else [Plain(text[0])] + Fill(text[1..], args)
  }

  /** The fragment with every token replaced by the value it stands for. */
  function Substituted(ps: seq<Piece>, ctx: AuthCtx): seq<Filled> {
    if ps == [] then []
    else
      (match ps[0]
       case Char(c) => [Plain(c)]
       case Token(name) => if AuthValue(ctx, name).Some? then [Operand(AuthValue(ctx, name).value)] else [])
      + Substituted(ps[1..], ctx)
  }

  lemma {:induction false} FillReplaced(ps: seq<Piece>, ctx: AuthCtx)
    requires Missing(ps, ctx) == [] && forall p :: p in ps && p.Char? ==> p.c != '?'
    ensures Fill(Replaced(ps, ctx), Values(ps, ctx)) == Substituted(ps, ctx)
    ensures Dialect.CountMarks(Replaced(ps, ctx)) == |Values(ps, ctx)|
  {
    if ps != [] {
      assert ps[0] in ps;
      FillReplaced(ps[1..], ctx);
      var text, rest := Text1(ps[0], ctx), Replaced(ps[1..], ctx);
      assert |text| == 1 && (text + rest)[0] == text[0] && (text + rest)[1..] == rest;
      if ps[0].Token? {
        assert Values(ps, ctx) == [AuthValue(ctx, ps[0].name).value] + Values(ps[1..], ctx);
        assert Values(ps, ctx)[0] == AuthValue(ctx, ps[0].name).value && Values(ps, ctx)[1..] == Values(ps[1..], ctx);
      } else {
        assert Values(ps, ctx) == Values(ps[1..], ctx);
      }
    }
  }

  lemma {:induction false} PiecesChars(s: string)
    ensures forall p :: p in Pieces(s) && p.Char? ==> p.c in s
  {
    if s != "" {
      if HasPrefix(s, TOKEN) {
        PiecesChars(s[TokenLength(s)..]);
      } else {
        PiecesChars(s[1..]);
      }
    }
  }

  /** When a fragment without a literal `?` is accepted, binding its text in position is
      substituting every token by its value: the k-th `?` gets the k-th token's value, and
      there are as many placeholders as arguments. SQLite binds in position when no token
      touches a digit; `Sql.SqliteInPositionIff` says exactly when. */
  lemma UsingAligned(using: string, ctx: AuthCtx)
    requires '?' !in using && BindUsing(using, ctx).Bound?
    ensures var b := BindUsing(using, ctx);
            && Fill(b.text, b.args) == Substituted(Pieces(using), ctx)
            && Dialect.CountMarks(b.text) == |b.args|
    ensures TokensApart(Pieces(using)) ==>
              var ts := Sql.Lex(BindUsing(using, ctx).text);
              forall next: nat :: Sql.Sqlite(ts, next) == Sql.Positional(ts, next)
  {
    PiecesChars(using);
    FillReplaced(Pieces(using), ctx);
    if TokensApart(Pieces(using)) {
      ReplacedDigits(Pieces(using), ctx);
      forall next: nat {
        Dialect.DigitFreeInPosition(BindUsing(using, ctx).text, next);
      }
    }
  }

  // ── safe to renumber ─────────────────────────────────────────────────────────

  /** No token is directly followed by a digit. */
  predicate TokensApart(ps: seq<Piece>) {
    forall i :: 0 <= i < |ps| - 1 && ps[i].Token? && ps[i + 1].Char? ==> !('0' <= ps[i + 1].c <= '9')
  }

  function Left(p: Piece): char { match p case Char(c) => c case Token(_) => '?' }

  /** A bound fragment has one character per piece. */
  lemma {:induction false} ReplacedAt(ps: seq<Piece>, ctx: AuthCtx)
    requires Missing(ps, ctx) == []
    ensures |Replaced(ps, ctx)| == |ps| && forall i :: 0 <= i < |ps| ==> Replaced(ps, ctx)[i] == Left(ps[i])
  {
    if ps != [] {
      ReplacedAt(ps[1..], ctx);
      var text, rest := Text1(ps[0], ctx), Replaced(ps[1..], ctx);
      assert |text| == 1 && text[0] == Left(ps[0]) && text + rest == Replaced(ps, ctx);
      assert forall i :: 0 < i < |ps| ==> (text + rest)[i] == rest[i - 1] && ps[i] == ps[1..][i - 1];
    }
  }

  /** A placeholder touches a digit exactly when a token did. */
  lemma ReplacedDigits(ps: seq<Piece>, ctx: AuthCtx)
    requires Missing(ps, ctx) == [] && forall p :: p in ps && p.Char? ==> p.c != '?'
    ensures Dialect.DigitFree(Replaced(ps, ctx)) <==> TokensApart(ps)
    ensures (forall p :: p in ps && p.Char? ==> p.c != '$') ==> Dialect.NoDollar(Replaced(ps, ctx))
  {
    var s := Replaced(ps, ctx);
    ReplacedAt(ps, ctx);
    assert forall i :: 0 <= i < |ps| ==> ps[i] in ps;
    assert forall i :: 0 <= i < |ps| ==> (s[i] == '?' <==> ps[i].Token?);
    if Dialect.DigitFree(s) {
      forall i | 0 <= i < |ps| - 1 && ps[i].Token? && ps[i + 1].Char? ensures !('0' <= ps[i + 1].c <= '9') {
        assert s[i] == '?' && s[i + 1] == ps[i + 1].c;
      }
    }
    if TokensApart(ps) {
      forall i | 0 <= i < |s| - 1 && s[i] == '?' ensures !('0' <= s[i + 1] <= '9') {
        assert ps[i].Token? && s[i + 1] == Left(ps[i + 1]);
      }
    }
  }

  lemma CopiesChar(c: char, s: string, ctx: AuthCtx)
    requires c != ':'
    ensures Pieces([c] + s) == [Char(c)] + Pieces(s)
    ensures Replaced(Pieces([c] + s), ctx) == [c] + Replaced(Pieces(s), ctx)
    ensures Missing(Pieces([c] + s), ctx) == Missing(Pieces(s), ctx)
  {
    var text := [c] + s;
    assert text[0] == c && text[1..] == s && !HasPrefix(text, TOKEN);
    assert ([Char(c)] + Pieces(s))[1..] == Pieces(s);
  }

  lemma ApartTail(p: Piece, ps: seq<Piece>)
    requires TokensApart([p] + ps)
    ensures TokensApart(ps)
  {
    var all := [p] + ps;
    assert forall i :: 0 <= i < |ps| ==> all[i + 1] == ps[i];
  }

  /** Text without a colon is copied. */
  lemma {:induction false} CopiesPlain(front: string, s: string, ctx: AuthCtx)
    requires ':' !in front
    ensures Replaced(Pieces(front + s), ctx) == front + Replaced(Pieces(s), ctx)
    ensures Missing(Pieces(front + s), ctx) == Missing(Pieces(s), ctx)
    ensures TokensApart(Pieces(front + s)) ==> TokensApart(Pieces(s))
  {
    if front == "" {
      assert front + s == s;
    } else {
      var c, rest := front[0], front[1..];
      assert front == [c] + rest;
      ThreeParts([c], rest, s);
      ThreeParts([c], rest, Replaced(Pieces(s), ctx));
      CopiesPlain(rest, s, ctx);
      CopiesChar(c, rest + s, ctx);
      if TokensApart(Pieces(front + s)) {
        ApartTail(Char(c), Pieces(rest + s));
      }
    }
  }

  /** A token ends where the first character that cannot belong to it stands. */
  lemma CutToken(token: string, s: string, ctx: AuthCtx)
    requires HasPrefix(token, TOKEN) && (forall i :: |TOKEN| <= i < |token| ==> IsTokenChar(token[i]))
    requires (s != "" ==> !IsTokenChar(s[0])) && AuthValue(ctx, token).Some?
    ensures Pieces(token + s) == [Token(token)] + Pieces(s)
    ensures Replaced(Pieces(token + s), ctx) == "?" + Replaced(Pieces(s), ctx)
    ensures Missing(Pieces(token + s), ctx) == Missing(Pieces(s), ctx)
  {
    var text := token + s;
    assert text[0..] == text && text[..|token|] == token && text[|token|..] == s;
    assert HasPrefix(text, TOKEN);
    TokenEndsAt(text, 0, |token|);
    assert Pieces(text)[0] == Token(token) && Pieces(text)[1..] == Pieces(s);
  }

  // ── columns ──────────────────────────────────────────────────────────────────

  function AllowedColumns(def: ProjectionDef, policy: PolicyDef): set<string> {
    var known := {"id", "updated_at"} + def.columns.Keys;
    var allowed := if policy.allow == [] then known else known * ({"id"} + (set c | c in policy.allow));
    allowed - (set c | c in policy.deny)
  }

  /** The whitelist, built by adding declared columns and deleting what the policy rules
      out. Only known columns get through, a denied one never does. */
  method ComputeAllowed(def: ProjectionDef, policy: PolicyDef) returns (cols: set<string>)
    ensures cols == AllowedColumns(def, policy)
    ensures forall c :: c in cols ==> c in {"id", "updated_at"} + def.columns.Keys && c !in policy.deny
  {
    cols := {"id", "updated_at"} + def.columns.Keys;
    ghost var known := cols;
    if |policy.allow| > 0 {
      var allow := {"id"} + (set c | c in policy.allow);
      var left := cols;
      while left != {}
        invariant left <= known
        invariant cols == left + (known - left) * allow
      {
        var c :| c in left;
        if c !in allow {
          cols := cols - {c};
        }
        left := left - {c};
      }
    }
    ghost var allowed := cols;
    for i := 0 to |policy.deny|
      invariant cols == allowed - (set c | c in policy.deny[..i])
    {
      cols := cols - {policy.deny[i]};
      assert policy.deny[..i + 1] == policy.deny[..i] + [policy.deny[i]];
    }
    assert policy.deny[..|policy.deny|] == policy.deny;
  }

  // ── booleans at the read boundary ────────────────────────────────────────────

  datatype Shown = ShownNull | ShownBool(b: bool) | ShownAsIs(v: Value)

  /** `asBool`: what a boolean column's stored value is handed back as. */
  function AsBool(v: Value): Shown {
    match v
    case NullValue => ShownNull
    case Number(n) => ShownBool(n == 1.0)
    case Text(s) => ShownBool(s == "1")
    case JsonText(_) => ShownAsIs(v)
  }
}
