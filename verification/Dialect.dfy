/** Placeholder rewriting for Postgres (go/internal/dialect/dialect.go, `Rewrite`). */
module Dialect {
  import opened Basics
  import opened Sql
  import Decimal

  /** `?` becomes `$n`, `$n+1`, ... from left to right; every other character stays. */
  function RewriteFrom(q: string, n: nat): string {
    if q == "" then ""
    else if q[0] == '?' then "$" + Decimal.Digits(n) + RewriteFrom(q[1..], n + 1)
    else [q[0]] + RewriteFrom(q[1..], n)
  }

  function CountMarks(q: string): nat {
    if q == "" then 0 else (if q[0] == '?' then 1 else 0) + CountMarks(q[1..])
  }

  lemma {:induction false} CountMarksAppend(a: string, b: string)
    ensures CountMarks(a + b) == CountMarks(a) + CountMarks(b)
  {
    if a == "" {
      assert a + b == b;
    } else {
      assert (a + b)[1..] == a[1..] + b;
      CountMarksAppend(a[1..], b);
    }
  }

  /** The byte loop, with its counter starting at 1. */
  method Rewrite(q: string) returns (b: string)
    ensures b == RewriteFrom(q, 1)
  {
    b := "";
    var n: nat := 1;
    for i := 0 to |q|
      invariant n >= 1 && b + RewriteFrom(q[i..], n) == RewriteFrom(q, 1)
    {
      RewriteStep(b, q, i, n);
      if q[i] == '?' {
        b := b + "$" + Decimal.Digits(n);
        n := n + 1;
      } else {
        b := b + [q[i]];
      }
    }
  }

  lemma RewriteStep(b: string, q: string, i: nat, n: nat)
    requires i < |q|
    ensures b + RewriteFrom(q[i..], n)
            == if q[i] == '?' then b + "$" + Decimal.Digits(n) + RewriteFrom(q[i + 1..], n + 1)
                else b + [q[i]] + RewriteFrom(q[i + 1..], n)
  {
    assert q[i..][0] == q[i] && q[i..][1..] == q[i + 1..];
  }

  // ── placeholders and tokens ──────────────────────────────────────────────────

  lemma {:induction false} LexMarks(s: string)
    ensures Marks(Lex(s)) == CountMarks(s)
    decreases |s|
  {
    if s != "" {
      var n := FirstToken(s).length;
      LexMarks(s[n..]);
      FirstTokenMarks(s);
      LexStep(s);
      MarksAppend(FirstToken(s).tokens, Lex(s[n..]));
      MarksCut(s, n);
    }
  }

  lemma MarksCut(s: string, n: nat)
    requires n <= |s|
    ensures CountMarks(s) == CountMarks(s[..n]) + CountMarks(s[n..])
  {
    CountMarksAppend(s[..n], s[n..]);
    assert s == s[..n] + s[n..];
  }

  lemma FirstTokenMarks(s: string)
    requires s != ""
    ensures Marks(FirstToken(s).tokens) == CountMarks(s[..FirstToken(s).length])
  {
    var n := FirstToken(s).length;
    if s[0] == '?' {
      FirstMark(s, SpanDigits(s[1..]));
      assert s[..n][0] == '?' && s[..n][1..] == s[1..n];
      assert forall i :: 1 <= i < n ==> s[i] == s[1..][i - 1];
      OneMark(s[..n]);
    } else {
      assert forall i :: 0 <= i < n ==> s[i] != '?';
      NoMarksIn(s[..n]);
    }
  }

  lemma OneMark(s: string)
    requires s != "" && s[0] == '?' && '?' !in s[1..]
    ensures CountMarks(s) == 1
  {
    NoMarksIn(s[1..]);
  }

  lemma {:induction false} NoMarksIn(s: string)
    requires '?' !in s
    ensures CountMarks(s) == 0
  {
    if s != "" {
      NoMarksIn(s[1..]);
    }
  }

  lemma NoDollarIn(q: string, k: nat)
    requires k <= |q| && '$' !in q[..k] && NoDollar(q[k..])
    ensures NoDollar(q)
  {
    assert q == q[..k] + q[k..];
  }

  lemma {:induction false} TokensTell(q: string)
    requires forall t :: t in Lex(q) ==> !t.Dollar? && (t.Mark? ==> t == BARE)
    ensures DigitFree(q) && NoDollar(q)
    decreases |q|
  {
    if q != "" {
      var k := FirstToken(q).length;
      LexStep(q);
      assert forall t :: t in FirstToken(q).tokens || t in Lex(q[k..]) ==> t in Lex(q);
      FirstTokenTells(q);
      TokensTell(q[k..]);
      DigitFreeTail(q, k);
      NoDollarIn(q, k);
    }
  }

  /** A bare mark as first token is followed by no digit, and no other token holds `?` or `$`. */
  lemma FirstTokenTells(q: string)
    requires q != "" && forall t :: t in FirstToken(q).tokens ==> !t.Dollar? && (t.Mark? ==> t == BARE)
    ensures var k := FirstToken(q).length;
            && '$' !in q[..k]
            && forall i :: 0 <= i < k && i < |q| - 1 && q[i] == '?' ==> !Decimal.IsDigit(q[i + 1])
  {
    if q[0] == '?' {
      var n := SpanDigits(q[1..]);
      FirstMark(q, n);
      assert Mark(q[1..1 + n]) in FirstToken(q).tokens;
      assert q[1..1 + n] == "";
    } else if q[0] == '$' {
      DollarFirst(q);
    }
  }

  lemma DollarFirst(q: string)
    requires q != "" && q[0] == '$'
    ensures exists t :: t in FirstToken(q).tokens && t.Dollar?
  {
    var n := SpanDigits(q[1..]);
    FirstDollar(q, n);
    assert Dollar(q[1..1 + n]) in FirstToken(q).tokens;
  }

  // ── the two ways of binding agree ────────────────────────────────────────────

  /** No placeholder is directly followed by a digit. */
  predicate DigitFree(q: string) {
    forall i :: 0 <= i < |q| - 1 && q[i] == '?' ==> !Decimal.IsDigit(q[i + 1])
  }

  predicate NoDollar(q: string) { '$' !in q }

  lemma {:induction false} RewriteKeepsPlain(q: string, k: nat, n: nat)
    requires k <= |q| && forall i :: 0 <= i < k ==> q[i] != '?'
    ensures RewriteFrom(q, n) == q[..k] + RewriteFrom(q[k..], n)
  {
    if k > 0 {
      var rest := q[1..];
      assert forall i :: 0 <= i < k - 1 ==> rest[i] == q[i + 1];
      RewriteKeepsPlain(rest, k - 1, n);
      assert rest[k - 1..] == q[k..] && q[..k] == [q[0]] + rest[..k - 1];
    }
  }

  /** What a rewritten text starts with: the character it had, or a dollar for a mark. */
  lemma RewriteHead(q: string, n: nat)
    requires q != ""
    ensures RewriteFrom(q, n) != "" && RewriteFrom(q, n)[0] == if q[0] == '?' then '$' else q[0]
  {
  }

  /** The first token of text that starts with neither a mark nor a dollar sign. */
  lemma PlainHead(q: string)
    requires q != "" && q[0] != '?' && NoDollar(q)
    ensures var k := FirstToken(q).length;
            && (forall i :: 0 <= i < k ==> q[i] != '?')
            && |FirstToken(q).tokens| <= 1 && (forall t :: t in FirstToken(q).tokens ==> !t.Mark? && !t.Dollar?)
  {
    assert q[0] != '$' by { assert q[0] in q; }
  }

  /** A first token is cut off by whatever starts like what followed it. */
  lemma TokenStays(head: string, a: string, b: string)
    requires head != "" && FirstToken(head + a).length == |head| && Separate(head, a) && Separate(head, b)
    ensures FirstToken(head + b) == FirstToken(head + a)
  {
    FirstTokenStable(head, a);
    FirstTokenStable(head, b);
  }

  /** A mark and the dollar sign that replaces it both end a token of any other kind. */
  lemma SeamHolds(q: string, k: nat, n: nat)
    requires q != "" && q[0] != '?' && NoDollar(q) && k == FirstToken(q).length
    ensures Separate(q[..k], q[k..]) && Separate(q[..k], RewriteFrom(q[k..], n))
  {
    PlainHead(q);
    assert q[k - 1] != '$' by { assert q[k - 1] in q; }
    if q[k..] != "" {
      RewriteHead(q[k..], n);
    }
  }

  lemma PlainToken(q: string, n: nat)
    requires q != "" && q[0] != '?' && NoDollar(q)
    ensures var k := FirstToken(q).length; var r := RewriteFrom(q, n);
            && r != "" && FirstToken(r) == FirstToken(q) && r[k..] == RewriteFrom(q[k..], n)
            && |FirstToken(q).tokens| <= 1 && (forall t :: t in FirstToken(q).tokens ==> !t.Mark? && !t.Dollar?)
  {
    var k := FirstToken(q).length;
    PlainHead(q);
    RewriteKeepsPlain(q, k, n);
    SeamHolds(q, k, n);
    assert q[..k] + q[k..] == q;
    TokenStays(q[..k], q[k..], RewriteFrom(q[k..], n));
  }

  /** A dollar sign and digits read as one token when no further digit follows. */
  lemma DollarToken(r: string, digits: string, rest: string)
    requires Decimal.AllDigits(digits) && (rest == "" || !Decimal.IsDigit(rest[0]))
    requires r != "" && r[0] == '$' && r[1..] == digits + rest
    ensures Lex(r) == [Dollar(digits)] + Lex(rest)
  {
    SpanUnique(Decimal.IsDigit, digits + rest, |digits|);
    FirstDollar(r, |digits|);
    LexStep(r);
    assert r[1..1 + |digits|] == r[1..][..|digits|] == digits;
    assert r[1 + |digits|..] == r[1..][|digits|..] == rest;
  }

  lemma RewriteMark(q: string, n: nat)
    requires q != "" && q[0] == '?'
    ensures var r := RewriteFrom(q, n);
            r != "" && r[0] == '$' && r[1..] == Decimal.Digits(n) + RewriteFrom(q[1..], n + 1)
  {
    var tail := Decimal.Digits(n) + RewriteFrom(q[1..], n + 1);
    assert RewriteFrom(q, n) == "$" + tail;
  }

  lemma MarkToken(q: string, n: nat)
    requires q != "" && q[0] == '?' && (|q| == 1 || !Decimal.IsDigit(q[1]))
    ensures Lex(q) == [BARE] + Lex(q[1..])
    ensures Lex(RewriteFrom(q, n)) == [Dollar(Decimal.Digits(n))] + Lex(RewriteFrom(q[1..], n + 1))
  {
    FirstBare(q);
    LexStep(q);
    if |q| > 1 {
      RewriteHead(q[1..], n + 1);
    }
    RewriteMark(q, n);
    DollarToken(RewriteFrom(q, n), Decimal.Digits(n), RewriteFrom(q[1..], n + 1));
  }

  /** The digits after a placeholder, as they are before and after rewriting. */
  lemma DigitsKept(q: string, n: nat)
    requires q != "" && q[0] == '?'
    ensures var k := SpanDigits(q[1..]); var digits := q[1..1 + k]; var rest := RewriteFrom(q[1..], n + 1);
            && Decimal.AllDigits(digits) && |digits| == k <= |rest| && rest[..k] == digits
            && (k < |rest| ==> !Decimal.IsDigit(rest[k]))
  {
    var s := q[1..];
    var k := SpanDigits(s);
    RewriteKeepsPlain(s, k, n + 1);
    assert s[..k] == q[1..1 + k];
    if s[k..] != "" {
      RewriteHead(s[k..], n + 1);
    }
  }

  /** A digit right after a placeholder makes SQLite take the number it spells, and Postgres
      the rewritten number with that one written behind it: never the same argument. */
  lemma DigitRunsOn(q: string, n: nat)
    requires |q| > 1 && q[0] == '?' && Decimal.IsDigit(q[1]) && n > 0
    ensures Numbered(Lex(RewriteFrom(q, n))) != Sqlite(Lex(q), n - 1)
  {
    var k := SpanDigits(q[1..]);
    var digits, own := Decimal.Digits(n), q[1..1 + k];
    DigitsKept(q, n);
    RewriteMark(q, n);
    RunOn(RewriteFrom(q, n), digits, own, RewriteFrom(q[1..], n + 1));
    Decimal.DigitsRoundTrip(n);
    LeadingDigitsCount(digits, own);
    NumberTaken(q, n, own);
  }

  lemma NumberTaken(q: string, n: nat, own: string)
    requires q != "" && q[0] == '?' && n > 0 && own == q[1..1 + SpanDigits(q[1..])] && own != ""
             && Decimal.AllDigits(own)
    ensures Sqlite(Lex(q), n - 1) != [] && Sqlite(Lex(q), n - 1)[0] == Param(Decimal.ParseDigits(own) - 1)
  {
    FirstMark(q, SpanDigits(q[1..]));
    LexStep(q);
  }

  /** The digits after a dollar sign are read as far as they go. */
  lemma RunOn(r: string, digits: string, own: string, rest: string)
    requires Decimal.AllDigits(digits) && digits != "" && Decimal.AllDigits(own)
    requires |own| <= |rest| && rest[..|own|] == own && (|own| < |rest| ==> !Decimal.IsDigit(rest[|own|]))
    requires r != "" && r[0] == '$' && r[1..] == digits + rest
    ensures Numbered(Lex(r)) != [] && Numbered(Lex(r))[0] == Param(Decimal.ParseDigits(digits + own) - 1)
  {
    var all, after := digits + own, rest[|own|..];
    DigitsRunOn(digits, own, rest);
    DollarFirstToken(r, all, after);
    NumberedFirst(Lex(r), all);
  }

  lemma DollarFirstToken(r: string, digits: string, rest: string)
    requires Decimal.AllDigits(digits) && (rest == "" || !Decimal.IsDigit(rest[0]))
    requires r != "" && r[0] == '$' && r[1..] == digits + rest
    ensures Lex(r) != [] && Lex(r)[0] == Dollar(digits)
  {
    DollarToken(r, digits, rest);
  }

  lemma DigitsRunOn(digits: string, own: string, rest: string)
    requires Decimal.AllDigits(digits) && Decimal.AllDigits(own) && |own| <= |rest| && rest[..|own|] == own
    ensures digits + rest == digits + own + rest[|own|..] && Decimal.AllDigits(digits + own)
    ensures |own| < |rest| ==> rest[|own|..][0] == rest[|own|]
  {
  }

  lemma NumberedFirst(ts: seq<Token>, digits: string)
    requires ts != [] && ts[0] == Dollar(digits) && Decimal.AllDigits(digits)
    ensures Numbered(ts) != [] && Numbered(ts)[0] == Param(Decimal.ParseDigits(digits) - 1)
  {
  }

  /** Digits written in front of a number make it larger. */
  lemma {:induction false} LeadingDigitsCount(a: string, b: string)
    requires Decimal.AllDigits(a) && Decimal.AllDigits(b) && Decimal.ParseDigits(a) > 0
    ensures Decimal.ParseDigits(a + b) > Decimal.ParseDigits(b)
    decreases |b|
  {
    if b == "" {
      assert a + b == a;
    } else {
      var c := b[..|b| - 1];
      LeadingDigitsCount(a, c);
      assert (a + b)[..|a + b| - 1] == a + c && (a + b)[|a + b| - 1] == b[|b| - 1];
    }
  }

  /** Both bindings read q alike, the first placeholder being number n. */
  predicate ReadAlike(q: string, n: nat)
    requires n > 0
  {
    SameReading(Lex(RewriteFrom(q, n)), Lex(q), n)
  }

  predicate SameReading(rewritten: seq<Token>, original: seq<Token>, n: nat)
    requires n > 0
  {
    Numbered(rewritten) == Sqlite(original, n - 1)
  }

  lemma SharedTokens(ts: seq<Token>, a: seq<Token>, b: seq<Token>, n: nat)
    requires n > 0 && |ts| <= 1 && forall t :: t in ts ==> !t.Mark? && !t.Dollar?
    ensures SameReading(ts + a, ts + b, n) <==> SameReading(a, b, n)
  {
    NumberedPlain(ts, a);
    SqlitePlain(ts, b, n - 1);
    SameTail(ts, Numbered(a), Sqlite(b, n - 1));
  }

  lemma MarkCase(q: string, n: nat)
    requires q != "" && q[0] == '?' && n > 0
    ensures ReadAlike(q, n) <==> (|q| == 1 || !Decimal.IsDigit(q[1])) && ReadAlike(q[1..], n + 1)
    ensures DigitFree(q) <==> (|q| == 1 || !Decimal.IsDigit(q[1])) && DigitFree(q[1..])
  {
    if |q| > 1 && Decimal.IsDigit(q[1]) {
      DigitRunsOn(q, n);
    } else {
      MarkToken(q, n);
      DigitFreeTail(q, 1);
      OneMarkMore(Lex(RewriteFrom(q[1..], n + 1)), Lex(q[1..]), n);
    }
  }

  lemma OneMarkMore(rewritten: seq<Token>, original: seq<Token>, n: nat)
    requires n > 0
    ensures SameReading([Dollar(Decimal.Digits(n))] + rewritten, [BARE] + original, n)
            <==> SameReading(rewritten, original, n + 1)
  {
    Decimal.DigitsRoundTrip(n);
    assert ([Dollar(Decimal.Digits(n))] + rewritten)[1..] == rewritten && ([BARE] + original)[1..] == original;
    assert Numbered([Dollar(Decimal.Digits(n))] + rewritten) == [Param(n - 1)] + Numbered(rewritten);
    assert Sqlite([BARE] + original, n - 1) == [Param(n - 1)] + Sqlite(original, n);
    SameTail([Param(n - 1)], Numbered(rewritten), Sqlite(original, n));
  }

  lemma SameTail(head: seq<Token>, a: seq<Token>, b: seq<Token>)
    ensures head + a == head + b <==> a == b
  {
    if head + a == head + b {
      assert a == (head + a)[|head|..] && b == (head + b)[|head|..];
    }
  }

  lemma PlainCase(q: string, n: nat)
    requires q != "" && q[0] != '?' && n > 0 && NoDollar(q)
    ensures var k := FirstToken(q).length;
            && (ReadAlike(q, n) <==> ReadAlike(q[k..], n))
            && (DigitFree(q) <==> DigitFree(q[k..]))
  {
    var k := FirstToken(q).length;
    PlainReads(q, n);
    assert forall i :: 0 <= i < k ==> q[i] != '?';
    DigitFreeTail(q, k);
  }

  lemma LexPlain(q: string, n: nat)
    requires q != "" && q[0] != '?' && NoDollar(q)
    ensures var ts := FirstToken(q).tokens; var rest := q[FirstToken(q).length..];
            && Lex(q) == ts + Lex(rest) && Lex(RewriteFrom(q, n)) == ts + Lex(RewriteFrom(rest, n))
            && |ts| <= 1 && (forall t :: t in ts ==> !t.Mark? && !t.Dollar?)
  {
    PlainToken(q, n);
  }

  lemma PlainReads(q: string, n: nat)
    requires q != "" && q[0] != '?' && n > 0 && NoDollar(q)
    ensures ReadAlike(q, n) <==> ReadAlike(q[FirstToken(q).length..], n)
  {
    var rest := q[FirstToken(q).length..];
    LexPlain(q, n);
    SharedTokens(FirstToken(q).tokens, Lex(RewriteFrom(rest, n)), Lex(rest), n);
  }

  /** SQLite reading the text and Postgres reading the rewritten text bind alike exactly when
      no placeholder is directly followed by a digit; every other token is untouched. */
  lemma {:induction false} RewriteFaithful(q: string, n: nat)
    requires NoDollar(q) && n > 0
    ensures ReadAlike(q, n) <==> DigitFree(q)
    decreases |q|
  {
    if q != "" {
      if q[0] == '?' {
        MarkCase(q, n);
        RewriteFaithful(q[1..], n + 1);
      } else {
        PlainCase(q, n);
        RewriteFaithful(q[FirstToken(q).length..], n);
      }
    }
  }

  /** And then both bind in position: the k-th `?` means argument k. */
  lemma DigitFreeInPosition(q: string, next: nat)
    requires DigitFree(q)
    ensures Sqlite(Lex(q), next) == Positional(Lex(q), next)
  {
    DigitFreeBare(q);
    BareInPlace(Lex(q), next);
    SqliteInPositionIff(Lex(q), next);
  }

  lemma {:induction false} DigitFreeBare(q: string)
    requires DigitFree(q)
    ensures BareMarks(Lex(q))
    decreases |q|
  {
    if q != "" {
      var k := FirstToken(q).length;
      FirstMarkBare(q);
      DigitFreeTail(q, k);
      DigitFreeBare(q[k..]);
    }
  }

  lemma FirstMarkBare(q: string)
    requires q != "" && DigitFree(q)
    ensures BareMarks(FirstToken(q).tokens)
  {
    if q[0] == '?' {
      FirstBare(q);
    }
  }

  lemma DigitFreeTail(q: string, k: nat)
    requires k <= |q|
    requires forall i :: 0 <= i < k && i < |q| - 1 && q[i] == '?' ==> !Decimal.IsDigit(q[i + 1])
    ensures DigitFree(q) <==> DigitFree(q[k..])
  {
    var t := q[k..];
    assert forall i :: 0 <= i < |t| ==> t[i] == q[k + i];
    if DigitFree(t) {
      forall i | 0 <= i < |q| - 1 && q[i] == '?' ensures !Decimal.IsDigit(q[i + 1]) {
        if i >= k {
          assert t[i - k] == '?' && t[i - k + 1] == q[i + 1];
        }
      }
    }
  }

  lemma NumberedPlain(ts: seq<Token>, more: seq<Token>)
    requires |ts| <= 1 && forall t :: t in ts ==> !t.Dollar?
    ensures Numbered(ts + more) == ts + Numbered(more)
  {
    if ts == [] {
      assert ts + more == more;
    } else {
      assert (ts + more)[0] == ts[0] && (ts + more)[1..] == more && ts[0] in ts;
    }
  }

  lemma SqlitePlain(ts: seq<Token>, more: seq<Token>, next: nat)
    requires |ts| <= 1 && forall t :: t in ts ==> !t.Mark?
    ensures Sqlite(ts + more, next) == ts + Sqlite(more, next)
  {
    if ts == [] {
      assert ts + more == more;
    } else {
      assert (ts + more)[0] == ts[0] && (ts + more)[1..] == more && ts[0] in ts;
    }
  }
}
