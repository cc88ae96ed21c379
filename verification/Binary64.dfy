/** The numbers a JSON literal can arrive as: IEEE 754-2019 binary64 values.
    Only what row keys need is modelled: which reals are representable, what rounding
    a literal to the nearest one means (section 4.3.1, ties to even), and the value
    of a double, with negative zero kept apart because it prints differently. */
module Binary64 {
  import opened Basics
  import Decimal

  const TWO53: int := 9007199254740992
  const MAX_EXPONENT := 971
  const MIN_EXPONENT := 1074

  datatype Double = NegZero | Fin(value: real) {
    function Value(): real { if NegZero? then 0.0 else value }
  }

  function Pow2(k: nat): (p: int)
    ensures p >= 1
  {
    if k == 0 then 1 else 2 * Pow2(k - 1)
  }

  function Abs(x: real): real { if x < 0.0 then -x else x }

  /** x == m * 2^k or x == m / 2^k for a 53-bit significand m. */
  ghost predicate Scaled(x: real, m: int, k: nat) {
    -TWO53 < m < TWO53 &&
    ((k <= MAX_EXPONENT && x == (m * Pow2(k)) as real) ||
     (k <= MIN_EXPONENT && x * Pow2(k) as real == m as real))
  }

  ghost predicate Representable(x: real) { exists m: int, k: nat :: Scaled(x, m, k) }

  /** Normalised with an even significand: the winner of a tie. */
  ghost predicate EvenAt(x: real, m: int, k: nat) {
    Scaled(x, m, k) && (m >= TWO53 / 2 || m <= -(TWO53 / 2)) && m % 2 == 0
  }

  ghost predicate EvenSignificand(x: real) { exists m: int, k: nat :: EvenAt(x, m, k) }

  /** d is the double nearest to x; on a tie the one with the even significand. */
  ghost predicate RoundsTo(x: real, d: real) {
    && Representable(d)
    && (forall y: real :: Representable(y) ==> Abs(d - x) <= Abs(y - x))
    && (forall y: real :: Representable(y) && y != d && Abs(d - x) == Abs(y - x) ==> EvenSignificand(d))
  }

  lemma IntegersBelow53AreDoubles(n: int)
    requires -TWO53 < n < TWO53
    ensures Representable(n as real)
  {
    assert Pow2(0) == 1;
    assert Scaled(n as real, n, 0);
  }

  lemma TwoTo53IsADouble()
    ensures Representable(TWO53 as real) && Representable(-TWO53 as real)
  {
    assert Pow2(1) == 2 * Pow2(0) == 2;
    assert Scaled(TWO53 as real, TWO53 / 2, 1);
    assert Scaled(-TWO53 as real, -(TWO53 / 2), 1);
  }

  /** The range test a key goes through: magnitude below 2^53. */
  predicate Exact(d: real) { Abs(d) < TWO53 as real }

  /** Whatever integer literal was sent, if the double it arrived as passes the range
      test then it is the literal itself; and every literal inside the range passes. */
  lemma AcceptedLiteralIsExact(n: int, d: real)
    requires RoundsTo(n as real, d)
    ensures Exact(d) <==> -TWO53 < n < TWO53
    ensures Exact(d) ==> d == n as real
  {
    TwoTo53IsADouble();
    if -TWO53 < n < TWO53 {
      IntegersBelow53AreDoubles(n);
    }
  }

  // ── literals with a fraction ─────────────────────────────────────────────────

  lemma Mirrored(x: real, m: int, k: nat)
    requires Scaled(x, m, k)
    ensures Scaled(-x, -m, k)
  {
    assert (-x) * Pow2(k) as real == -(x * Pow2(k) as real);
    assert (-m) * Pow2(k) == -(m * Pow2(k));
  }

  lemma RepresentableBothWays(y: real)
    ensures Representable(y) <==> Representable(-y)
    ensures EvenSignificand(y) ==> EvenSignificand(-y)
  {
    if m: int, k: nat :| Scaled(y, m, k) {
      Mirrored(y, m, k);
    }
    var z := -y;
    if m: int, k: nat :| Scaled(z, m, k) {
      Mirrored(z, m, k);
    }
    if m: int, k: nat :| EvenAt(y, m, k) {
      Mirrored(y, m, k);
      assert EvenAt(-y, -m, k);
    }
  }

  lemma RoundsMirrored(x: real, d: real)
    requires RoundsTo(x, d)
    ensures RoundsTo(-x, -d)
  {
    RepresentableBothWays(d);
    forall y: real | Representable(y)
      ensures Abs(-d - -x) <= Abs(y - -x)
      ensures y != -d && Abs(-d - -x) == Abs(y - -x) ==> EvenSignificand(-d)
    {
      RepresentableBothWays(y);
      assert Abs(-y - x) == Abs(y - -x);
    }
  }

  /** A fraction with a denominator of at least two stays below half of 2^53. */
  lemma HalvedIsSmall(y: real, m: int, k: nat)
    requires k > 0 && m < TWO53 && y >= 0.0 && y * Pow2(k) as real == m as real
    ensures y < (TWO53 / 2) as real
  {
    assert Pow2(k) >= 2;
    assert y * (Pow2(k) as real - 2.0) >= 0.0;
  }

  /** Between 2^53 - 1 and 2^53 there is no double, and the lower of the two is odd. */
  lemma NoDoubleJustBelow(y: real, m: int, k: nat)
    requires Scaled(y, m, k) && (TWO53 - 1) as real <= y < TWO53 as real
    ensures y == (TWO53 - 1) as real && m % 2 == 1
  {
    if k == 0 {
      assert Pow2(0) == 1;
    } else if y * Pow2(k) as real == m as real {
      HalvedIsSmall(y, m, k);
      assert false;
    } else {
      EvenProduct(m, k);
    }
  }

  lemma LastOddIsOdd()
    ensures !EvenSignificand((TWO53 - 1) as real)
  {
    var y := (TWO53 - 1) as real;
    if m: int, k: nat :| EvenAt(y, m, k) {
      NoDoubleJustBelow(y, m, k);
    }
  }

  lemma BelowIff(x: real, d: real)
    requires RoundsTo(x, d)
    ensures d < TWO53 as real <==> x < TWO53 as real - 0.5
  {
    TwoTo53IsADouble();
    IntegersBelow53AreDoubles(TWO53 - 1);
    if d < TWO53 as real && x >= TWO53 as real - 0.5 {
      assert (TWO53 - 1) as real <= d;
      var m: int, k: nat :| Scaled(d, m, k);
      NoDoubleJustBelow(d, m, k);
      LastOddIsOdd();
      assert false;
    }
  }

  /** Any number literal: the double it arrives as passes the range test iff the literal lies
      below 2^53 by more than a half. */
  lemma AcceptedRange(x: real, d: real)
    requires RoundsTo(x, d)
    ensures Exact(d) <==> Abs(x) < TWO53 as real - 0.5
  {
    BelowIff(x, d);
    RoundsMirrored(x, d);
    BelowIff(-x, -d);
  }

  /** Any number literal: if it arrives as a whole double that passes the range test, the key
      is an integer nearest to the literal. */
  lemma AcceptedLiteralIsNearest(x: real, d: real, n: int)
    requires RoundsTo(x, d) && Exact(d) && IsWhole(d)
    ensures Abs(d.Floor as real - x) <= Abs(n as real - x)
  {
    TwoTo53IsADouble();
    if -TWO53 < n < TWO53 {
      IntegersBelow53AreDoubles(n);
    }
  }

  /** The bound is tight: 2^53 + 1 arrives as 2^53, which the test refuses. */
  lemma FirstInexactInteger()
    ensures RoundsTo((TWO53 + 1) as real, TWO53 as real)
    ensures !Exact(TWO53 as real)
  {
    TwoTo53IsADouble();
    assert Pow2(1) == 2 * Pow2(0) == 2;
    assert EvenAt(TWO53 as real, TWO53 / 2, 1);
    forall y: real | Representable(y)
      ensures Abs(TWO53 as real - (TWO53 + 1) as real) <= Abs(y - (TWO53 + 1) as real)
    {
      NoDoubleNearOdd(y);
    }
  }

  /** Doubles at and above 2^53 are even integers. */
  lemma NoDoubleNearOdd(y: real)
    requires Representable(y)
    ensures !(TWO53 as real < y < (TWO53 + 2) as real)
  {
    var m, k :| Scaled(y, m, k);
    var p := Pow2(k);
    if TWO53 as real < y && y * p as real == m as real {
      QuotientBelow(y, p, m);
    } else if k > 0 {
      EvenProduct(m, k);
    }
  }

  lemma EvenProduct(m: int, k: nat)
    requires k > 0
    ensures (m * Pow2(k)) % 2 == 0
  {
    var q := m * Pow2(k - 1);
    assert m * Pow2(k) == 2 * q;
  }

  lemma QuotientBelow(y: real, p: int, m: int)
    requires p >= 1 && y > 0.0 && y * p as real == m as real
    ensures y <= m as real
  {
    assert y * (p as real - 1.0) >= 0.0;
  }

  // ── rendering ────────────────────────────────────────────────────────────────

  predicate IsWhole(d: real) { d.Floor as real == d }

  /** `FormatFloat(k, 'f', -1, 64)` of a whole double inside the exact range: its
      digits, with a sign that even a zero keeps. */
  function RenderWhole(d: Double): string
    requires IsWhole(d.Value()) && Exact(d.Value())
  {
    if d.NegZero? then "-0" else Decimal.Render(d.value.Floor)
  }

  /** Two accepted doubles print alike iff they are the same double. As numbers the
      only pair this separates is 0 and -0. */
  lemma RenderWholeInjective(a: Double, b: Double)
    requires IsWhole(a.Value()) && Exact(a.Value()) && IsWhole(b.Value()) && Exact(b.Value())
    ensures RenderWhole(a) == RenderWhole(b) <==> a == b
    ensures RenderWhole(a) == RenderWhole(b) <==> a.Value() == b.Value() && a.NegZero? == b.NegZero?
  {
    if a.Fin? && b.Fin? {
      if RenderWhole(a) == RenderWhole(b) {
        Decimal.RenderInjective(a.value.Floor, b.value.Floor);
      }
    } else if a.Fin? {
      Decimal.NegativeZeroText(a.value.Floor);
    } else if b.Fin? {
      Decimal.NegativeZeroText(b.value.Floor);
    }
  }

  /** End to end: two integer literals that both arrive as accepted doubles share a
      row key iff they denote the same integer. */
  lemma DistinctLiteralsDistinctKeys(m: int, n: int, dm: real, dn: real)
    requires RoundsTo(m as real, dm) && RoundsTo(n as real, dn)
    requires Exact(dm) && Exact(dn)
    ensures IsWhole(dm) && IsWhole(dn)
    ensures RenderWhole(Fin(dm)) == RenderWhole(Fin(dn)) <==> m == n
    ensures Decimal.Parse(RenderWhole(Fin(dm))) == Some(m)
  {
    AcceptedLiteralIsExact(m, dm);
    AcceptedLiteralIsExact(n, dn);
    RenderWholeInjective(Fin(dm), Fin(dn));
    Decimal.RenderRoundTrip(m);
  }
}
