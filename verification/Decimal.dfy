/** Decimal rendering of integers, as Go's `strconv.Itoa`, `FormatInt` and `%d` print
    them, with the parser that reads the digits back. */
module Decimal {
  import opened Basics

  predicate IsDigit(c: char) { '0' <= c <= '9' }

  predicate AllDigits(s: string) { forall i :: 0 <= i < |s| ==> IsDigit(s[i]) }

  function DigitChar(d: nat): (c: char)
    requires d < 10
    ensures IsDigit(c) && DigitValue(c) == d
  {
    '0' + d as char
  }

  function DigitValue(c: char): (d: nat)
    requires IsDigit(c)
    ensures d < 10
  {
    c as int - '0' as int
  }

  function Digits(n: nat): (s: string)
    ensures |s| > 0 && AllDigits(s)
  {
    if n < 10 then [DigitChar(n)] else Digits(n / 10) + [DigitChar(n % 10)]
  }

  function ParseDigits(s: string): nat
    requires AllDigits(s)
  {
    if s == "" then 0 else 10 * ParseDigits(s[..|s| - 1]) + DigitValue(s[|s| - 1])
  }

  /** An integer as text, sign first. */
  function Render(n: int): (s: string)
    ensures |s| > 0
    ensures forall i :: 0 <= i < |s| ==> IsDigit(s[i]) || s[i] == '-'
  {
    if n < 0 then "-" + Digits(-n) else Digits(n)
  }

  function Parse(s: string): Option<int> {
    if s != "" && AllDigits(s) then Some(ParseDigits(s))
    else if |s| > 1 && s[0] == '-' && AllDigits(s[1..]) then Some(0 - ParseDigits(s[1..]))
    else None
  }

  lemma {:induction false} DigitsRoundTrip(n: nat)
    ensures ParseDigits(Digits(n)) == n
  {
    if n >= 10 {
      DigitsRoundTrip(n / 10);
      assert Digits(n)[..|Digits(n)| - 1] == Digits(n / 10);
    } else {
      assert Digits(n)[..0] == "";
    }
  }

  /** Reading back a rendered integer gives the integer: two integers never print alike. */
  lemma {:induction false} RenderRoundTrip(n: int)
    ensures Parse(Render(n)) == Some(n)
  {
    if n < 0 {
      DigitsRoundTrip(-n);
      assert Render(n)[1..] == Digits(-n);
      assert !IsDigit(Render(n)[0]);
    } else {
      DigitsRoundTrip(n);
    }
  }

  lemma RenderInjective(a: int, b: int)
    requires Render(a) == Render(b)
    ensures a == b
  {
    RenderRoundTrip(a);
    RenderRoundTrip(b);
  }

  lemma {:induction false} LeadingZero(n: nat)
    requires Digits(n)[0] == '0'
    ensures n == 0
  {
    if n >= 10 {
      LeadingZero(n / 10);
    }
  }

  /** "-0" is the text of no integer. */
  lemma NegativeZeroText(n: int)
    ensures Render(n) != "-0"
  {
    if n < 0 {
      if Digits(-n)[0] == '0' {
        LeadingZero(-n);
      }
      assert Render(n)[1] != '0';
    } else {
      assert IsDigit(Render(n)[0]);
    }
  }
}
