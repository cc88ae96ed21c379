/** Sets of names listed in lexicographic order, as `sort.Strings` lists map keys. */
module Sorting {

  predicate Leq(a: string, b: string) {
    a == "" || (b != "" && (a[0] < b[0] || (a[0] == b[0] && Leq(a[1..], b[1..]))))
  }

  lemma {:induction false} LeqTotal(a: string, b: string)
    ensures Leq(a, b) || Leq(b, a)
    ensures Leq(a, b) && Leq(b, a) ==> a == b
  {
    if a != "" && b != "" && a[0] == b[0] {
      LeqTotal(a[1..], b[1..]);
      assert a == [a[0]] + a[1..] && b == [b[0]] + b[1..];
    }
  }

  lemma {:induction false} LeqTransitive(a: string, b: string, c: string)
    requires Leq(a, b) && Leq(b, c)
    ensures Leq(a, c)
  {
    if a != "" && a[0] == b[0] && b[0] == c[0] {
      LeqTransitive(a[1..], b[1..], c[1..]);
    }
  }

  ghost predicate IsLeast(m: string, s: set<string>) { m in s && forall x :: x in s ==> Leq(m, x) }

  lemma {:induction false} LeastExists(s: set<string>)
    requires s != {}
    ensures exists m :: IsLeast(m, s)
  {
    var x :| x in s;
    var rest := s - {x};
    LeqTotal(x, x);
    if rest == {} {
      assert s == {x};
      assert IsLeast(x, s);
    } else {
      LeastExists(rest);
      var m :| IsLeast(m, rest);
      LeqTotal(m, x);
      if Leq(m, x) {
        assert IsLeast(m, s);
      } else {
        forall y | y in s ensures Leq(x, y) {
          if y in rest {
            LeqTransitive(x, m, y);
          }
        }
        assert IsLeast(x, s);
      }
    }
  }

  ghost function Sorted(s: set<string>): (r: seq<string>)
    ensures forall x :: x in r <==> x in s
  {
    if s == {} then []
    else
      LeastExists(s);
      var m :| IsLeast(m, s);
      [m] + Sorted(s - {m})
  }

  lemma LeastUnique(m: string, n: string, s: set<string>)
    requires IsLeast(m, s) && IsLeast(n, s)
    ensures m == n
  {
    LeqTotal(m, n);
  }

  method SmallestOf(left: set<string>) returns (m: string)
    requires left != {}
    ensures IsLeast(m, left)
  {
    m :| m in left;
    var rest := left - {m};
    LeqTotal(m, m);
    while rest != {}
      invariant rest <= left && m in left
      invariant forall x :: x in left && x !in rest ==> Leq(m, x)
    {
      var x :| x in rest;
      LeqTotal(m, x);
      if !Leq(m, x) {
        forall y | y in left && y !in rest ensures Leq(x, y) {
          LeqTransitive(x, m, y);
        }
        LeqTotal(x, x);
        m := x;
      }
      rest := rest - {x};
    }
  }

  /** The smallest name left, again and again. */
  method SortKeys(s: set<string>) returns (r: seq<string>)
    ensures r == Sorted(s)
  {
    r := [];
    var left := s;
    while left != {}
      invariant left <= s
      invariant r + Sorted(left) == Sorted(s)
    {
      var m := SmallestOf(left);
      LeastNext(r, left, m);
      r := r + [m];
      left := left - {m};
    }
  }

  lemma LeastNext(r: seq<string>, left: set<string>, m: string)
    requires IsLeast(m, left)
    ensures r + [m] + Sorted(left - {m}) == r + Sorted(left)
  {
    LeastOf(left, m);
  }

  lemma LeastOf(s: set<string>, m: string)
    requires IsLeast(m, s)
    ensures Sorted(s) == [m] + Sorted(s - {m})
  {
    var n :| IsLeast(n, s) && Sorted(s) == [n] + Sorted(s - {n});
    LeastUnique(m, n, s);
  }
}
