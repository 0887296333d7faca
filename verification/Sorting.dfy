/** `sorted(set(...))` on strings: the increasing list of the members. */
module Sorting {

  /** Lexicographic order by character code. */
  predicate Below(a: string, b: string) {
    a == "" || (b != "" && (a[0] < b[0] || (a[0] == b[0] && Below(a[1..], b[1..]))))
  }

  /** A string is below another one exactly if it is a prefix of it, or has the smaller character in the first place
      where they differ. */
  lemma {:induction false} BelowExactly(a: string, b: string)
    ensures Below(a, b) <==> a <= b || exists k :: FirstSmaller(a, b, k)
  {
    if a != "" && b != "" && a[0] == b[0] {
      BelowExactly(a[1..], b[1..]);
      if k :| FirstSmaller(a[1..], b[1..], k) {
        SmallerLater(a, b, k);
      }
      if k :| FirstSmaller(a, b, k) {
        SmallerLater(a, b, k - 1);
      }
      assert a == [a[0]] + a[1..] && b == [b[0]] + b[1..];
    } else if a != "" && b != "" && a[0] < b[0] {
      assert FirstSmaller(a, b, 0);
    }
  }

  predicate FirstSmaller(a: string, b: string, k: int) {
    0 <= k < |a| && k < |b| && a[..k] == b[..k] && a[k] < b[k]
  }

  lemma SmallerLater(a: string, b: string, k: int)
    requires a != "" && b != "" && a[0] == b[0]
    ensures FirstSmaller(a, b, k + 1) && k >= 0 <==> FirstSmaller(a[1..], b[1..], k)
  {
    if 0 <= k < |a| - 1 && k < |b| - 1 {
      assert a[..k + 1] == [a[0]] + a[1..][..k] && b[..k + 1] == [b[0]] + b[1..][..k];
      assert a[..k + 1][1..] == a[1..][..k] && b[..k + 1][1..] == b[1..][..k];
    }
  }

  lemma BelowReflexive(a: string)
    ensures Below(a, a)
  {
  }

  lemma BelowTotal(a: string, b: string)
    ensures Below(a, b) || Below(b, a)
  {
  }

  lemma BelowTransitive(a: string, b: string, c: string)
    requires Below(a, b) && Below(b, c)
    ensures Below(a, c)
  {
  }

  lemma {:induction false} BelowAntisymmetric(a: string, b: string)
    requires Below(a, b) && Below(b, a)
    ensures a == b
  {
    if a != "" && b != "" {
      BelowAntisymmetric(a[1..], b[1..]);
      assert a == [a[0]] + a[1..] && b == [b[0]] + b[1..];
    }
  }

  predicate Least(m: string, s: set<string>) {
    m in s && forall x :: x in s ==> Below(m, x)
  }

  lemma {:induction false} LeastExists(s: set<string>) returns (m: string)
    requires s != {}
    ensures Least(m, s)
  {
    m :| m in s;
    BelowReflexive(m);
    var rest := s - {m};
    if rest != {} {
      var n := LeastExists(rest);
      BelowTotal(m, n);
      if Below(m, n) {
        forall x | x in s
          ensures Below(m, x)
        {
          if x != m { BelowTransitive(m, n, x); }
        }
      } else {
        forall x | x in s
          ensures Below(n, x)
        {
          if x != m { assert x in rest; }
        }
        m := n;
      }
    } else {
      assert forall x :: x in s ==> x == m || x in rest;
    }
  }

  lemma LeastUnique(s: set<string>)
    ensures forall m, n :: Least(m, s) && Least(n, s) ==> m == n
  {
    forall m, n | Least(m, s) && Least(n, s)
      ensures m == n
    {
      BelowAntisymmetric(m, n);
    }
  }

  predicate Increasing(r: seq<string>) {
    forall i, j :: 0 <= i < j < |r| ==> Below(r[i], r[j]) && r[i] != r[j]
  }

  lemma LeastThere(s: set<string>)
    requires s != {}
    ensures exists m :: Least(m, s)
  {
    var m := LeastExists(s);
  }

  /** `sorted(set(...))`: strictly increasing, with exactly the members of the set. */
  function Sorted(s: set<string>): (r: seq<string>)
    ensures Increasing(r)
    ensures forall x :: x in r <==> x in s
  {
    if s == {} then []
    else
      LeastThere(s);
      LeastUnique(s);
      var m :| Least(m, s);
      var rest := Sorted(s - {m});
      assert forall i :: 0 <= i < |rest| ==> rest[i] in s - {m};
      [m] + rest
  }

  /** There is only one strictly increasing list with given members. */
  lemma {:induction false} IncreasingUnique(a: seq<string>, b: seq<string>)
    requires Increasing(a) && Increasing(b) && forall x :: x in a <==> x in b
    ensures a == b
  {
    assert a != [] ==> a[0] in b;
    assert b != [] ==> b[0] in a;
    if a != [] {
      if a[0] != b[0] {
        BelowAntisymmetric(a[0], b[0]);
      }
      forall x
        ensures x in a[1..] <==> x in b[1..]
      {
        if x in a[1..] { assert x in b && x != a[0]; }
        if x in b[1..] { assert x in a && x != b[0]; }
      }
      IncreasingUnique(a[1..], b[1..]);
      assert a == [a[0]] + a[1..] && b == [b[0]] + b[1..];
    }
  }
}
