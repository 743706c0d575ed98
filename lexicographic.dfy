/**
 * The byte-wise lexicographic order in which std::string keys of a std::map and
 * members of a std::set are enumerated, and the sorted listing of a set of
 * strings built on it.  Because UTF-8 preserves code-point order, comparing
 * Dafny characters gives the same order as comparing the encoded bytes.
 */
module Lexicographic {

  /** `a` sorts no later than `b`: `a` is a prefix of `b`, or at the first
      position where the two differ `a` has the smaller character. */
  predicate Below(a: string, b: string)
    decreases |a|
  {
    |a| == 0 || (|b| != 0 && (a[0] < b[0] || (a[0] == b[0] && Below(a[1..], b[1..]))))
  }

  lemma {:induction false} BelowReflexive(a: string)
    ensures Below(a, a)
    decreases |a|
  {
    if |a| != 0 {
      BelowReflexive(a[1..]);
    }
  }

  lemma {:induction false} BelowAntisymmetric(a: string, b: string)
    requires Below(a, b) && Below(b, a)
    ensures a == b
    decreases |a|
  {
    if |a| != 0 {
      BelowAntisymmetric(a[1..], b[1..]);
      assert a == [a[0]] + a[1..] && b == [b[0]] + b[1..];
    }
  }

  lemma {:induction false} BelowTransitive(a: string, b: string, c: string)
    requires Below(a, b) && Below(b, c)
    ensures Below(a, c)
    decreases |a|
  {
    if |a| != 0 && a[0] == b[0] && b[0] == c[0] {
      BelowTransitive(a[1..], b[1..], c[1..]);
    }
  }

  lemma {:induction false} BelowTotal(a: string, b: string)
    ensures Below(a, b) || Below(b, a)
    decreases |a|
  {
    if |a| != 0 && |b| != 0 && a[0] == b[0] {
      BelowTotal(a[1..], b[1..]);
    }
  }

  lemma BelowAntisymmetricAll()
    ensures forall a: string, b: string :: Below(a, b) && Below(b, a) ==> a == b
  {
    forall a: string, b: string | Below(a, b) && Below(b, a)
      ensures a == b
    {
      BelowAntisymmetric(a, b);
    }
  }

  /** `m` is the member of `s` that sorts first. */
  predicate IsLeast(m: string, s: set<string>) {
    m in s && forall y :: y in s ==> Below(m, y)
  }

  lemma {:induction false} LeastExists(s: set<string>)
    requires s != {}
    ensures exists m :: IsLeast(m, s)
    decreases |s|
  {
    var x :| x in s;
    if s == {x} {
      BelowReflexive(x);
      assert IsLeast(x, s);
    } else {
      LeastExists(s - {x});
      var m :| IsLeast(m, s - {x});
      if Below(m, x) {
        assert IsLeast(m, s);
      } else {
        BelowTotal(m, x);
        forall y | y in s
          ensures Below(x, y)
        {
          if y == x {
            BelowReflexive(x);
          } else {
            BelowTransitive(x, m, y);
          }
        }
        assert IsLeast(x, s);
      }
    }
  }

  /** The first member of a non-empty set in lexicographic order. */
  function Least(s: set<string>): (m: string)
    requires s != {}
    ensures IsLeast(m, s)
  {
    LeastExists(s);
    BelowAntisymmetricAll();
    var m :| IsLeast(m, s);
    m
  }

  /** The least member of a set is unique. */
  lemma LeastUnique(m: string, s: set<string>)
    requires IsLeast(m, s)
    ensures m == Least(s)
  {
    BelowAntisymmetric(m, Least(s));
  }

  /** Every element sorts strictly before every later one. */
  predicate Increasing(r: seq<string>) {
    forall i, j :: 0 <= i < j < |r| ==> Below(r[i], r[j]) && r[i] != r[j]
  }

  /** The members of `s` listed once each, in increasing order: the order in
      which a std::set<std::string> is iterated. */
  function Sorted(s: set<string>): (r: seq<string>)
    ensures |r| == |s|
    ensures forall x :: x in r <==> x in s
    ensures Increasing(r)
    decreases |s|
  {
    if s == {} then []
    else
      var m := Least(s);
      var rest := Sorted(s - {m});
      assert forall j :: 0 <= j < |rest| ==> rest[j] in s - {m};
      PrependIncreasing(m, rest);
      [m] + rest
  }

  lemma PrependIncreasing(m: string, rest: seq<string>)
    requires Increasing(rest)
    requires forall j :: 0 <= j < |rest| ==> Below(m, rest[j]) && m != rest[j]
    ensures Increasing([m] + rest)
  {
    var r := [m] + rest;
    forall i, j | 0 <= i < j < |r|
      ensures Below(r[i], r[j]) && r[i] != r[j]
    {
      if i > 0 {
        assert r[i] == rest[i - 1] && r[j] == rest[j - 1];
      }
    }
  }

  /** The first element of a strictly increasing listing is its least. */
  lemma HeadIsLeast(r: seq<string>, s: set<string>)
    requires Increasing(r) && r != []
    requires forall x :: x in r <==> x in s
    ensures IsLeast(r[0], s)
  {
    forall y | y in s
      ensures Below(r[0], y)
    {
      var j :| 0 <= j < |r| && r[j] == y;
      if j == 0 {
        BelowReflexive(y);
      }
    }
  }

  /** A strictly increasing listing of a set is its sorted listing. */
  lemma {:induction false} SortedUnique(r: seq<string>, s: set<string>)
    requires Increasing(r)
    requires forall x :: x in r <==> x in s
    ensures r == Sorted(s)
    decreases |s|
  {
    if s != {} {
      assert r != [] by {
        var x :| x in s;
        assert x in r;
      }
      var m := Least(s);
      HeadIsLeast(r, s);
      LeastUnique(r[0], s);
      forall x
        ensures x in r[1..] <==> x in s - {m}
      {
        if x in r[1..] {
          var j :| 1 <= j < |r| && r[j] == x;
        }
        if x in s - {m} {
          var j :| 0 <= j < |r| && r[j] == x;
          assert j != 0;
        }
      }
      SortedUnique(r[1..], s - {m});
      assert r == [r[0]] + r[1..];
    }
  }
}
