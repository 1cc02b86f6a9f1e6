/**
 * `ksort` on an array whose keys are date strings: the keys in ascending
 * byte-wise order. The order is fixed by the key set alone, so the ghost
 * `SortedSet` is the specification and `Ksort` computes it.
 */
module Ksort {
  import opened Php

  predicate StrictlySorted(s: seq<string>) {
    forall i, j :: 0 <= i < j < |s| ==> StrLess(s[i], s[j])
  }

  /** `m` is the least element of `s`. */
  predicate IsLeast(m: string, s: set<string>) {
    m in s && forall y :: y in s ==> StrLessEq(m, y)
  }

  lemma {:induction false} LeastExists(s: set<string>)
    requires s != {}
    ensures exists m :: IsLeast(m, s)
    decreases |s|
  {
    var x :| x in s;
    if s != {x} {
      var rest := s - {x};
      LeastExists(rest);
      var m :| IsLeast(m, rest);
      if StrLess(x, m) {
        forall y | y in s ensures StrLessEq(x, y) {
          if y != x {
            assert StrLessEq(m, y);
            StrLessEqTransitive(x, m, y);
          }
        }
        assert IsLeast(x, s);
      } else {
        if x != m {
          StrLessTotal(x, m);
        }
        assert IsLeast(m, s);
      }
    } else {
      assert IsLeast(x, s);
    }
  }

  lemma LeastUnique(a: string, b: string, s: set<string>)
    requires IsLeast(a, s) && IsLeast(b, s)
    ensures a == b
  {
    if a != b {
      assert StrLess(a, b) && StrLess(b, a);
      StrLessAsymmetric(a, b);
    }
  }

  /** The elements of `s` in ascending order. */
  ghost function SortedSet(s: set<string>): (r: seq<string>)
    ensures forall x :: x in r <==> x in s
    ensures |r| == |s|
    ensures StrictlySorted(r)
    decreases |s|
  {
    if s == {} then []
    else
      LeastExists(s);
      var m :| IsLeast(m, s);
      var rest := SortedSet(s - {m});
      assert forall j :: 0 <= j < |rest| ==> rest[j] in s - {m};
      assert forall j :: 0 <= j < |rest| ==> StrLess(m, rest[j]);
      [m] + rest
  }

  /** A strictly ascending listing of a set is unique. */
  lemma {:induction false} SortedUnique(a: seq<string>, b: seq<string>)
    requires StrictlySorted(a) && StrictlySorted(b)
    requires forall x :: x in a <==> x in b
    ensures a == b
    decreases |a|
  {
    if a != [] {
      assert a[0] in b;
    }
    if b != [] {
      assert b[0] in a;
    }
    if a != [] && b != [] {
      if a[0] != b[0] {
        assert a[0] in b && b[0] in a;
        var i :| 0 <= i < |a| && a[i] == b[0];
        var j :| 0 <= j < |b| && b[j] == a[0];
        assert StrLess(a[0], b[0]) && StrLess(b[0], a[0]);
        StrLessAsymmetric(a[0], b[0]);
      }
      StrLessIrreflexive(a[0]);
      forall y | y in a[1..] ensures y in b[1..] {
        var i :| 1 <= i < |a| && a[i] == y;
        assert y in b;
        var j :| 0 <= j < |b| && b[j] == y;
        assert j != 0;
        assert b[1..][j - 1] == y;
      }
      forall y | y in b[1..] ensures y in a[1..] {
        var j :| 1 <= j < |b| && b[j] == y;
        assert y in a;
        var i :| 0 <= i < |a| && a[i] == y;
        assert i != 0;
        assert a[1..][i - 1] == y;
      }
      SortedUnique(a[1..], b[1..]);
      assert a == [a[0]] + a[1..] && b == [b[0]] + b[1..];
    }
  }

  /** Taking the least element off a set takes the head off its listing. */
  lemma SortedSetStep(s: set<string>, m: string)
    requires IsLeast(m, s)
    ensures SortedSet(s) == [m] + SortedSet(s - {m})
  {
    var r := SortedSet(s);
    assert r[0] in s;
    assert IsLeast(r[0], s) by {
      forall y | y in s ensures StrLessEq(r[0], y) {
        var j :| 0 <= j < |r| && r[j] == y;
      }
    }
    LeastUnique(m, r[0], s);
    assert forall y :: y in r[1..] <==> y in s - {m} by {
      StrLessIrreflexive(m);
      forall y | y in r[1..] ensures y != m {
        var j :| 1 <= j < |r| && r[j] == y;
      }
      forall y | y in s - {m} ensures y in r[1..] {
        var j :| 0 <= j < |r| && r[j] == y;
        assert r[1..][j - 1] == y;
      }
    }
    SortedUnique(r[1..], SortedSet(s - {m}));
    assert r == [m] + r[1..];
  }

  lemma KsortStep(r: seq<string>, left: set<string>, keys: set<string>, m: string)
    requires r + SortedSet(left) == SortedSet(keys)
    requires IsLeast(m, left)
    ensures (r + [m]) + SortedSet(left - {m}) == SortedSet(keys)
  {
    SortedSetStep(left, m);
    assert r + SortedSet(left) == (r + [m]) + SortedSet(left - {m});
  }

  /** `ksort`: the keys, least first, picked one at a time from those left. */
  method SortKeys(keys: set<string>) returns (r: seq<string>)
    ensures r == SortedSet(keys)
  {
    r := [];
    var left := keys;
    while left != {}
      invariant r + SortedSet(left) == SortedSet(keys)
      decreases |left|
    {
      LeastExists(left);
      var m :| IsLeast(m, left);
      KsortStep(r, left, keys, m);
      r := r + [m];
      left := left - {m};
    }
  }
}
