/** Folds and filters over sequences: the model's stand-in for the ORM's
    `filter(...)`, `aggregate(Sum(...))` and `count()` over a table. */
module Seqs {

  /** Sum of `f` over the elements of `s`; 0 for the empty sequence, like
      `aggregate(Sum(...))['...__sum'] or 0`. Defined from the right so that it
      follows a left-to-right accumulation loop. */
  function Sum<T>(s: seq<T>, f: T -> int): int
  {
    if s == [] then 0 else Sum(s[..|s| - 1], f) + f(s[|s| - 1])
  }

  /** The elements of `s` that satisfy `keep`, in their original order. */
  function Where<T(!new)>(s: seq<T>, keep: T -> bool): (r: seq<T>)
    ensures |r| <= |s|
    ensures forall x :: x in r <==> x in s && keep(x)
  {
    if s == [] then []
    else
      var rest := Where(s[..|s| - 1], keep);
      assert forall x :: x in s <==> x in s[..|s| - 1] || x == s[|s| - 1];
      if keep(s[|s| - 1]) then rest + [s[|s| - 1]] else rest
  }

  /** `s` in the opposite order (Python's `[::-1]`). */
  function Reverse<T>(s: seq<T>): (r: seq<T>)
    ensures |r| == |s|
  {
    if s == [] then [] else Reverse(s[1..]) + [s[0]]
  }

  /** Element `k` of the reversal is element `|s| - 1 - k` of `s`. */
  lemma {:induction false} ReverseAt<T>(s: seq<T>)
    ensures forall k :: 0 <= k < |s| ==> Reverse(s)[k] == s[|s| - 1 - k]
    decreases |s|
  {
    if s != [] {
      ReverseAt(s[1..]);
    }
  }

  lemma {:induction false} ReverseCons<T>(x: T, s: seq<T>)
    ensures Reverse([x] + s) == Reverse(s) + [x]
  {
    assert ([x] + s)[1..] == s;
  }

  /** The first `n` elements of `s`, or all of them when there are fewer
      (Python's slice `[:n]`). */
  function Take<T>(s: seq<T>, n: nat): (r: seq<T>)
    ensures |r| == if |s| < n then |s| else n
    ensures forall k :: 0 <= k < |r| ==> r[k] == s[k]
  {
    if |s| <= n then s else s[..n]
  }

  lemma {:induction false} SumAppend<T>(a: seq<T>, x: T, f: T -> int)
    ensures Sum(a + [x], f) == Sum(a, f) + f(x)
  {
    assert (a + [x])[..|a|] == a;
  }

  lemma {:induction false} SumPrefix<T>(s: seq<T>, j: nat, f: T -> int)
    requires j < |s|
    ensures Sum(s[..j + 1], f) == Sum(s[..j], f) + f(s[j])
  {
    assert s[..j + 1][..j] == s[..j];
  }

  lemma {:induction false} WhereAppend<T(!new)>(a: seq<T>, x: T, keep: T -> bool)
    ensures Where(a + [x], keep) == Where(a, keep) + (if keep(x) then [x] else [])
  {
    assert (a + [x])[..|a|] == a;
  }

  /** A sum over a filter that keeps nothing is 0. */
  lemma {:induction false} SumWhereNone<T(!new)>(s: seq<T>, keep: T -> bool, f: T -> int)
    requires forall x :: x in s ==> !keep(x)
    ensures Where(s, keep) == []
    ensures Sum(Where(s, keep), f) == 0
  {
    if s != [] {
      assert s[|s| - 1] in s;
      assert forall x :: x in s[..|s| - 1] ==> x in s;
      SumWhereNone(s[..|s| - 1], keep, f);
    }
  }

  /** No two elements of `s` share a key (a table's primary key). */
  ghost predicate UniqueKeys<T, K>(s: seq<T>, key: T -> K)
  {
    forall i, j :: 0 <= i < j < |s| ==> key(s[i]) != key(s[j])
  }

  /** Filtering a table keeps its keys unique. */
  lemma {:induction false} WhereUniqueKeys<T(!new), K>(s: seq<T>, keep: T -> bool, key: T -> K)
    requires UniqueKeys(s, key)
    ensures UniqueKeys(Where(s, keep), key)
    decreases |s|
  {
    if s != [] {
      var init, x := s[..|s| - 1], s[|s| - 1];
      assert s == init + [x];
      WhereAppend(init, x, keep);
      WhereUniqueKeys(init, keep, key);
      var w := Where(init, keep);
      forall k | 0 <= k < |w|
        ensures key(w[k]) != key(x)
      {
        assert w[k] in init;
        var j :| 0 <= j < |init| && init[j] == w[k];
      }
    }
  }

  /** Replacing one element changes a sum by the difference of the two
      terms. */
  lemma {:induction false} SumUpdate<T>(s: seq<T>, i: nat, x: T, f: T -> int)
    requires i < |s|
    ensures Sum(s[i := x], f) == Sum(s, f) - f(s[i]) + f(x)
    decreases |s|
  {
    var t := s[i := x];
    if i < |s| - 1 {
      assert t[..|t| - 1] == s[..|s| - 1][i := x];
      SumUpdate(s[..|s| - 1], i, x, f);
    } else {
      assert t[..|t| - 1] == s[..|s| - 1];
    }
  }

  /** A sum does not depend on the order of the terms: reversing the
      sequence keeps it. */
  lemma {:induction false} SumReverse<T>(s: seq<T>, f: T -> int)
    ensures Sum(Reverse(s), f) == Sum(s, f)
    decreases |s|
  {
    if s != [] {
      SumReverse(s[1..], f);
      SumAppend(Reverse(s[1..]), s[0], f);
      SumCons(s, f);
    }
  }

  /** A sum can also be taken from the left. */
  lemma {:induction false} SumCons<T>(s: seq<T>, f: T -> int)
    requires s != []
    ensures Sum(s, f) == f(s[0]) + Sum(s[1..], f)
    decreases |s|
  {
    if |s| > 1 {
      SumCons(s[..|s| - 1], f);
      assert s[..|s| - 1][1..] == s[1..][..|s[1..]| - 1];
    } else {
      assert s[1..] == [];
    }
  }
}
