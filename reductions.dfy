/**
 * The numpy reductions that the feature extractor applies to per-vertex
 * arrays: np.sum, np.mean, np.max, np.unique, and counting comparisons.
 * Values are exact reals; floating-point rounding is not modelled.
 */
module Reductions {

  /** min of two integers. */
  function Min(a: int, b: int): int
  {
    if a <= b then a else b
  }

  /** np.sum: the sum of the entries, accumulated from the front. */
  function Sum(s: seq<real>): real
  {
    if s == [] then 0.0 else Sum(s[..|s| - 1]) + s[|s| - 1]
  }

  /** np.mean of a non-empty array. */
  function Mean(s: seq<real>): real
    requires |s| > 0
  {
    Sum(s) / (|s| as real)
  }

  /** np.max of a non-empty array: an upper bound that is attained. */
  function Max(s: seq<real>): (m: real)
    requires |s| > 0
    ensures forall i :: 0 <= i < |s| ==> s[i] <= m
    ensures exists i :: 0 <= i < |s| && s[i] == m
  {
    if |s| == 1 then s[0]
    else
      var m' := Max(s[..|s| - 1]);
      assert forall i :: 0 <= i < |s| - 1 ==> s[..|s| - 1][i] == s[i];
      if s[|s| - 1] > m' then s[|s| - 1] else m'
  }

  /** np.sum(s > t): how many entries lie strictly above t. */
  function CountAbove(s: seq<real>, t: real): (c: nat)
    ensures c <= |s|
    ensures c == |s| <==> forall i :: 0 <= i < |s| ==> s[i] > t
  {
    if s == [] then 0
    else
      var c' := CountAbove(s[..|s| - 1], t);
      assert forall i :: 0 <= i < |s| - 1 ==> s[..|s| - 1][i] == s[i];
      c' + if s[|s| - 1] > t then 1 else 0
  }

  /** np.sum(s == t): how many entries equal t. */
  function CountEqual(s: seq<real>, t: real): (c: nat)
    ensures c <= |s|
    ensures c == 0 <==> forall i :: 0 <= i < |s| ==> s[i] != t
  {
    if s == [] then 0
    else
      var c' := CountEqual(s[..|s| - 1], t);
      assert forall i :: 0 <= i < |s| - 1 ==> s[..|s| - 1][i] == s[i];
      c' + if s[|s| - 1] == t then 1 else 0
  }

  /** The distinct values of an array, as np.unique lists them (as a set). */
  function Distinct<T>(s: seq<T>): set<T>
  {
    set x | x in s
  }

  /** A nat array read as reals, as np.mean and np.max see it. */
  function AsReals(s: seq<nat>): (r: seq<real>)
    ensures |r| == |s|
    ensures forall i :: 0 <= i < |s| ==> r[i] == s[i] as real
  {
    seq(|s|, i requires 0 <= i < |s| => s[i] as real)
  }

  /** The boolean array s > t as numpy sums it: 1.0 where the entry exceeds t, 0.0 elsewhere. */
  function AboveMask(s: seq<real>, t: real): (m: seq<real>)
    ensures |m| == |s|
  {
    seq(|s|, i requires 0 <= i < |s| => if s[i] > t then 1.0 else 0.0)
  }

  /** np.sum(s > t) counts the entries above t. */
  lemma {:induction false} SumAboveMask(s: seq<real>, t: real)
    ensures Sum(AboveMask(s, t)) == CountAbove(s, t) as real
  {
    if s != [] {
      var init := s[..|s| - 1];
      assert AboveMask(s, t)[..|s| - 1] == AboveMask(init, t);
      SumAboveMask(init, t);
    }
  }

  /** Every entry at most m bounds the sum by |s| * m. */
  lemma {:induction false} SumAtMost(s: seq<real>, m: real)
    requires forall i :: 0 <= i < |s| ==> s[i] <= m
    ensures Sum(s) <= (|s| as real) * m
  {
    if s != [] {
      assert forall i :: 0 <= i < |s| - 1 ==> s[..|s| - 1][i] == s[i];
      SumAtMost(s[..|s| - 1], m);
    }
  }

  /** The mean never exceeds the maximum. */
  lemma MeanAtMostMax(s: seq<real>)
    requires |s| > 0
    ensures Mean(s) <= Max(s)
  {
    var m, total, n := Max(s), Sum(s), |s| as real;
    SumAtMost(s, m);
    assert total <= n * m;
    DivAtMost(total, n, m);
    assert Mean(s) == total / n;
  }

  /** Every entry non-negative makes the mean non-negative. */
  lemma MeanNonNegative(s: seq<real>)
    requires |s| > 0
    requires forall i :: 0 <= i < |s| ==> s[i] >= 0.0
    ensures Mean(s) >= 0.0
  {
    NonNegativeSum(s);
  }

  lemma {:induction false} NonNegativeSum(s: seq<real>)
    requires forall i :: 0 <= i < |s| ==> s[i] >= 0.0
    ensures Sum(s) >= 0.0
  {
    if s != [] {
      assert forall i :: 0 <= i < |s| - 1 ==> s[..|s| - 1][i] == s[i];
      NonNegativeSum(s[..|s| - 1]);
    }
  }

  /** Not every entry can lie strictly above the mean: the least entry does not. */
  lemma NotAllAboveMean(s: seq<real>)
    requires |s| > 0
    ensures CountAbove(s, Mean(s)) < |s|
  {
    var i :| 0 <= i < |s| && s[i] == Least(s);
    LeastAtMostMean(s);
    assert !(s[i] > Mean(s));
  }

  /** The least entry of a non-empty array: a lower bound that is attained. */
  function Least(s: seq<real>): (m: real)
    requires |s| > 0
    ensures forall i :: 0 <= i < |s| ==> m <= s[i]
    ensures exists i :: 0 <= i < |s| && s[i] == m
  {
    if |s| == 1 then s[0]
    else
      var m' := Least(s[..|s| - 1]);
      assert forall i :: 0 <= i < |s| - 1 ==> s[..|s| - 1][i] == s[i];
      if s[|s| - 1] < m' then s[|s| - 1] else m'
  }

  /** Every entry at least m bounds the sum from below by |s| * m. */
  lemma {:induction false} SumAtLeast(s: seq<real>, m: real)
    requires forall i :: 0 <= i < |s| ==> m <= s[i]
    ensures (|s| as real) * m <= Sum(s)
  {
    if s != [] {
      assert forall i :: 0 <= i < |s| - 1 ==> s[..|s| - 1][i] == s[i];
      SumAtLeast(s[..|s| - 1], m);
    }
  }

  /** The mean is never below the least entry. */
  lemma LeastAtMostMean(s: seq<real>)
    requires |s| > 0
    ensures Least(s) <= Mean(s)
  {
    var m, total, n := Least(s), Sum(s), |s| as real;
    SumAtLeast(s, m);
    DivAtLeast(total, n, m);
    assert Mean(s) == total / n;
  }

  lemma DivAtLeast(x: real, n: real, m: real)
    requires n > 0.0 && n * m <= x
    ensures m <= x / n
  {
  }

  lemma DivAtMost(x: real, n: real, m: real)
    requires n > 0.0 && x <= n * m
    ensures x / n <= m
  {
  }

  /** The maximum is attained at least once. */
  lemma MaxAttained(s: seq<real>)
    requires |s| > 0
    ensures 1 <= CountEqual(s, Max(s)) <= |s|
  {
    var i :| 0 <= i < |s| && s[i] == Max(s);
    assert s[i] == Max(s);
  }

  /** A non-empty array has between 1 and |s| distinct values. */
  lemma {:induction false} DistinctBounds<T>(s: seq<T>)
    ensures |Distinct(s)| <= |s|
    ensures |s| > 0 ==> |Distinct(s)| >= 1
  {
    if s != [] {
      var init := s[..|s| - 1];
      DistinctBounds(init);
      assert Distinct(s) == Distinct(init) + {s[|s| - 1]} by {
        assert s == init + [s[|s| - 1]];
      }
      assert s[0] in Distinct(s);
    }
  }
}
