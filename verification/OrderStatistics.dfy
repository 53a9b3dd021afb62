// Order statistics by counting, independent of any sorting.
module OrderStatistics {
  function Below(s: seq<int>, x: int): (n: nat)
    ensures n <= |s|
  {
    if s == [] then 0
    else Below(s[..|s| - 1], x) + if s[|s| - 1] < x then 1 else 0
  }

  predicate Sorted(s: seq<int>) {
    forall i, j | 0 <= i < j < |s| :: s[i] <= s[j]
  }

  // m is the element with k elements before it once s is put in order.
  predicate IsRank(s: seq<int>, k: nat, m: int) {
    Below(s, m) <= k < Below(s, m + 1)
  }

  ghost predicate SameElements(s: seq<int>, t: seq<int>) {
    |s| == |t| && forall x :: Below(s, x) == Below(t, x)
  }

  lemma {:induction false} BelowConcat(a: seq<int>, b: seq<int>, x: int)
    ensures Below(a + b, x) == Below(a, x) + Below(b, x)
  {
    if b == [] {
      assert a + b == a;
    } else {
      BelowConcat(a, b[..|b| - 1], x);
      assert (a + b)[..|a + b| - 1] == a + b[..|b| - 1];
    }
  }

  lemma BelowPair(u: int, v: int, x: int)
    ensures Below([u, v], x) == Below([v, u], x)
  {
    BelowConcat([u], [v], x);
    BelowConcat([v], [u], x);
    assert [u, v] == [u] + [v] && [v, u] == [v] + [u];
  }

  function Swapped(s: seq<int>, j: nat): seq<int>
    requires 0 < j < |s|
  {
    s[j := s[j - 1]][j - 1 := s[j]]
  }

  lemma SwapKeepsElements(s: seq<int>, j: nat)
    requires 0 < j < |s|
    ensures SameElements(Swapped(s, j), s)
  {
    var p, q, u, v := s[..j - 1], s[j + 1..], s[j - 1], s[j];
    assert s == p + [u, v] + q && Swapped(s, j) == p + [v, u] + q;
    forall x ensures Below(Swapped(s, j), x) == Below(s, x) {
      BelowConcat(p, [u, v], x);
      BelowConcat(p, [v, u], x);
      BelowConcat(p + [u, v], q, x);
      BelowConcat(p + [v, u], q, x);
      BelowPair(u, v, x);
    }
  }

  lemma {:induction false} AllBelow(s: seq<int>, x: int)
    requires forall i | 0 <= i < |s| :: s[i] < x
    ensures Below(s, x) == |s|
  {
    if s != [] {
      AllBelow(s[..|s| - 1], x);
    }
  }

  lemma {:induction false} NoneBelow(s: seq<int>, x: int)
    requires forall i | 0 <= i < |s| :: x <= s[i]
    ensures Below(s, x) == 0
  {
    if s != [] {
      NoneBelow(s[..|s| - 1], x);
    }
  }

  lemma SortedRank(s: seq<int>, k: nat)
    requires Sorted(s) && k < |s|
    ensures IsRank(s, k, s[k])
  {
    assert s == s[..k] + s[k..] && s == s[..k + 1] + s[k + 1..];
    BelowConcat(s[..k], s[k..], s[k]);
    NoneBelow(s[k..], s[k]);
    BelowConcat(s[..k + 1], s[k + 1..], s[k] + 1);
    AllBelow(s[..k + 1], s[k] + 1);
  }

  lemma {:induction false} BelowMonotone(s: seq<int>, x: int, y: int)
    requires x <= y
    ensures Below(s, x) <= Below(s, y)
  {
    if s != [] {
      BelowMonotone(s[..|s| - 1], x, y);
    }
  }

  // The rank names one value: two methods that find it find the same.
  lemma RankIsUnique(s: seq<int>, k: nat, m: int, n: int)
    requires IsRank(s, k, m) && IsRank(s, k, n)
    ensures m == n
  {
    if m < n {
      BelowMonotone(s, m + 1, n);
    } else if n < m {
      BelowMonotone(s, n + 1, m);
    }
  }

  lemma {:induction false} RankIsElement(s: seq<int>, k: nat, m: int)
    requires IsRank(s, k, m)
    ensures m in s
  {
    if m !in s {
      SameBelow(s, m);
    }
  }

  lemma {:induction false} RankBetween(s: seq<int>, k: nat, lo: int, hi: int) returns (m: int)
    requires Below(s, lo) <= k < Below(s, hi) && lo < hi
    ensures IsRank(s, k, m)
    decreases hi - lo
  {
    if k < Below(s, lo + 1) {
      m := lo;
    } else {
      m := RankBetween(s, k, lo + 1, hi);
    }
  }

  lemma {:induction false} Bounds(s: seq<int>) returns (lo: int, hi: int)
    ensures lo < hi && forall i | 0 <= i < |s| :: lo <= s[i] < hi
  {
    lo, hi := 0, 1;
    if s != [] {
      var last := s[|s| - 1];
      lo, hi := Bounds(s[..|s| - 1]);
      lo, hi := if last < lo then last else lo, if last >= hi then last + 1 else hi;
    }
  }

  // Every rank below the length is taken.
  lemma RankExists(s: seq<int>, k: nat)
    requires k < |s|
    ensures exists m :: IsRank(s, k, m)
  {
    var lo, hi := Bounds(s);
    NoneBelow(s, lo);
    AllBelow(s, hi);
    var m := RankBetween(s, k, lo, hi);
  }

  ghost function MedianOf(s: seq<int>): (m: int)
    requires s != []
    ensures IsRank(s, |s| / 2, m)
  {
    RankExists(s, |s| / 2);
    var m :| IsRank(s, |s| / 2, m);
    m
  }

  lemma {:induction false} SameBelow(s: seq<int>, m: int)
    requires m !in s
    ensures Below(s, m) == Below(s, m + 1)
  {
    if s != [] {
      SameBelow(s[..|s| - 1], m);
    }
  }

  // Sorted up to position i, except that the element at j may be out of place to the left.
  predicate SortedExcept(s: seq<int>, j: nat) {
    && (forall a, b | 0 <= a < b < |s| && b != j :: s[a] <= s[b])
    && (forall b | j < b < |s| :: s[j] <= s[b])
  }

  method InsertLast(s: seq<int>) returns (t: seq<int>)
    requires s != [] && Sorted(s[..|s| - 1])
    ensures Sorted(t) && SameElements(t, s)
  {
    t := s;
    var j := |s| - 1;
    assert forall b | 0 <= b < |s| - 1 :: s[b] == s[..|s| - 1][b];
    while j > 0 && t[j - 1] > t[j]
      invariant 0 <= j < |t| == |s|
      invariant SortedExcept(t, j) && SameElements(t, s)
    {
      SwapKeepsElements(t, j);
      t := Swapped(t, j);
      j := j - 1;
    }
  }

  lemma SameElementsAppend(s: seq<int>, t: seq<int>, x: int)
    requires SameElements(s, t)
    ensures SameElements(s + [x], t + [x])
  {
    forall y ensures Below(s + [x], y) == Below(t + [x], y) {
      BelowConcat(s, [x], y);
      BelowConcat(t, [x], y);
    }
  }

  // The insertion sort by adjacent swaps that the timing code runs, and the element it picks.
  method Median(xs: seq<int>) returns (m: int)
    requires xs != []
    ensures IsRank(xs, |xs| / 2, m) && m == MedianOf(xs)
  {
    var sorted: seq<int> := [];
    for i := 0 to |xs|
      invariant Sorted(sorted) && SameElements(sorted, xs[..i])
    {
      SameElementsAppend(sorted, xs[..i], xs[i]);
      assert xs[..i + 1] == xs[..i] + [xs[i]];
      assert (sorted + [xs[i]])[..i] == sorted;
      sorted := InsertLast(sorted + [xs[i]]);
    }
    assert xs[..|xs|] == xs;
    m := sorted[|xs| / 2];
    SortedRank(sorted, |xs| / 2);
    RankIsUnique(xs, |xs| / 2, m, MedianOf(xs));
  }
}
