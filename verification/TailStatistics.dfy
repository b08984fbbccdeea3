/** Tail statistics of a channel's returns: expected shortfall, percentiles and the histogram. */
module TailStatistics {
  import opened Core

  const ITSELF: real -> real := (x: real) => x

  function Sorted(values: seq<real>): seq<real> { StableSort(values, ITSELF) }

  function Mean(values: seq<real>): real { if values == [] then 0.0 else Sum(values) / (|values| as real) }

  function TailSize(n: nat): nat { if 1 <= (n + 9) / 10 then (n + 9) / 10 else 1 }

  /** The least positive number of values that makes at least a tenth of them. */
  lemma TailSizeMeans(n: nat)
    ensures 1 <= TailSize(n) && n <= 10 * TailSize(n)
    ensures forall k: nat :: 1 <= k && n <= 10 * k ==> TailSize(n) <= k
  {
  }

  function ExpectedShortfall(values: seq<real>): real
  {
    if values == [] then 0.0
    else
      SortedFacts(values);
      Mean(Sorted(values)[..TailSize(|values|)])
  }

  function PercentileIndex(n: nat, percentile: nat): (i: nat)
    requires 0 < n && percentile <= 100
    ensures i < n
  {
    IndexFits(n - 1, percentile);
    (n - 1) * percentile / 100
  }

  function Percentile(values: seq<real>, percentile: nat): real
    requires percentile <= 100
  {
    if values == [] then 0.0
    else
      SortedFacts(values);
      Sorted(values)[PercentileIndex(|values|, percentile)]
  }

  lemma IndexFits(m: nat, percentile: nat)
    requires percentile <= 100
    ensures 0 <= m * percentile / 100 <= m
  {
    assert m * percentile <= m * 100;
  }

  lemma SortedFacts(values: seq<real>)
    ensures |Sorted(values)| == |values| && multiset(Sorted(values)) == multiset(values)
    ensures forall i, j :: 0 <= i <= j < |values| ==> Sorted(values)[i] <= Sorted(values)[j]
    ensures 0 < |values| ==> TailSize(|values|) <= |values|
  {
    StableSortSorts(values, ITSELF);
    assert forall i, j :: 0 <= i < j < |values| ==> ITSELF(Sorted(values)[i]) <= ITSELF(Sorted(values)[j]);
  }

  lemma {:induction false} InsertKeepsSum(x: real, s: seq<real>)
    ensures Sum(Insert(x, s, ITSELF)) == x + Sum(s)
  {
    if s == [] || ITSELF(x) <= ITSELF(s[0]) {
      assert ([x] + s)[1..] == s;
    } else {
      InsertKeepsSum(x, s[1..]);
      assert ([s[0]] + Insert(x, s[1..], ITSELF))[1..] == Insert(x, s[1..], ITSELF);
    }
  }

  lemma {:induction false} SortingKeepsSum(values: seq<real>)
    ensures Sum(Sorted(values)) == Sum(values)
  {
    if values != [] {
      SortingKeepsSum(values[1..]);
      InsertKeepsSum(values[0], Sorted(values[1..]));
    }
  }

  // ---- expected shortfall ----

  ghost predicate Ascending(s: seq<real>) { forall i, j :: 0 <= i <= j < |s| ==> s[i] <= s[j] }

  lemma RestAscends(s: seq<real>)
    requires Ascending(s) && s != []
    ensures Ascending(s[1..]) && forall x :: x in s ==> s[0] <= x
  {
  }

  /** The first elements of an ordered collection sum to no more than any others of it. */
  lemma {:induction false} PrefixIsLeast(s: seq<real>, t: seq<real>)
    requires Ascending(s) && Ascending(t) && multiset(t) <= multiset(s) && |t| <= |s|
    ensures Sum(s[..|t|]) <= Sum(t)
  {
    hide Ascending;
    if t != [] {
      RestAscends(s);
      RestAscends(t);
      RestIsContained(s, t);
      PrefixIsLeast(s[1..], t[1..]);
      assert s[..|t|][1..] == s[1..][..|t[1..]|];
    }
  }

  lemma RestIsContained(s: seq<real>, t: seq<real>)
    requires Ascending(s) && Ascending(t) && multiset(t) <= multiset(s) && s != [] && t != []
    ensures multiset(t[1..]) <= multiset(s[1..]) && s[0] <= t[0]
  {
    RestAscends(s);
    RestAscends(t);
    hide Ascending;
    assert t[0] in multiset(t) && t[0] in multiset(s) && t[0] in s;
    OneLess(s);
    OneLess(t);
    forall x
      ensures multiset(t[1..])[x] <= multiset(s[1..])[x]
    {
      assert multiset(t)[x] <= multiset(s)[x];
      if x == s[0] && multiset(t[1..])[x] > 0 {
        assert x in multiset(t[1..]) && x in t[1..] && x in t;
        assert t[0] == s[0];
      }
    }
  }

  lemma OneLess(s: seq<real>)
    requires s != []
    ensures forall x :: multiset(s)[x] == multiset(s[1..])[x] + if x == s[0] then 1 else 0
  {
    assert s == [s[0]] + s[1..];
  }

  /** The shortfall is the least mean of any tail of its size: no other choice of values does worse. */
  lemma ShortfallIsWorst(values: seq<real>, tail: seq<real>)
    requires values != [] && multiset(tail) <= multiset(values) && |tail| == TailSize(|values|)
    ensures ExpectedShortfall(values) <= Mean(tail)
  {
    SortedFacts(values);
    SortedFacts(tail);
    hide Sorted, Sum;
    PrefixIsLeast(Sorted(values), Sorted(tail));
    SortingKeepsSum(tail);
    MeansCompare(Sum(Sorted(values)[..|tail|]), Sum(tail), |tail|);
  }

  lemma MeansCompare(a: real, b: real, n: nat)
    requires a <= b && 0 < n
    ensures a / (n as real) <= b / (n as real)
  {
  }

  function Times(x: real, n: int): real { x * (n as real) }

  lemma NoTimes(x: real)
    ensures Times(x, 0) == 0.0
  {
  }

  lemma OneMoreTime(x: real, n: int)
    ensures Times(x, n + 1) == x + Times(x, n)
  {
  }

  lemma {:induction false} SumAtLeast(s: seq<real>, least: real)
    requires forall i :: 0 <= i < |s| ==> least <= s[i]
    ensures Times(least, |s|) <= Sum(s)
  {
    hide Times;
    if s == [] {
      NoTimes(least);
    } else {
      SumAtLeast(s[1..], least);
      OneMoreTime(least, |s[1..]|);
    }
  }

  lemma {:induction false} SumAtMost(s: seq<real>, most: real)
    requires forall i :: 0 <= i < |s| ==> s[i] <= most
    ensures Sum(s) <= Times(most, |s|)
  {
    hide Times;
    if s == [] {
      NoTimes(most);
    } else {
      SumAtMost(s[1..], most);
      OneMoreTime(most, |s[1..]|);
    }
  }

  lemma Cancel(a: real, b: real, n: real)
    requires 0.0 < n && a * n <= b * n
    ensures a <= b
  {
  }

  lemma Quotient(mean: real, n: real, total: real)
    requires 0.0 < n
    ensures mean * n <= total ==> mean <= total / n
    ensures total <= mean * n ==> total / n <= mean
  {
    var whole := total / n;
    assert whole * n == total;
    if mean * n <= total { Cancel(mean, whole, n); }
    if total <= mean * n { Cancel(whole, mean, n); }
  }

  /** Adding values above a pivot that bounds the rest cannot lower the mean. */
  lemma MeanGrows(head: real, k: real, back: real, m: real, pivot: real)
    requires 0.0 < k && 0.0 <= m && head <= pivot * k && pivot * m <= back
    ensures head / k <= (head + back) / (k + m)
  {
    var mean := head / k;
    assert mean * k == head;
    Quotient(pivot, k, head);
    assert mean * m <= pivot * m by { Scale(mean, pivot, m); }
    assert mean * (k + m) == mean * k + mean * m;
    Quotient(mean, k + m, head + back);
  }

  lemma Scale(a: real, b: real, m: real)
    requires a <= b && 0.0 <= m
    ensures a * m <= b * m
  {
  }

  lemma HeadAboveFirst(s: seq<real>, k: nat)
    requires Ascending(s) && 0 < k <= |s|
    ensures s[0] <= Mean(s[..k])
  {
    hide Sum;
    var head := s[..k];
    forall i | 0 <= i < |head|
      ensures s[0] <= head[i]
    {
    }
    SumAtLeast(head, s[0]);
    Quotient(s[0], |head| as real, Sum(head));
  }

  lemma HeadSums(s: seq<real>, k: nat)
    requires Ascending(s) && 0 < k <= |s|
    ensures Sum(s) == Sum(s[..k]) + Sum(s[k..])
    ensures Sum(s[..k]) <= Times(s[k - 1], k)
    ensures Times(s[k - 1], |s| - k) <= Sum(s[k..])
  {
    hide Sum, Ascending, Times;
    assert s == s[..k] + s[k..];
    SumAppend(s[..k], s[k..]);
    HeadSum(s, k);
    BackSum(s, k);
  }

  lemma HeadSum(s: seq<real>, k: nat)
    requires Ascending(s) && 0 < k <= |s|
    ensures Sum(s[..k]) <= Times(s[k - 1], k)
  {
    SplitsAt(s, k);
    hide Sum, Ascending, Times;
    SumAtMost(s[..k], s[k - 1]);
  }

  lemma BackSum(s: seq<real>, k: nat)
    requires Ascending(s) && 0 < k <= |s|
    ensures Times(s[k - 1], |s| - k) <= Sum(s[k..])
  {
    SplitsAt(s, k);
    hide Sum, Ascending, Times;
    SumAtLeast(s[k..], s[k - 1]);
  }

  lemma SplitsAt(s: seq<real>, k: nat)
    requires Ascending(s) && 0 < k <= |s|
    ensures forall i :: 0 <= i < k ==> s[..k][i] <= s[k - 1]
    ensures forall i :: 0 <= i < |s| - k ==> s[k - 1] <= s[k..][i]
  {
  }

  lemma HeadBelowAll(s: seq<real>, k: nat)
    requires Ascending(s) && 0 < k <= |s|
    ensures Mean(s[..k]) <= Mean(s)
  {
    hide Sum, Ascending;
    HeadSums(s, k);
    MeanGrows(Sum(s[..k]), k as real, Sum(s[k..]), (|s| - k) as real, s[k - 1]);
    assert k as real + (|s| - k) as real == |s| as real;
  }

  /** The mean of the worst tenth lies between the worst value and the mean of all values. */
  lemma ShortfallBetween(values: seq<real>, worst: real)
    requires values != [] && worst in values && forall x :: x in values ==> worst <= x
    ensures worst <= ExpectedShortfall(values) <= Mean(values)
  {
    SortedFacts(values);
    SortingKeepsSum(values);
    var s := Sorted(values);
    assert s[0] in multiset(s) && s[0] in multiset(values) && s[0] in values;
    hide Sorted, Sum;
    HeadAboveFirst(s, TailSize(|values|));
    HeadBelowAll(s, TailSize(|values|));
  }

  // ---- percentiles ----

  lemma IndexGrows(m: nat, p: nat, q: nat)
    requires p <= q
    ensures m * p / 100 <= m * q / 100
  {
    assert m * p <= m * q;
  }

  /** Percentiles are values of the sample, never fall as the percentile rises, and run from its least to its
      greatest value. */
  lemma PercentilesRise(values: seq<real>, p: nat, q: nat)
    requires values != [] && p <= q <= 100
    ensures Percentile(values, p) <= Percentile(values, q)
    ensures Percentile(values, p) in values
    ensures forall x :: x in values ==> Percentile(values, 0) <= x <= Percentile(values, 100)
  {
    SortedFacts(values);
    IndexGrows(|values| - 1, p, q);
    var s := Sorted(values);
    assert s[PercentileIndex(|values|, p)] in multiset(s);
    assert PercentileIndex(|values|, 0) == 0 && PercentileIndex(|values|, 100) == |values| - 1;
    forall x | x in values
      ensures Percentile(values, 0) <= x <= Percentile(values, 100)
    {
      assert x in multiset(values) && x in multiset(s);
    }
  }

  // ---- how many values lie at or below a percentile ----

  function AtMost(values: seq<real>, x: real): nat
  {
    if values == [] then 0 else (if values[0] <= x then 1 else 0) + AtMost(values[1..], x)
  }

  function Below(values: seq<real>, x: real): nat
  {
    if values == [] then 0 else (if values[0] < x then 1 else 0) + Below(values[1..], x)
  }

  lemma {:induction false} InsertKeepsCounts(v: real, s: seq<real>, x: real)
    ensures AtMost(Insert(v, s, ITSELF), x) == (if v <= x then 1 else 0) + AtMost(s, x)
    ensures Below(Insert(v, s, ITSELF), x) == (if v < x then 1 else 0) + Below(s, x)
  {
    if s == [] || ITSELF(v) <= ITSELF(s[0]) {
      assert ([v] + s)[1..] == s;
    } else {
      InsertKeepsCounts(v, s[1..], x);
      assert ([s[0]] + Insert(v, s[1..], ITSELF))[1..] == Insert(v, s[1..], ITSELF);
    }
  }

  lemma {:induction false} SortingKeepsCounts(values: seq<real>, x: real)
    ensures AtMost(Sorted(values), x) == AtMost(values, x) && Below(Sorted(values), x) == Below(values, x)
  {
    if values != [] {
      SortingKeepsCounts(values[1..], x);
      InsertKeepsCounts(values[0], Sorted(values[1..]), x);
    }
  }

  lemma {:induction false} CountsAround(s: seq<real>, i: nat)
    requires Ascending(s) && i < |s|
    ensures Below(s, s[i]) <= i < AtMost(s, s[i])
  {
    if i == 0 {
      NoneBelow(s, s[0]);
    } else {
      CountsAround(s[1..], i - 1);
    }
  }

  lemma {:induction false} NoneBelow(s: seq<real>, x: real)
    requires forall i :: 0 <= i < |s| ==> x <= s[i]
    ensures Below(s, x) == 0
  {
    if s != [] { NoneBelow(s[1..], x); }
  }

  /** At most p hundredths of the other values lie below the p-th percentile, and more than that at or below it. */
  lemma PercentileCounts(values: seq<real>, p: nat)
    requires values != [] && p <= 100
    ensures 100 * Below(values, Percentile(values, p)) <= (|values| - 1) * p
    ensures (|values| - 1) * p < 100 * AtMost(values, Percentile(values, p))
  {
    SortedFacts(values);
    var i := PercentileIndex(|values|, p);
    CountsAround(Sorted(values), i);
    SortingKeepsCounts(values, Percentile(values, p));
    assert 100 * i <= (|values| - 1) * p < 100 * (i + 1);
  }
}
