/** The histogram of a channel's returns. */
module Histograms {
  import opened Core

  datatype Bucket = Bucket(from: real, to: real, count: nat)

  ghost predicate AtLeast(values: seq<real>, minimum: real)
  {
    forall i :: 0 <= i < |values| ==> minimum <= values[i]
  }

  function Least(values: seq<real>): (m: real)
    requires values != []
    ensures m in values && AtLeast(values, m)
  {
    if |values| == 1 then values[0]
    else
      var rest := Least(values[1..]);
      assert values == [values[0]] + values[1..];
      Min(values[0], rest)
  }

  function Greatest(values: seq<real>): (m: real)
    requires values != []
    ensures m in values && forall i :: 0 <= i < |values| ==> values[i] <= m
  {
    if |values| == 1 then values[0]
    else
      var rest := Greatest(values[1..]);
      assert values == [values[0]] + values[1..];
      Max(values[0], rest)
  }

  /** The lower edge of a bucket. */
  function Edge(minimum: real, width: real, b: nat): real { minimum + Steps(width, b) }

  function Steps(width: real, b: int): real { width * (b as real) }

  function BucketOf(value: real, minimum: real, width: real, n: nat): nat
    requires minimum <= value && 0.0 < width && 0 < n
  {
    Spreads(value - minimum, width);
    var index := ((value - minimum) / width).Floor;
    if index < n - 1 then index else n - 1
  }

  lemma Spreads(gap: real, width: real)
    requires 0.0 <= gap && 0.0 < width
    ensures 0.0 <= gap / width
  {
  }

  /** How many of the first k values fall into a bucket. */
  ghost function CountIn(values: seq<real>, k: nat, minimum: real, width: real, n: nat, bucket: nat): nat
    requires k <= |values| && 0.0 < width && 0 < n && AtLeast(values, minimum)
  {
    if k == 0 then 0
    else
      CountIn(values, k - 1, minimum, width, n, bucket)
      + if BucketOf(values[k - 1], minimum, width, n) == bucket then 1 else 0
  }

  function Total(counts: seq<nat>): nat { if counts == [] then 0 else counts[0] + Total(counts[1..]) }

  lemma {:induction false} TotalOfOneMore(counts: seq<nat>, b: nat)
    requires b < |counts|
    ensures Total(counts[b := counts[b] + 1]) == Total(counts) + 1
  {
    if b > 0 {
      TotalOfOneMore(counts[1..], b - 1);
      assert counts[b := counts[b] + 1][1..] == counts[1..][b - 1 := counts[b] + 1];
    } else {
      assert counts[0 := counts[0] + 1][1..] == counts[1..];
    }
  }

  lemma {:induction false} TotalOfNone(counts: seq<nat>)
    requires forall i :: 0 <= i < |counts| ==> counts[i] == 0
    ensures Total(counts) == 0
  {
    if counts != [] { TotalOfNone(counts[1..]); }
  }

  function Counts(buckets: seq<Bucket>): seq<nat> { seq(|buckets|, i requires 0 <= i < |buckets| => buckets[i].count) }

  /** Equal buckets from the least to the greatest value, each with the number of values that fall into it. */
  ghost predicate IsHistogram(values: seq<real>, bucketCount: nat, buckets: seq<Bucket>)
  {
    if values == [] || bucketCount == 0 then buckets == []
    else
      var minimum, maximum := Least(values), Greatest(values);
      if minimum == maximum then buckets == [Bucket(minimum, maximum, |values|)]
      else
        var width := (maximum - minimum) / (bucketCount as real);
        && 0.0 < width && |buckets| == bucketCount
        && forall b :: 0 <= b < |buckets|
             ==> buckets[b] == Bucket(Edge(minimum, width, b), Edge(minimum, width, b + 1),
                                      CountIn(values, |values|, minimum, width, bucketCount, b))
  }

  method CountBuckets(values: seq<real>, minimum: real, width: real, n: nat) returns (counts: seq<nat>)
    requires 0.0 < width && 0 < n && AtLeast(values, minimum)
    ensures |counts| == n && Total(counts) == |values|
    ensures forall b :: 0 <= b < n ==> counts[b] == CountIn(values, |values|, minimum, width, n, b)
  {
    hide BucketOf;
    counts := seq(n, _ => 0);
    TotalOfNone(counts);
    for k := 0 to |values|
      invariant |counts| == n && Total(counts) == k
      invariant forall b :: 0 <= b < n ==> counts[b] == CountIn(values, k, minimum, width, n, b)
    {
      FitsIn(values[k], minimum, width, n);
      var bucket := BucketOf(values[k], minimum, width, n);
      TotalOfOneMore(counts, bucket);
      counts := counts[bucket := counts[bucket] + 1];
    }
  }

  lemma FitsIn(value: real, minimum: real, width: real, n: nat)
    requires minimum <= value && 0.0 < width && 0 < n
    ensures BucketOf(value, minimum, width, n) < n
  {
  }

  method Histogram(values: seq<real>, bucketCount: nat) returns (buckets: seq<Bucket>)
    requires 0 < bucketCount
    ensures IsHistogram(values, bucketCount, buckets)
    ensures Total(Counts(buckets)) == |values|
  {
    hide CountIn, BucketOf, Least, Greatest, Edge;
    if values == [] {
      return [];
    }
    var minimum, maximum := Least(values), Greatest(values);
    if minimum == maximum {
      buckets := [Bucket(minimum, maximum, |values|)];
      assert Counts(buckets) == [|values|];
      return;
    }
    var width := (maximum - minimum) / (bucketCount as real);
    assert 0.0 < width by { WidthIsPositive(maximum - minimum, bucketCount as real); }
    var counts := CountBuckets(values, minimum, width, bucketCount);
    buckets := Labelled(counts, minimum, width);
  }

  method Labelled(counts: seq<nat>, minimum: real, width: real) returns (buckets: seq<Bucket>)
    ensures |buckets| == |counts| && Counts(buckets) == counts
    ensures forall b :: 0 <= b < |buckets|
              ==> buckets[b] == Bucket(Edge(minimum, width, b), Edge(minimum, width, b + 1), counts[b])
  {
    hide Edge, Counts;
    buckets := [];
    for b := 0 to |counts|
      invariant |buckets| == b
      invariant forall i :: 0 <= i < b ==>
        buckets[i] == Bucket(Edge(minimum, width, i), Edge(minimum, width, i + 1), counts[i])
    {
      buckets := buckets + [Bucket(Edge(minimum, width, b), Edge(minimum, width, b + 1), counts[b])];
    }
    forall b | 0 <= b < |buckets|
      ensures buckets[b].count == counts[b]
    {
      assert buckets[b] == Bucket(Edge(minimum, width, b), Edge(minimum, width, b + 1), counts[b]);
    }
    CountsOf(buckets, counts);
  }

  lemma CountsOf(buckets: seq<Bucket>, counts: seq<nat>)
    requires |buckets| == |counts| && forall b :: 0 <= b < |buckets| ==> buckets[b].count == counts[b]
    ensures Counts(buckets) == counts
  {
  }

  lemma WidthIsPositive(gap: real, n: real)
    requires 0.0 < gap && 0.0 < n
    ensures 0.0 < gap / n
  {
  }

  lemma FloorBounds(ratio: real, width: real, gap: real)
    requires 0.0 < width && ratio * width == gap
    ensures Steps(width, ratio.Floor) <= gap < Steps(width, ratio.Floor + 1)
  {
    var below, above := ratio.Floor as real, (ratio.Floor + 1) as real;
    assert below <= ratio < above;
    Scale(below, ratio, width);
    ScaleStrictly(ratio, above, width);
    assert gap == width * ratio;
    assert gap < width * above;
  }

  lemma Scale(a: real, b: real, width: real)
    requires 0.0 < width && a <= b
    ensures width * a <= width * b && width * a == a * width && width * b == b * width
  {
  }

  lemma ScaleStrictly(a: real, b: real, width: real)
    requires 0.0 < width && a < b
    ensures width * a < width * b && width * a == a * width && width * b == b * width
  {
  }

  lemma WidthsGrow(width: real, a: int, b: int)
    requires 0.0 < width && a <= b
    ensures Steps(width, a) <= Steps(width, b)
  {
    Scale(a as real, b as real, width);
  }

  lemma WholeWidth(gap: real, width: real, n: nat)
    requires 0 < n && width == gap / (n as real)
    ensures Steps(width, n) == gap
  {
    assert gap / (n as real) * (n as real) == gap;
  }

  lemma DividesBack(gap: real, width: real)
    requires 0.0 < width
    ensures gap / width * width == gap
  {
  }

  /** Every value lies inside the bucket it is counted in; only the last bucket owns its upper edge. */
  lemma ValueInsideItsBucket(value: real, minimum: real, maximum: real, n: nat)
    requires minimum <= value <= maximum && minimum < maximum && 0 < n
    ensures var width := (maximum - minimum) / (n as real);
            && 0.0 < width
            && var b := BucketOf(value, minimum, width, n);
               && b < n && Edge(minimum, width, b) <= value <= Edge(minimum, width, b + 1)
               && (b < n - 1 ==> value < Edge(minimum, width, b + 1))
  {
    var width := (maximum - minimum) / (n as real);
    WidthIsPositive(maximum - minimum, n as real);
    WholeWidth(maximum - minimum, width, n);
    hide Steps;
    var ratio := (value - minimum) / width;
    DividesBack(value - minimum, width);
    Spreads(value - minimum, width);
    FloorBounds(ratio, width, value - minimum);
    if ratio.Floor >= n - 1 {
      WidthsGrow(width, n - 1, ratio.Floor);
    }
  }
}
