/** The incremental cache of candle ranges, checked against fetching each range in one piece. */
module CandleCache {
  import opened Core
  import opened Market

  /** What the market data source answers for a symbol and a time range when it answers. */
  type Provider = (string, int, int) -> seq<Candle>

  datatype Range = Range(start: int, end: int)

  /** In time order, no two candles opening together. */
  ghost predicate Listed(s: seq<Candle>)
  {
    forall i, j :: 0 <= i < j < |s| ==> s[i].openTime < s[j].openTime
  }

  /** Adjacent ranges add up, answers are listed, and an inverted range is empty. */
  ghost predicate Additive(p: Provider)
  {
    && (forall s, a, b :: Listed(p(s, a, b)) && (b < a ==> p(s, a, b) == []))
    && (forall s, a, b, c, x :: a <= b <= c ==> (x in p(s, a, c) <==> x in p(s, a, b) || x in p(s, b, c)))
  }

  // ---- _merge_candle_batches ----

  predicate SameKey(x: Candle, y: Candle)
  {
    x.market == y.market && x.openTime == y.openTime && x.closeTime == y.closeTime
  }

  /** Dictionary assignment under the candle's key. */
  function PutCandle(d: seq<Candle>, c: Candle): seq<Candle>
  {
    if d == [] then [c]
    else if SameKey(d[0], c) then [c] + d[1..]
    else [d[0]] + PutCandle(d[1..], c)
  }

  function PutCandles(d: seq<Candle>, cs: seq<Candle>): seq<Candle>
    decreases |cs|
  {
    if cs == [] then d else PutCandles(PutCandle(d, cs[0]), cs[1..])
  }

  function Merge(existing: seq<Candle>, incoming: seq<Candle>): seq<Candle>
  {
    SortCandles(PutCandles(PutCandles([], existing), incoming))
  }

  method MergeCandleBatches(existing: seq<Candle>, incoming: seq<Candle>) returns (merged: seq<Candle>)
    ensures merged == Merge(existing, incoming)
  {
    var byKey: seq<Candle> := [];
    for i := 0 to |existing|
      invariant PutCandles([], existing) == PutCandles(byKey, existing[i..])
    {
      assert existing[i..][1..] == existing[i + 1..];
      byKey := PutCandle(byKey, existing[i]);
    }
    ghost var first := byKey;
    for i := 0 to |incoming|
      invariant PutCandles(first, incoming) == PutCandles(byKey, incoming[i..])
    {
      assert incoming[i..][1..] == incoming[i + 1..];
      byKey := PutCandle(byKey, incoming[i]);
    }
    merged := SortCandles(byKey);
  }

  /** Candles of one history: no two open together unless they are the same. */
  ghost predicate Coherent(cs: set<Candle>)
  {
    forall x, y :: x in cs && y in cs && x.openTime == y.openTime ==> x == y
  }

  function Members(s: seq<Candle>): set<Candle> { set x | x in s }

  ghost predicate OncePerOpen(d: seq<Candle>)
  {
    forall i, j :: 0 <= i < j < |d| ==> d[i].openTime != d[j].openTime
  }

  lemma MembersCons(x: Candle, s: seq<Candle>)
    ensures Members([x] + s) == {x} + Members(s)
  {
  }

  lemma OnceCons(x: Candle, s: seq<Candle>)
    ensures OncePerOpen([x] + s) <==> OncePerOpen(s) && forall y :: y in Members(s) ==> y.openTime != x.openTime
  {
    if OncePerOpen([x] + s) {
      forall i, j | 0 <= i < j < |s|
        ensures s[i].openTime != s[j].openTime
      {
        assert ([x] + s)[i + 1].openTime != ([x] + s)[j + 1].openTime;
      }
      forall y | y in Members(s)
        ensures y.openTime != x.openTime
      {
        var k :| 0 <= k < |s| && s[k] == y;
        assert ([x] + s)[0].openTime != ([x] + s)[k + 1].openTime;
      }
    }
  }

  lemma {:induction false} PutCandleKeeps(d: seq<Candle>, c: Candle)
    requires OncePerOpen(d) && Coherent(Members(d) + {c})
    ensures OncePerOpen(PutCandle(d, c)) && Members(PutCandle(d, c)) == Members(d) + {c}
  {
    hide Members, OncePerOpen;
    if d == [] {
      assert [c] == [c] + [];
      MembersCons(c, []);
      OnceCons(c, []);
      NoMembers();
    } else {
      assert d == [d[0]] + d[1..];
      MembersCons(d[0], d[1..]);
      OnceCons(d[0], d[1..]);
      if SameKey(d[0], c) {
        assert d[0] == c;
      } else {
        PutCandleKeeps(d[1..], c);
        MembersCons(d[0], PutCandle(d[1..], c));
        OnceCons(d[0], PutCandle(d[1..], c));
      }
    }
  }

  lemma NoMembers()
    ensures Members([]) == {} && OncePerOpen([])
  {
  }

  lemma {:induction false} PutCandlesKeep(d: seq<Candle>, cs: seq<Candle>)
    requires OncePerOpen(d) && Coherent(Members(d) + Members(cs))
    ensures OncePerOpen(PutCandles(d, cs)) && Members(PutCandles(d, cs)) == Members(d) + Members(cs)
    decreases |cs|
  {
    if cs != [] {
      assert cs == [cs[0]] + cs[1..];
      assert Members(cs) == {cs[0]} + Members(cs[1..]);
      PutCandleKeeps(d, cs[0]);
      PutCandlesKeep(PutCandle(d, cs[0]), cs[1..]);
    }
  }

  /** Merging two batches of one history lists their union. */
  lemma MergeIsUnion(existing: seq<Candle>, incoming: seq<Candle>)
    requires Coherent(Members(existing) + Members(incoming))
    ensures Listed(Merge(existing, incoming))
    ensures Members(Merge(existing, incoming)) == Members(existing) + Members(incoming)
  {
    hide PutCandles;
    var d := PutCandles(PutCandles([], existing), incoming);
    PutCandlesKeep([], existing);
    PutCandlesKeep(PutCandles([], existing), incoming);
    SortLists(d);
  }

  lemma {:induction false} InsertLists(x: Candle, s: seq<Candle>)
    requires Listed(s) && forall y :: y in Members(s) ==> y.openTime != x.openTime
    ensures Listed(Insert(x, s, OPEN_TIME)) && Members(Insert(x, s, OPEN_TIME)) == {x} + Members(s)
  {
    hide Listed, Members;
    if s != [] && s[0].openTime < x.openTime {
      var rest := Insert(x, s[1..], OPEN_TIME);
      assert s == [s[0]] + s[1..];
      MembersCons(s[0], s[1..]);
      ListedCons(s[0], s[1..]);
      InsertLists(x, s[1..]);
      MembersCons(s[0], rest);
      ListedCons(s[0], rest);
    } else {
      MembersCons(x, s);
      if s == [] {
        NothingListed();
      } else {
        assert s == [s[0]] + s[1..];
        MembersCons(s[0], s[1..]);
        ListedCons(s[0], s[1..]);
      }
      ListedCons(x, s);
    }
  }

  lemma NothingListed()
    ensures Listed([]) && Members([]) == {}
  {
  }

  lemma ListedCons(x: Candle, s: seq<Candle>)
    ensures Listed([x] + s) <==> Listed(s) && forall y :: y in Members(s) ==> x.openTime < y.openTime
  {
    var all := [x] + s;
    assert all[1..] == s;
    if Listed(all) {
      forall i, j | 0 <= i < j < |s|
        ensures s[i].openTime < s[j].openTime
      {
        assert all[i + 1].openTime < all[j + 1].openTime;
      }
      forall y | y in Members(s)
        ensures x.openTime < y.openTime
      {
        var k :| 0 <= k < |s| && s[k] == y;
        assert all[0].openTime < all[k + 1].openTime;
      }
    }
    if Listed(s) && forall y :: y in Members(s) ==> x.openTime < y.openTime {
      forall i, j | 0 <= i < j < |all|
        ensures all[i].openTime < all[j].openTime
      {
        if 0 < i { assert s[i - 1].openTime < s[j - 1].openTime; } else { assert s[j - 1] in Members(s); }
      }
    }
  }

  lemma {:induction false} SortLists(d: seq<Candle>)
    requires OncePerOpen(d)
    ensures Listed(StableSort(d, OPEN_TIME)) && Members(StableSort(d, OPEN_TIME)) == Members(d)
  {
    if d != [] {
      assert d == [d[0]] + d[1..];
      OnceCons(d[0], d[1..]);
      MembersCons(d[0], d[1..]);
      SortLists(d[1..]);
      InsertLists(d[0], StableSort(d[1..], OPEN_TIME));
    }
  }

  /** A listing is determined by its members. */
  lemma {:induction false} ListingUnique(a: seq<Candle>, b: seq<Candle>)
    requires Listed(a) && Listed(b) && Members(a) == Members(b)
    ensures a == b
    decreases |a|
  {
    if a == [] {
      assert forall i :: 0 <= i < |b| ==> b[i] in Members(b);
    } else {
      assert a[0] in Members(a) && a[0] in Members(b);
      var k :| 0 <= k < |b| && b[k] == a[0];
      assert b[0] in Members(b) && b[0] in Members(a);
      var j :| 0 <= j < |a| && a[j] == b[0];
      assert a[0] == b[0];
      TailMembers(a);
      TailMembers(b);
      ListingUnique(a[1..], b[1..]);
      assert a == [a[0]] + a[1..] && b == [b[0]] + b[1..];
    }
  }

  lemma TailMembers(a: seq<Candle>)
    requires Listed(a) && a != []
    ensures Members(a[1..]) == Members(a) - {a[0]}
  {
    assert a == [a[0]] + a[1..];
    assert forall i :: 0 <= i < |a[1..]| ==> a[1..][i] == a[i + 1];
  }

  /** Fetching two adjacent ranges and merging is fetching the whole range, whichever half came first. */
  lemma MergeIsFetch(p: Provider, s: string, a: int, b: int, c: int)
    requires Additive(p) && a <= b <= c
    ensures Merge(p(s, a, b), p(s, b, c)) == p(s, a, c)
    ensures Merge(p(s, b, c), p(s, a, b)) == p(s, a, c)
  {
    hide Merge;
    var left, right, whole := p(s, a, b), p(s, b, c), p(s, a, c);
    forall x
      ensures x in Members(whole) <==> x in Members(left) + Members(right)
    {
      AdditiveAt(p, s, a, b, c, x);
    }
    ListedCoherent(whole);
    MergeIsUnion(left, right);
    MergeIsUnion(right, left);
    ListingUnique(Merge(left, right), whole);
    ListingUnique(Merge(right, left), whole);
  }

  lemma ListedCoherent(s: seq<Candle>)
    requires Listed(s)
    ensures Coherent(Members(s))
  {
  }

  lemma AdditiveAt(p: Provider, s: string, a: int, b: int, c: int, x: Candle)
    requires Additive(p) && a <= b <= c
    ensures x in p(s, a, c) <==> x in p(s, a, b) || x in p(s, b, c)
  {
  }

  /** A covering range answers everything a direct fetch would. */
  lemma CoveringAnswers(p: Provider, s: string, wide: Range, start: int, end: int)
    requires Additive(p) && wide.start <= start <= end <= wide.end
    ensures Members(p(s, start, end)) <= Members(p(s, wide.start, wide.end))
  {
    forall x | x in p(s, start, end)
      ensures x in p(s, wide.start, wide.end)
    {
      AdditiveAt(p, s, start, end, wide.end, x);
      AdditiveAt(p, s, wide.start, start, wide.end, x);
    }
  }

  // ---- the cache ----

  // ---- widening a range by its gaps ----

  predicate Adjoins(r: Range, gap: Range)
  {
    gap.start <= gap.end && (gap.end == r.start || gap.start == r.end)
  }

  function WidenBy(r: Range, gap: Range): Range { Range(MinInt(r.start, gap.start), MaxInt(r.end, gap.end)) }

  function Widen(r: Range, gaps: seq<Range>): Range
    decreases |gaps|
  {
    if gaps == [] then r else Widen(WidenBy(r, gaps[0]), gaps[1..])
  }

  predicate AllAdjoin(r: Range, gaps: seq<Range>)
    decreases |gaps|
  {
    gaps == [] || (Adjoins(r, gaps[0]) && AllAdjoin(WidenBy(r, gaps[0]), gaps[1..]))
  }

  function Gaps(r: Range, start: int, end: int): seq<Range>
  {
    (if start < r.start then [Range(start, r.start)] else []) + (if r.end < end then [Range(r.end, end)] else [])
  }

  /** The gaps on either side widen the range to cover the request, and nothing more. */
  lemma GapsCover(r: Range, start: int, end: int)
    requires r.start <= r.end
    ensures AllAdjoin(r, Gaps(r, start, end))
    ensures Widen(r, Gaps(r, start, end)) == Range(MinInt(start, r.start), MaxInt(end, r.end))
  {
    var left, right := Range(start, r.start), Range(r.end, end);
    var middle := if start < r.start then WidenBy(r, left) else r;
    if r.end < end {
      assert [right][1..] == [];
      assert AllAdjoin(WidenBy(middle, right), []);
      assert Widen(middle, [right]) == WidenBy(middle, right);
      assert AllAdjoin(middle, [right]);
    }
    if start < r.start {
      var rest := if r.end < end then [right] else [];
      assert Gaps(r, start, end) == [left] + rest && Gaps(r, start, end)[1..] == rest;
    }
  }

  /** Merging the answers for the gaps one after the other gives the provider's answer for the widened range. */
  method MergeGaps(p: Provider, s: string, range: Range, cached: seq<Candle>, gaps: seq<Range>,
                   batches: seq<seq<Candle>>)
    returns (merged: seq<Candle>)
    requires Additive(p) && range.start <= range.end && cached == p(s, range.start, range.end)
    requires AllAdjoin(range, gaps) && |batches| == |gaps|
    requires forall j :: 0 <= j < |gaps| ==> batches[j] == p(s, gaps[j].start, gaps[j].end)
    ensures merged == p(s, Widen(range, gaps).start, Widen(range, gaps).end)
  {
    hide Merge;
    merged := cached;
    ghost var covered := range;
    for i := 0 to |batches|
      invariant covered.start <= covered.end && merged == p(s, covered.start, covered.end)
      invariant AllAdjoin(covered, gaps[i..]) && Widen(covered, gaps[i..]) == Widen(range, gaps)
    {
      var gap := gaps[i];
      assert gaps[i..][0] == gap && gaps[i..][1..] == gaps[i + 1..];
      if gap.end == covered.start {
        MergeIsFetch(p, s, gap.start, covered.start, covered.end);
      } else {
        MergeIsFetch(p, s, covered.start, covered.end, gap.end);
      }
      merged := MergeCandleBatches(merged, batches[i]);
      covered := WidenBy(covered, gap);
    }
  }

  /** A fetch answers, or raises. */
  datatype Fetch = Failed | Fetched(batch: seq<Candle>)

  datatype Attempt = Got | Raised | Empty

  datatype Answer = Answer(found: Option<seq<Candle>>, symbol: string, fromCache: bool, failed: bool,
                           noData: seq<string>)

  class Cache {
    const provider: Provider
    var candles: map<string, seq<Candle>>
    var ranges: map<string, Range>
    var calls: nat

    /** Each cached list is exactly the provider's answer over the recorded range. */
    ghost predicate Valid()
      reads this
    {
      && Additive(provider) && candles.Keys == ranges.Keys
      && forall s :: s in candles ==>
           && ranges[s].start <= ranges[s].end && candles[s] != []
           && candles[s] == provider(s, ranges[s].start, ranges[s].end)
    }

    constructor (provider: Provider)
      requires Additive(provider)
      ensures Valid() && candles == map[] && ranges == map[]
    {
      this.provider := provider;
      candles, ranges, calls := map[], map[], 0;
    }

    predicate Covers(s: string, start: int, end: int)
      reads this
    {
      s in candles && s in ranges && ranges[s].start <= start && end <= ranges[s].end
    }

    /** Nothing recorded is forgotten and no range has shrunk. */
    ghost predicate GrewFrom(before: map<string, Range>)
      reads this
    {
      forall s :: s in before ==>
        s in ranges && ranges[s].start <= before[s].start && before[s].end <= ranges[s].end
    }

    /** One call of the provider; which calls fail is up to the outages. */
    method GetKlines(s: string, start: int, end: int, outage: nat -> bool) returns (f: Fetch)
      modifies this`calls
      ensures calls == old(calls) + 1
      ensures f == if outage(old(calls)) then Failed else Fetched(provider(s, start, end))
    {
      f := if outage(calls) then Failed else Fetched(provider(s, start, end));
      calls := calls + 1;
    }

    /** Fetches the missing ranges in order, until one fails. */
    method FetchAll(s: string, gaps: seq<Range>, outage: nat -> bool) returns (batches: Option<seq<seq<Candle>>>)
      modifies this`calls
      ensures old(calls) <= calls
      ensures batches.Some? <==> !OutageWithin(outage, old(calls), calls)
      ensures batches.Some? ==> |batches.value| == |gaps|
      ensures batches.Some? ==>
        forall j :: 0 <= j < |gaps| ==> batches.value[j] == provider(s, gaps[j].start, gaps[j].end)
    {
      var fetched: seq<seq<Candle>> := [];
      for i := 0 to |gaps|
        invariant calls == old(calls) + i && |fetched| == i
        invariant forall j :: 0 <= j < i ==> fetched[j] == provider(s, gaps[j].start, gaps[j].end)
        invariant forall k :: old(calls) <= k < calls ==> !outage(k)
      {
        var f := GetKlines(s, gaps[i].start, gaps[i].end, outage);
        if f.Failed? {
          assert outage(calls - 1);
          return None;
        }
        fetched := fetched + [f.batch];
      }
      batches := Some(fetched);
    }

    lemma StillNonEmpty(s: string, wide: Range, range: Range, merged: seq<Candle>)
      requires Additive(provider) && wide.start <= range.start <= range.end <= wide.end
      requires provider(s, range.start, range.end) != [] && merged == provider(s, wide.start, wide.end)
      ensures merged != []
    {
      CoveringAnswers(provider, s, wide, range.start, range.end);
      assert provider(s, range.start, range.end)[0] in Members(provider(s, range.start, range.end));
    }

    /** Records a provider answer for a range that covers what was recorded before. */
    method Store(s: string, batch: seq<Candle>, range: Range)
      requires Valid() && range.start <= range.end && batch != [] && batch == provider(s, range.start, range.end)
      requires s in ranges ==> range.start <= ranges[s].start && ranges[s].end <= range.end
      modifies this`candles, this`ranges
      ensures Valid() && GrewFrom(old(ranges))
      ensures candles == old(candles)[s := batch] && ranges == old(ranges)[s := range]
    {
      hide Additive;
      candles := candles[s := batch];
      ranges := ranges[s := range];
    }

    /** Extends a cached symbol to cover a request; a failed call leaves the cache as it was. */
    method Extend(s: string, start: int, end: int, outage: nat -> bool) returns (ok: bool)
      requires Valid() && s in candles
      modifies this
      ensures Valid()
      ensures ok ==>
        ranges == old(ranges)[s := Range(MinInt(start, old(ranges)[s].start), MaxInt(end, old(ranges)[s].end))]
      ensures ok ==> forall x :: x in old(candles) && x != s ==> x in candles && candles[x] == old(candles)[x]
      ensures !ok ==> candles == old(candles) && ranges == old(ranges)
      ensures ok ==> Covers(s, start, end)
      ensures GrewFrom(old(ranges))
      ensures old(calls) <= calls && (ok <==> !OutageWithin(outage, old(calls), calls))
    {
      hide Additive, Gaps, Widen, AllAdjoin, OutageWithin;
      var cached, range := candles[s], ranges[s];
      var gaps := Gaps(range, start, end);
      GapsCover(range, start, end);
      var batches := FetchAll(s, gaps, outage);
      if batches.None? {
        return false;
      }
      var merged := MergeGaps(provider, s, range, cached, gaps, batches.value);
      var wide := Range(MinInt(start, range.start), MaxInt(end, range.end));
      StillNonEmpty(s, wide, range, merged);
      Store(s, merged, wide);
      ok := true;
    }

    /** Caches a symbol for the first time, unless the call fails or there is no data. */
    method FetchFirst(s: string, start: int, end: int, outage: nat -> bool) returns (f: Fetch)
      requires Valid() && s !in candles
      modifies this
      ensures Valid() && old(calls) < calls
      ensures f == if outage(old(calls)) then Failed else Fetched(provider(s, start, end))
      ensures calls == old(calls) + 1 && (f.Failed? <==> OutageWithin(outage, old(calls), calls))
      ensures if f.Fetched? && f.batch != []
              then candles == old(candles)[s := f.batch] && ranges == old(ranges)[s := Range(start, end)]
              else candles == old(candles) && ranges == old(ranges)
      ensures f.Fetched? && f.batch != [] ==> Covers(s, start, end)
      ensures GrewFrom(old(ranges))
    {
      ghost var before := calls;
      f := GetKlines(s, start, end, outage);
      assert OutageWithin(outage, before, calls) <==> outage(before);
      if f.Fetched? && f.batch != [] {
        assert start <= end;
        Store(s, f.batch, Range(start, end));
      }
    }

    /** The first candidate that covers the request. */
    ghost predicate CoversFirst(candidates: seq<string>, c: string, start: int, end: int)
      reads this
    {
      exists i :: 0 <= i < |candidates| && candidates[i] == c && Covers(c, start, end)
                  && forall j :: 0 <= j < i ==> !Covers(candidates[j], start, end)
    }

    /** The first candidate whose cached range covers the request. */
    method FindCovered(candidates: seq<string>, start: int, end: int) returns (found: Option<string>)
      ensures found.Some? ==> CoversFirst(candidates, found.value, start, end)
      ensures found.None? ==> forall c :: c in candidates ==> !Covers(c, start, end)
    {
      for i := 0 to |candidates|
        invariant forall j :: 0 <= j < i ==> !Covers(candidates[j], start, end)
      {
        if Covers(candidates[i], start, end) {
          return Some(candidates[i]);
        }
      }
      return None;
    }

    ghost predicate OutageWithin(outage: nat -> bool, from: nat, to: nat)
    {
      exists k: nat :: from <= k < to && outage(k)
    }

    /** The candidate gave nothing in the calls made for it: one of them failed, or the only one found no data. */
    ghost predicate Passed(cached: map<string, seq<Candle>>, c: string, start: int, end: int, outage: nat -> bool,
                           from: nat, to: nat)
    {
      OutageWithin(outage, from, to) || (to == from + 1 && c !in cached && provider(c, start, end) == [])
    }

    /** The candidate is the first that gave anything: each before it passed in the calls made for it. */
    ghost predicate GivesFirst(cached: map<string, seq<Candle>>, candidates: seq<string>, c: string, start: int,
                               end: int, outage: nat -> bool, marks: seq<nat>)
    {
      && 0 < |marks| <= |candidates| && candidates[|marks| - 1] == c
      && forall j :: 0 <= j < |marks| - 1 ==> Passed(cached, candidates[j], start, end, outage, marks[j], marks[j + 1])
    }

    /** One more candidate passes. */
    lemma OneMorePassed(cached: map<string, seq<Candle>>, candidates: seq<string>, start: int, end: int,
                        outage: nat -> bool, marks: seq<nat>, now: nat)
      requires |marks| < |candidates|
      requires marks == [] || GivesFirst(cached, candidates, candidates[|marks| - 1], start, end, outage, marks)
      requires marks != [] ==> Passed(cached, candidates[|marks| - 1], start, end, outage, marks[|marks| - 1], now)
      ensures GivesFirst(cached, candidates, candidates[|marks|], start, end, outage, marks + [now])
    {
      hide Passed;
    }

    /** One candidate: extend what is cached, or fetch for the first time. */
    method TryCandidate(c: string, start: int, end: int, outage: nat -> bool) returns (r: Attempt)
      requires Valid()
      modifies this
      ensures Valid() && old(calls) <= calls
      ensures r.Got? ==> Covers(c, start, end) && GrewFrom(old(ranges))
      ensures !r.Got? ==> candles == old(candles) && ranges == old(ranges)
      ensures r.Raised? <==> OutageWithin(outage, old(calls), calls)
      ensures r.Empty? ==> c !in candles && provider(c, start, end) == [] && calls == old(calls) + 1
    {
      hide Additive, OutageWithin, GrewFrom, Covers;
      if c in candles {
        var ok := Extend(c, start, end, outage);
        return if ok then Got else Raised;
      }
      var f := FetchFirst(c, start, end, outage);
      if f.Failed? {
        return Raised;
      }
      return if f.batch != [] then Got else Empty;
    }

    /** Answers a request from the cache, by extending it, or by a first fetch: from the first candidate that covers
        it, or else from the first that gives anything. The marks are the calls made before each candidate tried. */
    method EnsurePrefetched(market: string, candidates: seq<string>, start: int, end: int, outage: nat -> bool)
      returns (a: Answer, ghost marks: seq<nat>)
      requires Valid()
      modifies this
      ensures Valid() && GrewFrom(old(ranges)) && old(calls) <= calls
      ensures a.fromCache ==> old(CoversFirst(candidates, a.symbol, start, end))
      ensures a.found.Some? && !a.fromCache ==>
        && GivesFirst(old(candles), candidates, a.symbol, start, end, outage, marks) && marks[0] == old(calls)
        && !OutageWithin(outage, marks[|marks| - 1], calls)
      ensures a.found.Some? ==> a.symbol in candidates && Covers(a.symbol, start, end) && !a.failed
      ensures a.found.Some? ==>
        a.found.value == provider(a.symbol, ranges[a.symbol].start, ranges[a.symbol].end)
      ensures a.found.None? ==> candles == old(candles) && ranges == old(ranges) && a.symbol == market && !a.fromCache
      ensures a.fromCache <==> exists c :: c in candidates && old(Covers(c, start, end))
      ensures a.fromCache ==> candles == old(candles) && ranges == old(ranges) && calls == old(calls)
      ensures a.found.None? ==> (a.failed <==> OutageWithin(outage, old(calls), calls))
      ensures a.found.None? && !a.failed ==> a.noData == candidates
      ensures a.found.None? && !a.failed ==>
        forall c :: c in candidates ==> c !in candles && provider(c, start, end) == []
    {
      hide Additive, OutageWithin, GivesFirst;
      var covered := FindCovered(candidates, start, end);
      if covered.Some? {
        return Answer(Some(candles[covered.value]), covered.value, true, false, []), [];
      }
      var failed := false;
      var noData: seq<string> := [];
      NoOutageYet(outage, calls);
      marks := [];
      for i := 0 to |candidates|
        invariant Valid() && candles == old(candles) && ranges == old(ranges) && old(calls) <= calls
        invariant failed <==> OutageWithin(outage, old(calls), calls)
        invariant |marks| == i && (if i == 0 then calls == old(calls) else marks[0] == old(calls))
        invariant i == 0 || GivesFirst(candles, candidates, candidates[i - 1], start, end, outage, marks)
        invariant i == 0 || Passed(candles, candidates[i - 1], start, end, outage, marks[i - 1], calls)
        invariant !failed ==> noData == candidates[..i]
        invariant !failed ==>
          forall j :: 0 <= j < i ==> candidates[j] !in candles && provider(candidates[j], start, end) == []
      {
        var c := candidates[i];
        assert candidates[..i + 1] == candidates[..i] + [c];
        ghost var before := calls;
        OneMorePassed(candles, candidates, start, end, outage, marks, before);
        marks := marks + [before];
        var r := TryCandidate(c, start, end, outage);
        OutagesJoin(outage, old(calls), before, calls);
        match r
        case Got => return Answer(Some(candles[c]), c, false, false, noData), marks;
        case Raised => failed := true;
        case Empty => noData := noData + [c];
      }
      a := Answer(None, market, false, failed, noData);
    }

    lemma NoOutageYet(outage: nat -> bool, from: nat)
      ensures !OutageWithin(outage, from, from)
    {
    }

    lemma OutagesJoin(outage: nat -> bool, a: nat, b: nat, c: nat)
      requires a <= b <= c
      ensures OutageWithin(outage, a, c) <==> OutageWithin(outage, a, b) || OutageWithin(outage, b, c)
    {
    }

    /** A symbol whose candles have been written out is dropped from both dictionaries. */
    method Release(s: string)
      requires Valid()
      modifies this
      ensures Valid() && candles == old(candles) - {s} && ranges == old(ranges) - {s}
    {
      candles := candles - {s};
      ranges := ranges - {s};
    }
  }
}
