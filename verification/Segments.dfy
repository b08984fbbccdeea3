/** Replaying a candle history segment by segment gives what one replay of the whole gives. */
module Segments {
  import opened Core
  import opened Market
  import opened Lookups
  import opened Positions
  import opened Sizing
  import opened Events
  import opened Replay

  // ---- premises a caller can check ----

  /** Each candle closes before the next one opens. */
  ghost predicate Chronological(candles: seq<Candle>)
  {
    forall i, j :: 0 <= i < j < |candles| ==> candles[i].closeTime <= candles[j].openTime
  }

  ghost predicate OneMarket(candles: seq<Candle>, m: MarketKey)
  {
    m.Some? && forall i :: 0 <= i < |candles| ==> candles[i].market == m
  }

  function Last(candles: seq<Candle>): Candle
    requires candles != []
  {
    candles[|candles| - 1]
  }

  function Flatten(segments: seq<seq<Candle>>): seq<Candle>
  {
    if segments == [] then [] else segments[0] + Flatten(segments[1..])
  }

  /** Consecutive segments of one market's history; each later one reaches a strictly later candle. */
  ghost predicate Segmented(segments: seq<seq<Candle>>, m: MarketKey)
  {
    && segments != []
    && (forall k :: 0 <= k < |segments| ==> segments[k] != [])
    && (forall k :: 0 < k < |segments| ==> Last(segments[k - 1]).closeTime < Last(segments[k]).openTime)
    && Chronological(Flatten(segments)) && OneMarket(Flatten(segments), m)
  }

  /** No event lies strictly inside the last candle of a segment that is not the last. */
  ghost predicate NoneInside(events: seq<Event>, segments: seq<seq<Candle>>)
  {
    forall k, j :: 0 <= k < |segments| - 1 && segments[k] != [] && 0 <= j < |events| ==>
      events[j].timestamp <= Last(segments[k]).openTime || Last(segments[k]).closeTime <= events[j].timestamp
  }

  /** The entry is touched in the segment in which the event is applied, or in no later one. */
  ghost predicate EntryFits(e: Event, segments: seq<seq<Candle>>)
  {
    segments == [] || segments[0] == [] || !Opens(e) ||
    if e.timestamp <= Last(segments[0]).openTime then
      FindEntry(e.parsed, e.parsed.symbol.value, e.timestamp, segments[0]).None? ==>
        FindEntry(e.parsed, e.parsed.symbol.value, e.timestamp, Flatten(segments[1..])).None?
    else EntryFits(e, segments[1..])
  }

  /** The runner's loop over candle artifacts: state is carried, positions close in the last one only. */
  function ReplaySegments(s: Preview, events: seq<Event>, segments: seq<seq<Candle>>, closeAtEnd: bool,
                          cfg: Config, policy: FillPolicy): Preview
    decreases |segments|
  {
    if segments == [] then s
    else
      var next := ResumeSorted(s, events, segments[0], closeAtEnd && |segments| == 1, cfg, policy);
      ReplaySegments(next, events, segments[1..], closeAtEnd, cfg, policy)
  }

  // ---- sweeps over a concatenation ----

  lemma {:induction false} SweepPrefix(open: seq<Position>, a: seq<Candle>, b: seq<Candle>, i: nat,
                                       stopAt: Option<int>, policy: FillPolicy)
    requires i < |a| && Stops(Last(a), stopAt)
    ensures Sweep(open, a + b, i, stopAt, policy) == Sweep(open, a, i, stopAt, policy)
    ensures Sweep(open, a, i, stopAt, policy).index < |a|
    decreases |a| - i
  {
    hide StepCandle;
    assert (a + b)[i] == a[i];
    if !Stops(a[i], stopAt) {
      SweepPrefix(StepCandle(open, a[i], policy).open, a, b, i + 1, stopAt, policy);
    }
  }

  lemma {:induction false} SweepSuffix(open: seq<Position>, a: seq<Candle>, b: seq<Candle>, i: nat,
                                       stopAt: Option<int>, policy: FillPolicy)
    requires i <= |b|
    ensures var r := Sweep(open, b, i, stopAt, policy);
            Sweep(open, a + b, |a| + i, stopAt, policy) == Swept(r.open, r.resolved, |a| + r.index)
    decreases |b| - i
  {
    hide StepCandle;
    if i < |b| {
      assert (a + b)[|a| + i] == b[i];
      if !Stops(b[i], stopAt) {
        SweepSuffix(StepCandle(open, b[i], policy).open, a, b, i + 1, stopAt, policy);
      }
    }
  }

  /** A sweep that clears the first part is a full sweep of it, then a sweep of the second. */
  lemma {:induction false} SweepAcross(open: seq<Position>, a: seq<Candle>, b: seq<Candle>, i: nat,
                                       stopAt: Option<int>, policy: FillPolicy)
    requires i <= |a| && forall j :: i <= j < |a| ==> !Stops(a[j], stopAt)
    ensures var one := Sweep(open, a, i, None, policy);
            var two := Sweep(one.open, b, 0, stopAt, policy);
            Sweep(open, a + b, i, stopAt, policy) ==
            Swept(two.open, one.resolved + two.resolved, |a| + two.index)
    decreases |a| - i
  {
    hide StepCandle;
    if i == |a| {
      SweepSuffix(open, a, b, 0, stopAt, policy);
      assert Sweep(open, a, i, None, policy).resolved == [];
      var two := Sweep(open, b, 0, stopAt, policy);
      assert [] + two.resolved == two.resolved;
    } else {
      assert (a + b)[i] == a[i];
      var step := StepCandle(open, a[i], policy);
      SweepAcross(step.open, a, b, i + 1, stopAt, policy);
      var one := Sweep(step.open, a, i + 1, None, policy);
      var two := Sweep(one.open, b, 0, stopAt, policy);
      assert step.trades + (one.resolved + two.resolved) == step.trades + one.resolved + two.resolved;
    }
  }

  lemma {:induction false} RecordAllSplit(closed: seq<Trade>, x: seq<Trade>, y: seq<Trade>)
    ensures RecordAll(closed, x + y) == RecordAll(RecordAll(closed, x), y)
    decreases |x|
  {
    if x == [] {
      assert x + y == y;
    } else {
      assert (x + y)[1..] == x[1..] + y;
      RecordAllSplit(Record(closed, x[0]), x[1..], y);
    }
  }

  // ---- every open position trades the one market ----

  ghost predicate AllOn(open: seq<Position>, m: MarketKey)
  {
    forall i :: 0 <= i < |open| ==> open[i].market == m
  }

  lemma {:induction false} StepStaysOn(open: seq<Position>, c: Candle, policy: FillPolicy, m: MarketKey)
    requires AllOn(open, m)
    ensures AllOn(StepCandle(open, c, policy).open, m)
    decreases |open|
  {
    hide Face;
    if open != [] {
      StepStaysOn(open[1..], c, policy, m);
    }
  }

  lemma {:induction false} SweepStaysOn(open: seq<Position>, candles: seq<Candle>, i: nat, stopAt: Option<int>,
                                        policy: FillPolicy, m: MarketKey)
    requires i <= |candles| && AllOn(open, m)
    ensures AllOn(Sweep(open, candles, i, stopAt, policy).open, m)
    decreases |candles| - i
  {
    hide StepCandle;
    if i < |candles| && !Stops(candles[i], stopAt) {
      StepStaysOn(open, candles[i], policy, m);
      SweepStaysOn(StepCandle(open, candles[i], policy).open, candles, i + 1, stopAt, policy, m);
    }
  }

  lemma DecideStaysOn(e: Event, market: MarketKey, open: seq<Position>, balance: real, candles: seq<Candle>,
                      cfg: Config, m: MarketKey)
    requires OneMarket(candles, m)
    ensures var d := Decide(e, market, open, balance, candles, cfg); d.Filled? ==> d.position.market == m
  {
    hide OrderQuantity, Protect;
  }

  lemma EventStaysOn(e: Event, open: seq<Position>, balance: real, candles: seq<Candle>, cfg: Config, m: MarketKey)
    requires AllOn(open, m) && OneMarket(candles, m)
    ensures AllOn(ApplyEvent(e, open, balance, candles, cfg).open, m)
  {
    hide Decide, CloseAll, Follow;
    if Opens(e) {
      DecideStaysOn(e, e.parsed.symbol.value, open, balance, candles, cfg, m);
    }
  }

  // ---- events look at a part of the history only ----

  /** An event behaves the same on two candle lists that answer its lookups alike. */
  lemma SameAnswersSameEffect(e: Event, open: seq<Position>, balance: real, x: seq<Candle>, y: seq<Candle>,
                              cfg: Config, m: MarketKey)
    requires AllOn(open, m)
    requires Opens(e) ==> FindEntry(e.parsed, e.parsed.symbol.value, e.timestamp, x) ==
                          FindEntry(e.parsed, e.parsed.symbol.value, e.timestamp, y)
    requires OpenAfter(e.timestamp, x, m) == OpenAfter(e.timestamp, y, m)
    ensures ApplyEvent(e, open, balance, x, cfg) == ApplyEvent(e, open, balance, y, cfg)
  {
    hide FindEntry, OrderQuantity, Protect, OpenAfter, Put, Follow, Remove, CloseFully, IndexOf;
    if ClosesAll(e) {
      SameAnswersCloseAll(open, e.timestamp, x, y, m);
    }
    forall p | p in open
      ensures Follow(p, e, x, cfg) == Follow(p, e, y, cfg)
    {
      SameAnswersFollow(p, e, x, y, cfg);
    }
  }

  lemma SameAnswersFollow(p: Position, e: Event, x: seq<Candle>, y: seq<Candle>, cfg: Config)
    requires OpenAfter(e.timestamp, x, p.market) == OpenAfter(e.timestamp, y, p.market)
    ensures Follow(p, e, x, cfg) == Follow(p, e, y, cfg)
  {
    hide OpenAfter, Update, CloseFraction, Finalize, CloseRemaining;
  }

  lemma {:induction false} SameAnswersCloseAll(open: seq<Position>, time: int, x: seq<Candle>, y: seq<Candle>,
        m: MarketKey)
    requires AllOn(open, m) && OpenAfter(time, x, m) == OpenAfter(time, y, m)
    ensures CloseAll(open, time, x) == CloseAll(open, time, y)
  {
    hide OpenAfter, CloseFraction, Finalize;
    if open != [] {
      SameAnswersCloseAll(open[1..], time, x, y, m);
    }
  }

  lemma {:induction false} EntryPrefix(s: Signal, market: MarketKey, time: int, a: seq<Candle>, b: seq<Candle>, i: nat)
    requires i <= |a|
    ensures EntryIndex(s, market, time, a, i).Some? ==>
              EntryIndex(s, market, time, a + b, i) == EntryIndex(s, market, time, a, i)
    decreases |a| - i
  {
    if i < |a| {
      assert (a + b)[i] == a[i];
      EntryPrefix(s, market, time, a, b, i + 1);
    }
  }

  lemma {:induction false} EntrySuffix(s: Signal, market: MarketKey, time: int, a: seq<Candle>, b: seq<Candle>, i: nat)
    requires i <= |b|
    ensures var k := EntryIndex(s, market, time, b, i);
            EntryIndex(s, market, time, a + b, |a| + i) == if k.Some? then Some(|a| + k.value) else None
    decreases |b| - i
  {
    if i < |b| {
      assert (a + b)[|a| + i] == b[i];
      EntrySuffix(s, market, time, a, b, i + 1);
    }
  }

  lemma {:induction false} EntrySkips(s: Signal, market: MarketKey, time: int, a: seq<Candle>, b: seq<Candle>, i: nat)
    requires i <= |a| && EntryIndex(s, market, time, a, i).None?
    ensures EntryIndex(s, market, time, a + b, i) == EntryIndex(s, market, time, a + b, |a|)
    decreases |a| - i
  {
    if i < |a| {
      assert (a + b)[i] == a[i];
      EntrySkips(s, market, time, a, b, i + 1);
    }
  }

  /** The entry found in the whole is the one found in the first part, or else in the second. */
  lemma FindEntryAcross(s: Signal, market: MarketKey, time: int, a: seq<Candle>, b: seq<Candle>)
    ensures FindEntry(s, market, time, a + b) ==
            if FindEntry(s, market, time, a).Some? then FindEntry(s, market, time, a)
            else FindEntry(s, market, time, b)
  {
    EntryPrefix(s, market, time, a, b, 0);
    EntrySuffix(s, market, time, a, b, 0);
    if EntryIndex(s, market, time, a, 0).None? {
      EntrySkips(s, market, time, a, b, 0);
    }
  }

  lemma {:induction false} NextPrefix(time: int, a: seq<Candle>, b: seq<Candle>, m: MarketKey, i: nat)
    requires i <= |a|
    ensures NextIndex(time, a, m, i).Some? ==> NextIndex(time, a + b, m, i) == NextIndex(time, a, m, i)
    ensures NextIndex(time, a, m, i).None? ==> NextIndex(time, a + b, m, i) == NextIndex(time, a + b, m, |a|)
    decreases |a| - i
  {
    if i < |a| {
      assert (a + b)[i] == a[i];
      NextPrefix(time, a, b, m, i + 1);
    }
  }

  lemma {:induction false} NextSuffix(time: int, a: seq<Candle>, b: seq<Candle>, m: MarketKey, i: nat)
    requires i <= |b|
    ensures var k := NextIndex(time, b, m, i);
            NextIndex(time, a + b, m, |a| + i) == if k.Some? then Some(|a| + k.value) else None
    decreases |b| - i
  {
    if i < |b| {
      assert (a + b)[|a| + i] == b[i];
      NextSuffix(time, a, b, m, i + 1);
    }
  }

  lemma OpenAfterAcross(time: int, a: seq<Candle>, b: seq<Candle>, m: MarketKey)
    ensures OpenAfter(time, a + b, m) ==
            if OpenAfter(time, a, m).Some? then OpenAfter(time, a, m) else OpenAfter(time, b, m)
  {
    NextPrefix(time, a, b, m, 0);
    NextSuffix(time, a, b, m, 0);
  }
}
