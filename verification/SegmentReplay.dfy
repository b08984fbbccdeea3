/** The proof that carrying state across segments loses and repeats nothing. */
module SegmentReplay {
  import opened Core
  import opened Market
  import opened Lookups
  import opened Positions
  import opened Sizing
  import opened Events
  import opened Replay
  import opened Segments

  /** Two consecutive pieces of one market's history. */
  ghost predicate Adjoins(a: seq<Candle>, b: seq<Candle>, m: MarketKey)
  {
    a != [] && b != [] && Chronological(a + b) && OneMarket(a + b, m)
  }

  /** A history cut in two between candles; the second part reaches a strictly later candle. */
  ghost predicate Cut(a: seq<Candle>, b: seq<Candle>, m: MarketKey)
  {
    Adjoins(a, b, m) && Last(a).closeTime < Last(b).openTime
  }

  /** A state whose candles all lie before the segment that comes next. */
  ghost predicate Ready(s: Preview, events: seq<Event>, a: seq<Candle>, m: MarketKey)
  {
    && a != [] && s.count <= |events| && AllOn(s.open, m)
    && (s.until.Some? ==> s.until.value <= a[0].openTime && s.until.value < Last(a).openTime)
  }

  /** No event still to come lies strictly inside the last candle before the cut. */
  ghost predicate Between(s: Preview, events: seq<Event>, a: seq<Candle>)
    requires a != []
  {
    forall j :: s.count <= j < |events| ==>
      events[j].timestamp <= Last(a).openTime || Last(a).closeTime <= events[j].timestamp
  }

  /** Just before event j, in the segment that ends at the cut. */
  function Before(s: Preview, events: seq<Event>, j: nat, a: seq<Candle>, cfg: Config, policy: FillPolicy): Live
    requires s.count <= j < |events|
  {
    SweepLive(LiveAfter(s, events, j, a, cfg, policy), a, Some(events[j].timestamp), policy)
  }

  /** Event j is applied before the cut, finds no entry there, and would be filled if the later candles were seen. */
  ghost predicate Lost(s: Preview, events: seq<Event>, j: nat, a: seq<Candle>, b: seq<Candle>, cfg: Config,
                       policy: FillPolicy)
    requires s.count <= j < |events| && a != []
  {
    var e, l := events[j], Before(s, events, j, a, cfg, policy);
    && Opens(e) && e.timestamp <= Last(a).openTime
    && FindEntry(e.parsed, e.parsed.symbol.value, e.timestamp, a).None?
    && Decide(e, e.parsed.symbol.value, l.open, Balance(l.closed, cfg), a + b, cfg).Filled?
  }

  /** No event before the n-th is lost at the cut. */
  ghost predicate FitsUpTo(s: Preview, events: seq<Event>, n: nat, a: seq<Candle>, b: seq<Candle>, cfg: Config,
                           policy: FillPolicy)
    requires n <= |events| && a != []
  {
    forall j :: s.count <= j < n ==> !Lost(s, events, j, a, b, cfg, policy)
  }

  /** What the events still to come must satisfy at a cut. */
  ghost predicate EventsFit(s: Preview, events: seq<Event>, a: seq<Candle>, b: seq<Candle>, cfg: Config,
                            policy: FillPolicy)
    requires a != []
  {
    Between(s, events, a) && FitsUpTo(s, events, |events|, a, b, cfg, policy)
  }

  lemma CutParts(a: seq<Candle>, b: seq<Candle>, m: MarketKey)
    requires Adjoins(a, b, m)
    ensures OneMarket(a, m) && OneMarket(b, m) && Chronological(a) && Chronological(b)
    ensures forall i, j :: 0 <= i < |a| && 0 <= j < |b| ==> a[i].closeTime <= b[j].openTime
    ensures Last(a + b) == Last(b)
    ensures forall i :: 0 <= i < |a| ==> a[i].closeTime <= Last(a).closeTime && a[i].openTime <= Last(a).openTime
  {
    forall i | 0 <= i < |a|
      ensures (a + b)[i] == a[i] && a[i].market == m
    {
    }
    forall j | 0 <= j < |b|
      ensures (a + b)[|a| + j] == b[j] && b[j].market == m
    {
    }
    forall i, j | 0 <= i < j < |a|
      ensures a[i].closeTime <= a[j].openTime
    {
      assert (a + b)[i].closeTime <= (a + b)[j].openTime;
    }
    forall i, j | 0 <= i < j < |b|
      ensures b[i].closeTime <= b[j].openTime
    {
      assert (a + b)[|a| + i].closeTime <= (a + b)[|a| + j].openTime;
    }
    forall i, j | 0 <= i < |a| && 0 <= j < |b|
      ensures a[i].closeTime <= b[j].openTime
    {
      assert (a + b)[i].closeTime <= (a + b)[|a| + j].openTime;
    }
  }

  // ---- an event of the first part sees the first part; a later one the second ----

  lemma EarlyEvent(e: Event, open: seq<Position>, balance: real, a: seq<Candle>, b: seq<Candle>,
                   cfg: Config, m: MarketKey)
    requires Adjoins(a, b, m) && AllOn(open, m) && e.timestamp <= Last(a).openTime
    requires Opens(e) && FindEntry(e.parsed, e.parsed.symbol.value, e.timestamp, a).None? ==>
      Decide(e, e.parsed.symbol.value, open, balance, a + b, cfg).Refused?
    ensures ApplyEvent(e, open, balance, a + b, cfg) == ApplyEvent(e, open, balance, a, cfg)
  {
    hide FindEntry, OrderQuantity, Protect, CloseAll, Follow;
    CutParts(a, b, m);
    OpenAfterAcross(e.timestamp, a, b, m);
    assert NextIndex(e.timestamp, a, m, 0).Some?;
    if Opens(e) {
      FindEntryAcross(e.parsed, e.parsed.symbol.value, e.timestamp, a, b);
    } else {
      SameAnswersSameEffect(e, open, balance, a + b, a, cfg, m);
    }
  }

  lemma LateEvent(e: Event, open: seq<Position>, balance: real, a: seq<Candle>, b: seq<Candle>,
                  cfg: Config, m: MarketKey)
    requires Adjoins(a, b, m) && AllOn(open, m) && Last(a).closeTime <= e.timestamp
    ensures ApplyEvent(e, open, balance, a + b, cfg) == ApplyEvent(e, open, balance, b, cfg)
  {
    hide ApplyEvent;
    CutParts(a, b, m);
    OpenAfterAcross(e.timestamp, a, b, m);
    if Opens(e) {
      FindEntryAcross(e.parsed, e.parsed.symbol.value, e.timestamp, a, b);
    }
    SameAnswersSameEffect(e, open, balance, a + b, b, cfg, m);
  }

  // ---- which events are due ----

  lemma StartsAtZero(s: Preview, events: seq<Event>, a: seq<Candle>, m: MarketKey)
    requires Ready(s, events, a, m)
    ensures ResumeIndex(a, s.until, 0) == 0
  {
  }

  lemma DeferredByLast(s: Preview, candles: seq<Candle>, e: Event)
    requires candles != [] && (s.until.Some? ==> s.until.value < Last(candles).openTime)
    ensures Deferred(s, candles, e) <==> Last(candles).openTime < e.timestamp
  {
  }

  /** The state between two segments. */
  function Middle(s: Preview, events: seq<Event>, a: seq<Candle>, cfg: Config, policy: FillPolicy): Preview
  {
    ResumeSorted(s, events, a, false, cfg, policy)
  }

  /** Whole and part stand alike just before an early event, if they did after the event before it. */
  lemma BeforeAlike(s: Preview, events: seq<Event>, j: nat, a: seq<Candle>, b: seq<Candle>, cfg: Config,
                    policy: FillPolicy, m: MarketKey)
    requires Adjoins(a, b, m) && s.count <= j < |events| && events[j].timestamp <= Last(a).openTime
    requires LiveAfter(s, events, j, a + b, cfg, policy) == LiveAfter(s, events, j, a, cfg, policy)
    requires AllOn(LiveAfter(s, events, j, a, cfg, policy).open, m)
    requires LiveAfter(s, events, j, a, cfg, policy).cursor < |a|
    ensures Before(s, events, j, a + b, cfg, policy) == Before(s, events, j, a, cfg, policy)
    ensures AllOn(Before(s, events, j, a, cfg, policy).open, m)
    ensures Before(s, events, j, a, cfg, policy).cursor < |a|
  {
    hide Sweep, RecordAll, LiveAfter;
    CutParts(a, b, m);
    var l := LiveAfter(s, events, j, a, cfg, policy);
    var stopAt := Some(events[j].timestamp);
    SweepPrefix(l.open, a, b, l.cursor, stopAt, policy);
    SweepStaysOn(l.open, a, l.cursor, stopAt, policy, m);
  }

  /** After the events of the first part, whole and part stand alike, short of the part's last candle. */
  lemma {:induction false} FirstPart(s: Preview, events: seq<Event>, k: nat, a: seq<Candle>, b: seq<Candle>,
                                     cfg: Config, policy: FillPolicy, m: MarketKey)
    requires Adjoins(a, b, m) && Ready(s, events, a, m)
    requires s.count <= k <= DueCount(s, events, a, s.count) && FitsUpTo(s, events, k, a, b, cfg, policy)
    ensures LiveAfter(s, events, k, a + b, cfg, policy) == LiveAfter(s, events, k, a, cfg, policy)
    ensures AllOn(LiveAfter(s, events, k, a, cfg, policy).open, m)
    ensures LiveAfter(s, events, k, a, cfg, policy).cursor < |a|
    decreases k
  {
    hide ApplyEvent, Sweep, FindEntry, RecordAll, TotalPnl, Decide;
    CutParts(a, b, m);
    StartsAtZero(s, events, a, m);
    assert (a + b)[0] == a[0];
    assert ResumeIndex(a + b, s.until, 0) == 0;
    if k != s.count {
      var e := events[k - 1];
      FirstPart(s, events, k - 1, a, b, cfg, policy, m);
      DeferredByLast(s, a, e);
      BeforeAlike(s, events, k - 1, a, b, cfg, policy, m);
      var w := Before(s, events, k - 1, a, cfg, policy);
      assert !Lost(s, events, k - 1, a, b, cfg, policy);
      EarlyEvent(e, w.open, Balance(w.closed, cfg), a, b, cfg, m);
      EventStaysOn(e, w.open, Balance(w.closed, cfg), a, cfg, m);
    }
  }

  function Shift(l: Live, n: nat): Live { l.(cursor := n + l.cursor) }

  /** One more event after the cut, when the first part may still have candles to clear. */
  lemma StepAcross(l: Live, e: Event, a: seq<Candle>, b: seq<Candle>, cfg: Config, policy: FillPolicy, m: MarketKey)
    requires Cut(a, b, m) && l.cursor <= |a| && AllOn(l.open, m) && Last(a).closeTime <= e.timestamp
    ensures LiveStep(l, e, a + b, cfg, policy) ==
            Shift(LiveStep(SweepLive(l, a, None, policy).(cursor := 0), e, b, cfg, policy), |a|)
  {
    hide ApplyEvent, Sweep;
    CutParts(a, b, m);
    var stopAt := Some(e.timestamp);
    SweepAcross(l.open, a, b, l.cursor, stopAt, policy);
    var one := Sweep(l.open, a, l.cursor, None, policy);
    var two := Sweep(one.open, b, 0, stopAt, policy);
    RecordAllSplit(l.closed, one.resolved, two.resolved);
    SweepStaysOn(l.open, a, l.cursor, None, policy, m);
    SweepStaysOn(one.open, b, 0, stopAt, policy, m);
    var w := SweepLive(l, a + b, stopAt, policy);
    LateEvent(e, w.open, Balance(w.closed, cfg), a, b, cfg, m);
  }

  /** One more event when the whole already stands in the second part. */
  lemma StepBeyond(l: Live, e: Event, a: seq<Candle>, b: seq<Candle>, cfg: Config, policy: FillPolicy, m: MarketKey)
    requires Cut(a, b, m) && l.cursor <= |b| && AllOn(l.open, m) && Last(a).closeTime <= e.timestamp
    ensures LiveStep(Shift(l, |a|), e, a + b, cfg, policy) == Shift(LiveStep(l, e, b, cfg, policy), |a|)
  {
    hide ApplyEvent, Sweep;
    var stopAt := Some(e.timestamp);
    SweepSuffix(l.open, a, b, l.cursor, stopAt, policy);
    SweepStaysOn(l.open, b, l.cursor, stopAt, policy, m);
    var w := SweepLive(l, b, stopAt, policy);
    LateEvent(e, w.open, Balance(w.closed, cfg), a, b, cfg, m);
  }

  lemma LiveStepStaysOn(l: Live, e: Event, candles: seq<Candle>, cfg: Config, policy: FillPolicy, m: MarketKey)
    requires l.cursor <= |candles| && AllOn(l.open, m) && OneMarket(candles, m)
    ensures AllOn(LiveStep(l, e, candles, cfg, policy).open, m)
  {
    hide ApplyEvent, Sweep;
    SweepStaysOn(l.open, candles, l.cursor, Some(e.timestamp), policy, m);
    var w := SweepLive(l, candles, Some(e.timestamp), policy);
    EventStaysOn(e, w.open, Balance(w.closed, cfg), candles, cfg, m);
  }

  /** The carried state is ready for the second part, with exactly the later events still to come. */
  lemma MiddleReady(s: Preview, events: seq<Event>, a: seq<Candle>, b: seq<Candle>, cfg: Config,
                    policy: FillPolicy, m: MarketKey)
    requires Cut(a, b, m) && Ready(s, events, a, m) && EventsFit(s, events, a, b, cfg, policy) && EventsOrdered(events)
    ensures var n := DueCount(s, events, a, s.count);
            var l := LiveAfter(s, events, n, a, cfg, policy);
            var t := Middle(s, events, a, cfg, policy);
            && Ready(t, events, b, m) && t.count == n && t.until == Some(Last(a).closeTime)
            && Live(t.open, t.closed, 0) == SweepLive(l, a, None, policy).(cursor := 0)
            && (forall j :: n <= j < |events| ==> Last(a).closeTime <= events[j].timestamp)
  {
    hide LiveAfter, Sweep;
    var n := DueCount(s, events, a, s.count);
    var l := LiveAfter(s, events, n, a, cfg, policy);
    CutParts(a, b, m);
    FirstPart(s, events, n, a, b, cfg, policy, m);
    SweepReachesEnd(l.open, a, l.cursor, policy);
    SweepStaysOn(l.open, a, l.cursor, None, policy, m);
    if n < |events| {
      DeferredByLast(s, a, events[n]);
    }
  }

  /** After the first event of the second part, whole and second part stand alike. */
  lemma {:induction false} SecondPart(s: Preview, events: seq<Event>, k: nat, a: seq<Candle>, b: seq<Candle>,
                                      cfg: Config, policy: FillPolicy, m: MarketKey)
    requires Cut(a, b, m) && Ready(s, events, a, m) && EventsFit(s, events, a, b, cfg, policy) && EventsOrdered(events)
    requires DueCount(s, events, a, s.count) < k <= |events|
    ensures var t := Middle(s, events, a, cfg, policy);
            && t.count <= k
            && LiveAfter(s, events, k, a + b, cfg, policy) == Shift(LiveAfter(t, events, k, b, cfg, policy), |a|)
            && AllOn(LiveAfter(t, events, k, b, cfg, policy).open, m)
    decreases k
  {
    hide LiveStep, Sweep, Middle;
    var n := DueCount(s, events, a, s.count);
    var t := Middle(s, events, a, cfg, policy);
    var e := events[k - 1];
    CutParts(a, b, m);
    MiddleReady(s, events, a, b, cfg, policy, m);
    StartsAtZero(t, events, b, m);
    if k - 1 == n {
      FirstPart(s, events, n, a, b, cfg, policy, m);
      var l := LiveAfter(s, events, n, a, cfg, policy);
      StepAcross(l, e, a, b, cfg, policy, m);
      LiveStepStaysOn(Live(t.open, t.closed, 0), e, b, cfg, policy, m);
    } else {
      var l := LiveAfter(t, events, k - 1, b, cfg, policy);
      SecondPart(s, events, k - 1, a, b, cfg, policy, m);
      StepBeyond(l, e, a, b, cfg, policy, m);
      LiveStepStaysOn(l, e, b, cfg, policy, m);
    }
  }

  /** The last sweep, when no event is left for the second part. */
  lemma FinishAtCut(s: Preview, events: seq<Event>, a: seq<Candle>, b: seq<Candle>, cfg: Config, policy: FillPolicy,
                    m: MarketKey)
    requires Cut(a, b, m) && Ready(s, events, a, m) && EventsFit(s, events, a, b, cfg, policy) && EventsOrdered(events)
    ensures var k := DueCount(s, events, a, s.count);
            var t := Middle(s, events, a, cfg, policy);
            && t.count == k
            && SweepLive(LiveAfter(s, events, k, a + b, cfg, policy), a + b, None, policy) ==
               Shift(SweepLive(LiveAfter(t, events, k, b, cfg, policy), b, None, policy), |a|)
            && AllOn(SweepLive(LiveAfter(t, events, k, b, cfg, policy), b, None, policy).open, m)
  {
    hide LiveStep, Sweep, Middle, Between, Lost, Chronological, DueCount, RecordAll;
    var k := DueCount(s, events, a, s.count);
    var t := Middle(s, events, a, cfg, policy);
    CutParts(a, b, m);
    MiddleReady(s, events, a, b, cfg, policy, m);
    StartsAtZero(t, events, b, m);
    FirstPart(s, events, k, a, b, cfg, policy, m);
    var l := LiveAfter(s, events, k, a, cfg, policy);
    SweepAcross(l.open, a, b, l.cursor, None, policy);
    var one := Sweep(l.open, a, l.cursor, None, policy);
    RecordAllSplit(l.closed, one.resolved, Sweep(one.open, b, 0, None, policy).resolved);
    SweepStaysOn(t.open, b, 0, None, policy, m);
  }

  /** The last sweep and the closing of what is still open. */
  lemma FinishAcross(s: Preview, events: seq<Event>, k: nat, a: seq<Candle>, b: seq<Candle>,
                     cfg: Config, policy: FillPolicy, m: MarketKey)
    requires Cut(a, b, m) && Ready(s, events, a, m) && EventsFit(s, events, a, b, cfg, policy) && EventsOrdered(events)
    requires DueCount(s, events, a, s.count) <= k <= |events|
    ensures var t := Middle(s, events, a, cfg, policy);
            && t.count <= k
            && SweepLive(LiveAfter(s, events, k, a + b, cfg, policy), a + b, None, policy) ==
               Shift(SweepLive(LiveAfter(t, events, k, b, cfg, policy), b, None, policy), |a|)
            && AllOn(SweepLive(LiveAfter(t, events, k, b, cfg, policy), b, None, policy).open, m)
  {
    hide LiveStep, LiveAfter, Sweep, Middle, EventsFit, DueCount, RecordAll, Ready;
    if k == DueCount(s, events, a, s.count) {
      FinishAtCut(s, events, a, b, cfg, policy, m);
    } else {
      CutParts(a, b, m);
      SecondPart(s, events, k, a, b, cfg, policy, m);
      var l := LiveAfter(Middle(s, events, a, cfg, policy), events, k, b, cfg, policy);
      SweepSuffix(l.open, a, b, l.cursor, None, policy);
      SweepStaysOn(l.open, b, l.cursor, None, policy, m);
    }
  }

  lemma {:induction false} LastAcross(a: seq<Candle>, b: seq<Candle>, m: MarketKey)
    requires b != [] && OneMarket(b, m)
    ensures forall fallback: Price :: LastPrice(a + b, m, fallback) == LastPrice(b, m, fallback)
  {
    assert (a + b)[|a + b| - 1] == b[|b| - 1];
    assert LastIndex(b, |b|, m) == Some(|b| - 1);
    assert LastIndex(a + b, |a + b|, m) == Some(|a + b| - 1);
  }

  lemma {:induction false} EndsAlike(open: seq<Position>, a: seq<Candle>, b: seq<Candle>, m: MarketKey)
    requires b != [] && OneMarket(b, m) && AllOn(open, m)
    ensures EndTrades(open, a + b) == EndTrades(open, b)
  {
    hide CloseRemaining, LastPrice;
    LastAcross(a, b, m);
    if open != [] {
      EndsAlike(open[1..], a, b, m);
    }
  }

  /** Which events are due does not depend on where the history is cut. */
  lemma {:induction false} DueAlike(s: Preview, t: Preview, events: seq<Event>, x: seq<Candle>, y: seq<Candle>,
                                    k: nat, n: nat)
    requires x != [] && y != [] && Last(x) == Last(y) && k <= n <= |events|
    requires s.until.Some? ==> s.until.value < Last(x).openTime
    requires t.until.Some? ==> t.until.value < Last(x).openTime
    requires forall j :: k <= j < n ==> events[j].timestamp <= Last(x).openTime
    ensures DueCount(s, events, x, k) == DueCount(t, events, y, n)
    decreases |events| - k
  {
    if k < |events| {
      DeferredByLast(s, x, events[k]);
      DeferredByLast(t, y, events[k]);
      if k < n {
        DueAlike(s, t, events, x, y, k + 1, n);
      } else if !Deferred(s, x, events[k]) {
        DueAlike(s, t, events, x, y, k + 1, n + 1);
      }
    }
  }

  /** Two segments: carrying the state over the cut is the same as not cutting. */
  lemma TwoSegments(s: Preview, events: seq<Event>, a: seq<Candle>, b: seq<Candle>, closeAtEnd: bool,
                    cfg: Config, policy: FillPolicy, m: MarketKey)
    requires Cut(a, b, m) && Ready(s, events, a, m) && EventsFit(s, events, a, b, cfg, policy) && EventsOrdered(events)
    ensures ResumeSorted(Middle(s, events, a, cfg, policy), events, b, closeAtEnd, cfg, policy) ==
            ResumeSorted(s, events, a + b, closeAtEnd, cfg, policy)
  {
    hide Sweep, LiveAfter, EndTrades, Middle;
    var t := Middle(s, events, a, cfg, policy);
    CutParts(a, b, m);
    MiddleReady(s, events, a, b, cfg, policy, m);
    forall j | s.count <= j < t.count
      ensures events[j].timestamp <= Last(a + b).openTime
    {
      DeferredByLast(s, a, events[j]);
    }
    DueAlike(s, t, events, a + b, b, s.count, t.count);
    var n := DueCount(t, events, b, t.count);
    FinishAcross(s, events, n, a, b, cfg, policy, m);
    var l := LiveAfter(t, events, n, b, cfg, policy);
    SweepReachesEnd(l.open, b, l.cursor, policy);
    EndsAlike(SweepLive(l, b, None, policy).open, a, b, m);
  }

  // ---- any number of segments ----

  /** What is left of the premises once the first segment has been replayed. */
  ghost predicate Remaining(s: Preview, events: seq<Event>, segments: seq<seq<Candle>>, m: MarketKey)
  {
    && Segmented(segments, m) && NoneInside(events, segments) && EventsOrdered(events)
    && Ready(s, events, segments[0], m)
    && forall j :: s.count <= j < |events| ==> EntryFits(events[j], segments)
  }

  lemma {:induction false} FlattenEnds(segments: seq<seq<Candle>>, m: MarketKey)
    requires Segmented(segments, m)
    ensures Flatten(segments) != [] && Last(Flatten(segments)) == Last(segments[|segments| - 1])
    decreases |segments|
  {
    if |segments| == 1 {
      assert Flatten(segments) == segments[0];
    } else {
      SegmentedTail(segments, m);
      FlattenEnds(segments[1..], m);
    }
  }

  lemma SegmentedTail(segments: seq<seq<Candle>>, m: MarketKey)
    requires Segmented(segments, m) && 1 < |segments|
    ensures Segmented(segments[1..], m)
  {
    var a, b := segments[0], Flatten(segments[1..]);
    assert segments[1] != [] && b == segments[1] + Flatten(segments[2..]) by {
      assert segments[1..][1..] == segments[2..];
    }
    forall i, j | 0 <= i < j < |b|
      ensures b[i].closeTime <= b[j].openTime
    {
      assert (a + b)[|a| + i] == b[i] && (a + b)[|a| + j] == b[j];
    }
    forall j | 0 <= j < |b|
      ensures b[j].market == m
    {
      assert (a + b)[|a| + j] == b[j];
    }
    forall k | 0 < k < |segments[1..]|
      ensures Last(segments[1..][k - 1]).closeTime < Last(segments[1..][k]).openTime
    {
      assert segments[1..][k - 1] == segments[k] && segments[1..][k] == segments[k + 1];
    }
  }

  lemma {:induction false} LastsGrow(segments: seq<seq<Candle>>, m: MarketKey)
    requires Segmented(segments, m) && 1 < |segments|
    ensures Last(segments[0]).closeTime < Last(segments[|segments| - 1]).openTime
    decreases |segments|
  {
    if 2 < |segments| {
      SegmentedTail(segments, m);
      LastsGrow(segments[1..], m);
      assert Last(segments[0]).closeTime < Last(segments[1]).openTime;
    }
  }

  lemma CutAtFirst(segments: seq<seq<Candle>>, m: MarketKey)
    requires Segmented(segments, m) && 1 < |segments|
    ensures Cut(segments[0], Flatten(segments[1..]), m)
  {
    SegmentedTail(segments, m);
    FlattenEnds(segments[1..], m);
    LastsGrow(segments, m);
    assert segments[1..][|segments[1..]| - 1] == segments[|segments| - 1];
  }

  lemma EventsFitFirst(s: Preview, events: seq<Event>, segments: seq<seq<Candle>>, cfg: Config, policy: FillPolicy,
                       m: MarketKey)
    requires Remaining(s, events, segments, m) && 1 < |segments|
    ensures EventsFit(s, events, segments[0], Flatten(segments[1..]), cfg, policy)
  {
    hide FindEntry, Before, OrderQuantity, Protect;
    assert segments[0] != [];
    forall j | s.count <= j < |events| && Opens(events[j])
      ensures !Lost(s, events, j, segments[0], Flatten(segments[1..]), cfg, policy)
    {
      var e := events[j];
      FindEntryAcross(e.parsed, e.parsed.symbol.value, e.timestamp, segments[0], Flatten(segments[1..]));
      assert EntryFits(e, segments);
    }
    forall j | s.count <= j < |events|
      ensures events[j].timestamp <= Last(segments[0]).openTime || Last(segments[0]).closeTime <= events[j].timestamp
      ensures EntryFits(events[j], segments)
    {
    }
  }

  /** Replaying one segment leaves the premises of the rest. */
  lemma RemainingAfter(s: Preview, events: seq<Event>, segments: seq<seq<Candle>>, cfg: Config,
                       policy: FillPolicy, m: MarketKey)
    requires Remaining(s, events, segments, m) && 1 < |segments|
    ensures Remaining(Middle(s, events, segments[0], cfg, policy), events, segments[1..], m)
  {
    hide Middle, FindEntry, EventsFit, DueCount, LiveAfter, SweepLive;
    var a, b := segments[0], Flatten(segments[1..]);
    var t := Middle(s, events, a, cfg, policy);
    SegmentedTail(segments, m);
    CutAtFirst(segments, m);
    CutParts(a, b, m);
    EventsFitFirst(s, events, segments, cfg, policy, m);
    MiddleReady(s, events, a, b, cfg, policy, m);
    var next := segments[1];
    assert segments[1..][0] == next && next != [];
    assert b[0] == next[0];
    assert Last(a).closeTime < Last(next).openTime;
    assert NoneInside(events, segments[1..]) by {
      forall k, j | 0 <= k < |segments[1..]| - 1 && segments[1..][k] != [] && 0 <= j < |events|
        ensures events[j].timestamp <= Last(segments[1..][k]).openTime
                || Last(segments[1..][k]).closeTime <= events[j].timestamp
      {
        assert segments[1..][k] == segments[k + 1];
      }
    }
    forall j | t.count <= j < |events|
      ensures EntryFits(events[j], segments[1..])
    {
      assert EntryFits(events[j], segments);
      assert Last(a).openTime < Last(a).closeTime <= events[j].timestamp;
    }
  }

  lemma {:induction false} ChainIsWhole(s: Preview, events: seq<Event>, segments: seq<seq<Candle>>, closeAtEnd: bool,
                                        cfg: Config, policy: FillPolicy, m: MarketKey)
    requires Remaining(s, events, segments, m)
    ensures ReplaySegments(s, events, segments, closeAtEnd, cfg, policy) ==
            ResumeSorted(s, events, Flatten(segments), closeAtEnd, cfg, policy)
    decreases |segments|
  {
    hide ResumeSorted;
    if |segments| == 1 {
      assert Flatten(segments) == segments[0];
      var next := ResumeSorted(s, events, segments[0], closeAtEnd, cfg, policy);
      assert ReplaySegments(next, events, segments[1..], closeAtEnd, cfg, policy) == next;
    } else {
      var t := Middle(s, events, segments[0], cfg, policy);
      CutAtFirst(segments, m);
      EventsFitFirst(s, events, segments, cfg, policy, m);
      RemainingAfter(s, events, segments, cfg, policy, m);
      ChainIsWhole(t, events, segments[1..], closeAtEnd, cfg, policy, m);
      TwoSegments(s, events, segments[0], Flatten(segments[1..]), closeAtEnd, cfg, policy, m);
    }
  }

  /** Segmented replay from a fresh state equals one replay of the whole history: the same open
      positions, closed trades, event count and time reached, hence the same balance. */
  lemma SegmentedReplayIsWhole(events: seq<Event>, segments: seq<seq<Candle>>, closeAtEnd: bool,
                               cfg: Config, policy: FillPolicy, m: MarketKey)
    requires Segmented(segments, m) && EventsOrdered(events) && NoneInside(events, segments)
    requires forall j :: 0 <= j < |events| ==> EntryFits(events[j], segments)
    ensures ReplaySegments(FRESH, events, segments, closeAtEnd, cfg, policy) ==
            ResumeSorted(FRESH, events, Flatten(segments), closeAtEnd, cfg, policy)
  {
    hide ResumeSorted;
    ChainIsWhole(FRESH, events, segments, closeAtEnd, cfg, policy, m);
  }
}
