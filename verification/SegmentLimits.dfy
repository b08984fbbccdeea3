/** Exactly when replaying a history segment by segment is the same as replaying the whole. */
module SegmentLimits {
  import opened Core
  import opened Market
  import opened Lookups
  import opened Positions
  import opened Sizing
  import opened Events
  import opened Replay
  import opened Ledger
  import opened Journeys
  import opened Lives
  import opened Segments
  import opened SegmentReplay
  import Soundness

  // ---- where trades come from ----

  ghost predicate NoneOf(trades: seq<Trade>, id: string) { forall t :: t in trades ==> t.signalId != id }

  ghost predicate AllFilled(trades: seq<Trade>) { forall t :: t in trades ==> !t.status.NotFilled? }

  /** Only an open signal can be traded by a candle, and what a candle trades was filled. */
  lemma {:induction false} StepTrades(open: seq<Position>, c: Candle, policy: FillPolicy, id: string)
    ensures AllFilled(StepCandle(open, c, policy).trades)
    ensures At(open, id).None? ==> At(StepCandle(open, c, policy).open, id).None?
                                   && NoneOf(StepCandle(open, c, policy).trades, id)
    decreases |open|
  {
    hide ApplyCandle, Relevant;
    if open != [] {
      StepTrades(open[1..], c, policy, id);
      Soundness.StatusIsFilled(open[0], c, policy);
    }
  }

  lemma {:induction false} SweepTrades(open: seq<Position>, candles: seq<Candle>, i: nat, stopAt: Option<int>,
                                       policy: FillPolicy, id: string)
    requires i <= |candles|
    ensures var r := Sweep(open, candles, i, stopAt, policy);
            AllFilled(r.resolved) && (At(open, id).None? ==> At(r.open, id).None? && NoneOf(r.resolved, id))
    decreases |candles| - i
  {
    hide StepCandle, At;
    if i < |candles| && !Stops(candles[i], stopAt) {
      StepTrades(open, candles[i], policy, id);
      SweepTrades(StepCandle(open, candles[i], policy).open, candles, i + 1, stopAt, policy, id);
    }
  }

  lemma {:induction false} CloseAllTrades(open: seq<Position>, time: int, candles: seq<Candle>, id: string)
    ensures AllFilled(CloseAll(open, time, candles)) && AllFilled(EndTrades(open, candles))
    ensures At(open, id).None? ==> NoneOf(CloseAll(open, time, candles), id) && NoneOf(EndTrades(open, candles), id)
  {
    hide ManualPrice;
    if open != [] { CloseAllTrades(open[1..], time, candles, id); }
  }

  /** An event that opens another signal, or none, leaves an absent signal absent and trades what was filled. */
  lemma EventTrades(e: Event, open: seq<Position>, balance: real, candles: seq<Candle>, cfg: Config, id: string)
    requires Opens(e) ==> e.signalId != id
    ensures var r := ApplyEvent(e, open, balance, candles, cfg);
            && (forall t :: t in r.trades && t.signalId == id ==> !t.status.NotFilled?)
            && (At(open, id).None? ==> At(r.open, id).None? && NoneOf(r.trades, id))
  {
    hide Decide, At, CloseAll, ManualClose, Update, Put, Remove, ManualPrice;
    CloseAllTrades(open, e.timestamp, candles, id);
    if At(open, id).None? { GoneStaysGone(e, open, balance, candles, cfg, id); }
    if !Opens(e) && !(ClosesAll(e) && open != []) && e.relatedId.Some? && Holds(open, e.relatedId.value) {
      AtHeld(open, e.relatedId.value);
    }
  }

  lemma {:induction false} RecordAllHolds(closed: seq<Trade>, ts: seq<Trade>, t: Trade)
    ensures t in RecordAll(closed, ts) ==> t in closed || t in ts
    ensures t in closed && NoneOf(ts, t.signalId) ==> t in RecordAll(closed, ts)
    decreases |ts|
  {
    hide Record;
    if ts != [] {
      RecordHolds(closed, ts[0], t);
      RecordAllHolds(Record(closed, ts[0]), ts[1..], t);
    }
  }

  lemma RecordHolds(closed: seq<Trade>, x: Trade, t: Trade)
    ensures t in Record(closed, x) ==> t in closed || t == x
    ensures t in closed && x.signalId != t.signalId ==> t in Record(closed, x)
    ensures x in Record(closed, x)
  {
    if Recorded(closed, x.signalId) {
      var i := RecordIndex(closed, x.signalId);
      assert Record(closed, x)[i] == x;
      if t in closed && x.signalId != t.signalId {
        var k :| 0 <= k < |closed| && closed[k] == t;
        assert Record(closed, x)[k] == t;
      }
    }
  }

  // ---- three things a replay keeps about one signal ----

  /** Never seen: neither open nor on record. */
  ghost predicate Unseen(open: seq<Position>, closed: seq<Trade>, id: string)
  {
    At(open, id).None? && NoneOf(closed, id)
  }

  /** On record with this trade, and not open. */
  ghost predicate Filed(open: seq<Position>, closed: seq<Trade>, t: Trade)
  {
    At(open, t.signalId).None? && t in closed
  }

  /** Not on record as unfilled. */
  ghost predicate NeverRefused(closed: seq<Trade>, id: string)
  {
    forall t :: t in closed && t.signalId == id ==> !t.status.NotFilled?
  }

  /** Recording new trades keeps all three, for a signal that the new trades allow it for. */
  lemma RecordingKeeps(closed: seq<Trade>, ts: seq<Trade>, id: string)
    ensures NoneOf(closed, id) && NoneOf(ts, id) ==> NoneOf(RecordAll(closed, ts), id)
    ensures NoneOf(ts, id) ==> forall t :: t in closed && t.signalId == id ==> t in RecordAll(closed, ts)
    ensures NeverRefused(closed, id) && NeverRefused(ts, id) ==> NeverRefused(RecordAll(closed, ts), id)
  {
    hide RecordAll;
    forall t
      ensures t in RecordAll(closed, ts) ==> t in closed || t in ts
      ensures t in closed && NoneOf(ts, t.signalId) ==> t in RecordAll(closed, ts)
    {
      RecordAllHolds(closed, ts, t);
    }
  }

  ghost predicate Keeps(before: Live, after: Live, id: string)
  {
    && (Unseen(before.open, before.closed, id) ==> Unseen(after.open, after.closed, id))
    && (forall t: Trade :: t.signalId == id && Filed(before.open, before.closed, t) ==>
          Filed(after.open, after.closed, t))
    && (NeverRefused(before.closed, id) ==> NeverRefused(after.closed, id))
  }

  lemma SweepKeeps(l: Live, candles: seq<Candle>, stopAt: Option<int>, policy: FillPolicy, id: string)
    requires l.cursor <= |candles|
    ensures Keeps(l, SweepLive(l, candles, stopAt, policy), id)
  {
    hide Sweep, At, RecordAll;
    SweepTrades(l.open, candles, l.cursor, stopAt, policy, id);
    RecordingKeeps(l.closed, Sweep(l.open, candles, l.cursor, stopAt, policy).resolved, id);
  }

  lemma EventKeeps(l: Live, e: Event, candles: seq<Candle>, cfg: Config, id: string)
    requires Opens(e) ==> e.signalId != id
    ensures Keeps(l, EventLive(l, e, candles, cfg), id)
  {
    hide ApplyEvent, At, RecordAll;
    EventTrades(e, l.open, Balance(l.closed, cfg), candles, cfg, id);
    RecordingKeeps(l.closed, ApplyEvent(e, l.open, Balance(l.closed, cfg), candles, cfg).trades, id);
  }

  lemma EndKeeps(l: Live, candles: seq<Candle>, id: string)
    ensures Keeps(l, EndLive(l, candles), id)
  {
    hide EndTrades, At, RecordAll;
    CloseAllTrades(l.open, 0, candles, id);
    RecordingKeeps(l.closed, EndTrades(l.open, candles), id);
    NothingAt(id);
  }

  lemma {:induction false} EventsKeep(s: Preview, events: seq<Event>, j: nat, k: nat, candles: seq<Candle>, cfg: Config,
                                      policy: FillPolicy, id: string)
    requires s.count <= j <= k <= |events| && NotReopened(events, j, k, id)
    ensures Keeps(LiveAfter(s, events, j, candles, cfg, policy), LiveAfter(s, events, k, candles, cfg, policy), id)
    decreases k - j
  {
    hide SweepLive, EventLive, Unseen, Filed, NeverRefused;
    if j < k {
      EventsKeep(s, events, j, k - 1, candles, cfg, policy, id);
      var l := LiveAfter(s, events, k - 1, candles, cfg, policy);
      SweepKeeps(l, candles, Some(events[k - 1].timestamp), policy, id);
      EventKeeps(SweepLive(l, candles, Some(events[k - 1].timestamp), policy), events[k - 1], candles, cfg, id);
    }
  }

  /** What a call keeps from the state after event j on. */
  lemma CallKeeps(s: Preview, events: seq<Event>, j: nat, candles: seq<Candle>, closeAtEnd: bool, cfg: Config,
                  policy: FillPolicy, id: string)
    requires s.count <= |events| && s.count <= j <= DueCount(s, events, candles, s.count)
    requires NotReopened(events, j, |events|, id)
    ensures var r := ResumeSorted(s, events, candles, closeAtEnd, cfg, policy);
            && j <= r.count <= |events|
            && Keeps(LiveAfter(s, events, j, candles, cfg, policy), Live(r.open, r.closed, 0), id)
  {
    hide SweepLive, EndLive, LiveAfter, Unseen, Filed, NeverRefused;
    var n := DueCount(s, events, candles, s.count);
    var l := LiveAfter(s, events, n, candles, cfg, policy);
    EventsKeep(s, events, j, n, candles, cfg, policy, id);
    SweepKeeps(l, candles, None, policy, id);
    EndKeeps(SweepLive(l, candles, None, policy), candles, id);
  }

  lemma {:induction false} ChainKeeps(s: Preview, events: seq<Event>, segments: seq<seq<Candle>>, closeAtEnd: bool,
                                      cfg: Config, policy: FillPolicy, id: string)
    requires s.count <= |events| && NotReopened(events, s.count, |events|, id)
    ensures var r := ReplaySegments(s, events, segments, closeAtEnd, cfg, policy);
            Keeps(Live(s.open, s.closed, 0), Live(r.open, r.closed, 0), id)
    decreases |segments|
  {
    hide ResumeSorted, Unseen, Filed, NeverRefused;
    if segments != [] {
      var last := closeAtEnd && |segments| == 1;
      CallKeeps(s, events, s.count, segments[0], last, cfg, policy, id);
      StartsAs(s, events, segments[0], cfg, policy);
      ChainKeeps(ResumeSorted(s, events, segments[0], last, cfg, policy), events, segments[1..], closeAtEnd, cfg,
                 policy, id);
    }
  }

  lemma StartsAs(s: Preview, events: seq<Event>, candles: seq<Candle>, cfg: Config, policy: FillPolicy)
    requires s.count <= |events|
    ensures var l := LiveAfter(s, events, s.count, candles, cfg, policy); l.open == s.open && l.closed == s.closed
  {
  }

  // ---- the event that is lost ----

  /** Every signal still to be opened is new. */
  ghost predicate FreshIds(s: Preview, events: seq<Event>)
  {
    forall j :: s.count <= j < |events| && Opens(events[j]) ==> Unseen(s.open, s.closed, events[j].signalId)
  }

  lemma EarlyIsDue(s: Preview, events: seq<Event>, j: nat, a: seq<Candle>, m: MarketKey)
    requires Ready(s, events, a, m) && EventsOrdered(events) && s.count <= j < |events|
    requires events[j].timestamp <= Last(a).openTime
    ensures j < DueCount(s, events, a, s.count)
  {
    var n := DueCount(s, events, a, s.count);
    if n < |events| { DeferredByLast(s, a, events[n]); }
  }

  lemma IdsBefore(events: seq<Event>, i: nat, j: nat)
    requires i <= j < |events| && DistinctOpens(events) && Opens(events[j])
    ensures NotReopened(events, i, j, events[j].signalId)
    ensures NotReopened(events, j + 1, |events|, events[j].signalId)
  {
  }

  /** Before event j opens its signal, the signal has not been seen. */
  lemma UnseenBefore(s: Preview, events: seq<Event>, j: nat, a: seq<Candle>, cfg: Config, policy: FillPolicy)
    requires s.count <= j < |events| && DistinctOpens(events) && FreshIds(s, events) && Opens(events[j])
    ensures var l := Before(s, events, j, a, cfg, policy); Unseen(l.open, l.closed, events[j].signalId)
  {
    hide SweepLive, LiveAfter, Unseen, Filed, NeverRefused;
    var id := events[j].signalId;
    StartsAs(s, events, a, cfg, policy);
    IdsBefore(events, s.count, j);
    EventsKeep(s, events, s.count, j, a, cfg, policy, id);
    SweepKeeps(LiveAfter(s, events, j, a, cfg, policy), a, Some(events[j].timestamp), policy, id);
  }

  lemma AfterEvent(s: Preview, events: seq<Event>, j: nat, a: seq<Candle>, cfg: Config, policy: FillPolicy)
    requires s.count <= j < |events|
    ensures LiveAfter(s, events, j + 1, a, cfg, policy)
         == EventLive(Before(s, events, j, a, cfg, policy), events[j], a, cfg)
  {
    hide SweepLive, EventLive;
  }

  lemma RefusedIsFiled(l: Live, e: Event, a: seq<Candle>, cfg: Config)
    requires Opens(e) && Unseen(l.open, l.closed, e.signalId)
    requires FindEntry(e.parsed, e.parsed.symbol.value, e.timestamp, a).None?
    ensures var r := EventLive(l, e, a, cfg);
            Filed(r.open, r.closed, NotFilledTrade(e, e.parsed.symbol.value))
  {
    hide FindEntry, OrderQuantity, Protect, At, Record;
    var t := NotFilledTrade(e, e.parsed.symbol.value);
    RecordHolds(l.closed, t, t);
    assert RecordAll(l.closed, [t]) == Record(l.closed, t);
  }

  lemma FilledIsNotFiled(l: Live, e: Event, c: seq<Candle>, cfg: Config)
    requires Opens(e) && Unseen(l.open, l.closed, e.signalId)
    requires Decide(e, e.parsed.symbol.value, l.open, Balance(l.closed, cfg), c, cfg).Filled?
    ensures NeverRefused(EventLive(l, e, c, cfg).closed, e.signalId)
  {
    hide Decide, At, Put;
    NothingNew(l.closed);
  }

  lemma NothingNew(closed: seq<Trade>)
    ensures RecordAll(closed, []) == closed
  {
  }

  /** The first event that is lost. */
  lemma {:induction false} FirstLost(s: Preview, events: seq<Event>, n: nat, a: seq<Candle>, b: seq<Candle>,
                                     cfg: Config, policy: FillPolicy) returns (j: nat)
    requires n <= |events| && a != [] && !FitsUpTo(s, events, n, a, b, cfg, policy)
    ensures s.count <= j < n && FitsUpTo(s, events, j, a, b, cfg, policy) && Lost(s, events, j, a, b, cfg, policy)
  {
    hide Lost;
    if n > 0 && !FitsUpTo(s, events, n - 1, a, b, cfg, policy) {
      j := FirstLost(s, events, n - 1, a, b, cfg, policy);
    } else {
      j := n - 1;
    }
  }

  /** A lost event is on record as unfilled after the first segment, and never will be in the whole. */
  lemma LostIsSeen(s: Preview, events: seq<Event>, j: nat, a: seq<Candle>, b: seq<Candle>, closeAtEnd: bool,
                   cfg: Config, policy: FillPolicy, m: MarketKey)
    requires Cut(a, b, m) && Ready(s, events, a, m) && EventsOrdered(events) && DistinctOpens(events)
    requires FreshIds(s, events) && s.count <= j < |events|
    requires FitsUpTo(s, events, j, a, b, cfg, policy) && Lost(s, events, j, a, b, cfg, policy)
    ensures var e := events[j]; var t := NotFilledTrade(e, e.parsed.symbol.value);
            var part := Middle(s, events, a, cfg, policy);
            var whole := ResumeSorted(s, events, a + b, closeAtEnd, cfg, policy);
            && t.signalId == e.signalId && t.status.NotFilled? && j < part.count <= |events|
            && Filed(part.open, part.closed, t) && NeverRefused(whole.closed, e.signalId)
  {
    hide Decide, LiveAfter, EventLive, FindEntry, Before, Unseen, Filed, NeverRefused, ResumeSorted, DueCount;
    var e := events[j];
    var id := e.signalId;
    CutParts(a, b, m);
    EarlyIsDue(s, events, j, a, m);
    IdsBefore(events, s.count, j);
    FirstPart(s, events, j, a, b, cfg, policy, m);
    BeforeAlike(s, events, j, a, b, cfg, policy, m);
    var l := Before(s, events, j, a, cfg, policy);
    UnseenBefore(s, events, j, a, cfg, policy);
    AfterEvent(s, events, j, a, cfg, policy);
    AfterEvent(s, events, j, a + b, cfg, policy);
    RefusedIsFiled(l, e, a, cfg);
    FilledIsNotFiled(l, e, a + b, cfg);
    CallKeeps(s, events, j + 1, a, false, cfg, policy, id);
    WholeIsReady(s, events, a, b, m);
    EarlyIsDue(s, events, j, a + b, m);
    CallKeeps(s, events, j + 1, a + b, closeAtEnd, cfg, policy, id);
  }

  lemma WholeIsReady(s: Preview, events: seq<Event>, a: seq<Candle>, b: seq<Candle>, m: MarketKey)
    requires Cut(a, b, m) && Ready(s, events, a, m)
    ensures Ready(s, events, a + b, m) && Last(a).openTime <= Last(a + b).openTime
  {
    CutParts(a, b, m);
    assert (a + b)[0] == a[0];
  }

  // ---- any number of segments ----

  /** No event is lost at any of the cuts. */
  ghost predicate NothingLost(s: Preview, events: seq<Event>, segments: seq<seq<Candle>>, cfg: Config,
                              policy: FillPolicy)
    decreases |segments|
  {
    |segments| <= 1 || segments[0] == [] ||
    (FitsUpTo(s, events, |events|, segments[0], Flatten(segments[1..]), cfg, policy)
     && NothingLost(Middle(s, events, segments[0], cfg, policy), events, segments[1..], cfg, policy))
  }

  lemma FreshIdsRemain(s: Preview, events: seq<Event>, a: seq<Candle>, cfg: Config, policy: FillPolicy)
    requires s.count <= |events| && DistinctOpens(events) && FreshIds(s, events)
    ensures FreshIds(Middle(s, events, a, cfg, policy), events)
  {
    hide Unseen, Filed, NeverRefused, LiveAfter;
    var t := Middle(s, events, a, cfg, policy);
    var n := DueCount(s, events, a, s.count);
    StartsAs(s, events, a, cfg, policy);
    forall j | t.count <= j < |events| && Opens(events[j])
      ensures Unseen(t.open, t.closed, events[j].signalId)
    {
      IdsBefore(events, s.count, j);
      KeepsToCall(s, events, n, a, cfg, policy, events[j].signalId);
    }
  }

  lemma KeepsToCall(s: Preview, events: seq<Event>, n: nat, a: seq<Candle>, cfg: Config, policy: FillPolicy, id: string)
    requires s.count <= |events| && n == DueCount(s, events, a, s.count) && NotReopened(events, s.count, n, id)
    ensures var t := Middle(s, events, a, cfg, policy);
            Keeps(LiveAfter(s, events, s.count, a, cfg, policy), Live(t.open, t.closed, 0), id)
  {
    hide SweepLive, LiveAfter, Unseen, Filed, NeverRefused;
    EventsKeep(s, events, s.count, n, a, cfg, policy, id);
    SweepKeeps(LiveAfter(s, events, n, a, cfg, policy), a, None, policy, id);
  }

  lemma {:induction false} ChainExactly(s: Preview, events: seq<Event>, segments: seq<seq<Candle>>, closeAtEnd: bool,
                                        cfg: Config, policy: FillPolicy, m: MarketKey)
    requires Segmented(segments, m) && NoneInside(events, segments) && EventsOrdered(events)
    requires Ready(s, events, segments[0], m) && DistinctOpens(events) && FreshIds(s, events)
    ensures ReplaySegments(s, events, segments, closeAtEnd, cfg, policy)
              == ResumeSorted(s, events, Flatten(segments), closeAtEnd, cfg, policy)
        <==> NothingLost(s, events, segments, cfg, policy)
    decreases |segments|
  {
    hide ResumeSorted, FitsUpTo, Middle, FreshIds, Ready, Unseen, Filed, NeverRefused;
    if |segments| == 1 {
      assert Flatten(segments) == segments[0];
      var next := ResumeSorted(s, events, segments[0], closeAtEnd, cfg, policy);
      assert ReplaySegments(next, events, segments[1..], closeAtEnd, cfg, policy) == next;
    } else {
      var a, b := segments[0], Flatten(segments[1..]);
      var t := Middle(s, events, a, cfg, policy);
      CutAtFirst(segments, m);
      OneSegmentLess(s, events, segments, closeAtEnd, cfg, policy);
      if FitsUpTo(s, events, |events|, a, b, cfg, policy) {
        StandingAfter(s, events, segments, cfg, policy, m);
        FreshIdsRemain(s, events, a, cfg, policy) by { ReadyCounts(s, events, a, m); }
        ChainExactly(t, events, segments[1..], closeAtEnd, cfg, policy, m);
        TwoSegments(s, events, a, b, closeAtEnd, cfg, policy, m);
      } else {
        var j := FirstLost(s, events, |events|, a, b, cfg, policy);
        LostIsSeen(s, events, j, a, b, closeAtEnd, cfg, policy, m);
        IdsBefore(events, s.count, j);
        ChainKeeps(t, events, segments[1..], closeAtEnd, cfg, policy, events[j].signalId);
        DiffersByTrade(ReplaySegments(t, events, segments[1..], closeAtEnd, cfg, policy),
                       ResumeSorted(s, events, a + b, closeAtEnd, cfg, policy),
                       NotFilledTrade(events[j], events[j].parsed.symbol.value));
      }
    }
  }

  lemma ReadyCounts(s: Preview, events: seq<Event>, a: seq<Candle>, m: MarketKey)
    requires Ready(s, events, a, m)
    ensures s.count <= |events|
  {
  }

  lemma DiffersByTrade(chain: Preview, whole: Preview, t: Trade)
    requires Filed(chain.open, chain.closed, t) && t.status.NotFilled? && NeverRefused(whole.closed, t.signalId)
    ensures chain != whole
  {
  }

  lemma OneSegmentLess(s: Preview, events: seq<Event>, segments: seq<seq<Candle>>, closeAtEnd: bool, cfg: Config,
                       policy: FillPolicy)
    requires 1 < |segments|
    ensures ReplaySegments(s, events, segments, closeAtEnd, cfg, policy)
         == ReplaySegments(Middle(s, events, segments[0], cfg, policy), events, segments[1..], closeAtEnd, cfg, policy)
  {
    hide ResumeSorted;
  }

  lemma StandingAfter(s: Preview, events: seq<Event>, segments: seq<seq<Candle>>, cfg: Config, policy: FillPolicy,
                      m: MarketKey)
    requires Segmented(segments, m) && NoneInside(events, segments) && EventsOrdered(events) && 1 < |segments|
    requires Ready(s, events, segments[0], m)
    requires FitsUpTo(s, events, |events|, segments[0], Flatten(segments[1..]), cfg, policy)
    ensures EventsFit(s, events, segments[0], Flatten(segments[1..]), cfg, policy)
    ensures var t := Middle(s, events, segments[0], cfg, policy);
            Segmented(segments[1..], m) && NoneInside(events, segments[1..]) && Ready(t, events, segments[1..][0], m)
  {
    hide Middle, FitsUpTo, DueCount, LiveAfter, SweepLive;
    var a, b := segments[0], Flatten(segments[1..]);
    SegmentedTail(segments, m);
    CutAtFirst(segments, m);
    CutParts(a, b, m);
    assert Between(s, events, a);
    MiddleReady(s, events, a, b, cfg, policy, m);
    var next := segments[1];
    assert segments[1..][0] == next && next != [] && b[0] == next[0];
    assert Last(a).closeTime < Last(next).openTime;
    forall k, j | 0 <= k < |segments[1..]| - 1 && segments[1..][k] != [] && 0 <= j < |events|
      ensures events[j].timestamp <= Last(segments[1..][k]).openTime
              || Last(segments[1..][k]).closeTime <= events[j].timestamp
    {
      assert segments[1..][k] == segments[k + 1];
    }
  }

  /** Replaying a history segment by segment, from a fresh state, gives what one replay of the whole gives exactly
      when at no cut an event is lost: applied before the cut, without an entry there, though the whole fills it. */
  lemma {:induction false} SegmentedReplayExactly(events: seq<Event>, segments: seq<seq<Candle>>, closeAtEnd: bool,
                                                  cfg: Config, policy: FillPolicy, m: MarketKey)
    requires Segmented(segments, m) && EventsOrdered(events) && NoneInside(events, segments) && DistinctOpens(events)
    ensures ReplaySegments(FRESH, events, segments, closeAtEnd, cfg, policy)
              == ResumeSorted(FRESH, events, Flatten(segments), closeAtEnd, cfg, policy)
        <==> NothingLost(FRESH, events, segments, cfg, policy)
  {
    hide ResumeSorted, NothingLost;
    ChainExactly(FRESH, events, segments, closeAtEnd, cfg, policy, m);
  }

  /** For one OPEN event and one cut: an entry that is missing before the cut, and would be filled after it. */
  lemma OneOpenExactly(e: Event, a: seq<Candle>, b: seq<Candle>, closeAtEnd: bool, cfg: Config, policy: FillPolicy,
                       m: MarketKey)
    requires Cut(a, b, m) && Opens(e) && e.timestamp <= Last(a).openTime
    ensures var market := e.parsed.symbol.value;
            (ReplaySegments(FRESH, [e], [a, b], closeAtEnd, cfg, policy)
              == ResumeSorted(FRESH, [e], a + b, closeAtEnd, cfg, policy))
            == !(FindEntry(e.parsed, market, e.timestamp, a).None?
                 && Decide(e, market, [], cfg.initialBalance, a + b, cfg).Filled?)
  {
    hide ResumeSorted, FindEntry, Decide, Chronological, OneMarket, Flatten, NothingLost, Lost, ReplaySegments;
    TwoPieces([e], a, b, cfg, policy);
    OneLost(e, a, b, cfg, policy);
    CutParts(a, b, m);
    ChainExactly(FRESH, [e], [a, b], closeAtEnd, cfg, policy, m);
  }

  lemma TwoPieces(events: seq<Event>, a: seq<Candle>, b: seq<Candle>, cfg: Config, policy: FillPolicy)
    requires a != []
    ensures Flatten([a, b]) == a + b
    ensures NothingLost(FRESH, events, [a, b], cfg, policy) <==> FitsUpTo(FRESH, events, |events|, a, b, cfg, policy)
  {
    hide FitsUpTo, Middle;
    assert [a, b][1..] == [b] && [b][1..] == [];
    assert Flatten([b]) == b + Flatten([]) == b;
    assert Flatten([a, b]) == a + Flatten([b]) == a + b;
  }

  /** A single opening is lost exactly when it misses its entry before the cut and the whole would fill it. */
  lemma OneLost(e: Event, a: seq<Candle>, b: seq<Candle>, cfg: Config, policy: FillPolicy)
    requires Opens(e) && a != [] && e.timestamp <= Last(a).openTime
    ensures Lost(FRESH, [e], 0, a, b, cfg, policy)
        <==> FindEntry(e.parsed, e.parsed.symbol.value, e.timestamp, a).None?
             && Decide(e, e.parsed.symbol.value, [], cfg.initialBalance, a + b, cfg).Filled?
  {
    hide FindEntry, Decide;
    var l := Before(FRESH, [e], 0, a, cfg, policy);
    EmptySweeps(a, 0, Some(e.timestamp), policy);
    assert l.open == [] && l.closed == [] && Balance([], cfg) == cfg.initialBalance;
  }

  // ---- an event inside the last candle of a segment ----

  /** An opening inside the last candle before the cut waits for the second part; if that does not touch its entry,
      it goes unfilled there, although the whole fills it in the candle it arrived in. */
  lemma InsideIsDifferent(e: Event, a: seq<Candle>, b: seq<Candle>, closeAtEnd: bool, cfg: Config, policy: FillPolicy,
                          m: MarketKey)
    requires Cut(a, b, m) && Opens(e) && Last(a).openTime < e.timestamp < Last(a).closeTime
    requires FindEntry(e.parsed, e.parsed.symbol.value, e.timestamp, b).None?
    requires Decide(e, e.parsed.symbol.value, [], cfg.initialBalance, a + b, cfg).Filled?
    ensures ReplaySegments(FRESH, [e], [a, b], closeAtEnd, cfg, policy)
         != ResumeSorted(FRESH, [e], a + b, closeAtEnd, cfg, policy)
  {
    hide ResumeSorted, FindEntry, Decide, LiveAfter, EventLive, Filed, NeverRefused, DueCount, Unseen;
    var id, t := e.signalId, NotFilledTrade(e, e.parsed.symbol.value);
    var waiting := Preview([], [], 0, Some(Last(a).closeTime));
    CutParts(a, b, m);
    WaitsForNext(e, a, cfg, policy);
    var chain := ResumeSorted(waiting, [e], b, closeAtEnd, cfg, policy);
    TwoCalls([e], a, b, closeAtEnd, cfg, policy);
    var whole := ResumeSorted(FRESH, [e], a + b, closeAtEnd, cfg, policy);
    WholeIsReady(FRESH, [e], a, b, m);
    NothingYet(waiting, e, b, cfg, policy);
    NothingYet(FRESH, e, a + b, cfg, policy);
    AfterEvent(waiting, [e], 0, b, cfg, policy);
    AfterEvent(FRESH, [e], 0, a + b, cfg, policy);
    EarlyIsDue(waiting, [e], 0, b, m);
    EarlyIsDue(FRESH, [e], 0, a + b, m);
    RefusedIsFiled(Before(waiting, [e], 0, b, cfg, policy), e, b, cfg);
    FilledIsNotFiled(Before(FRESH, [e], 0, a + b, cfg, policy), e, a + b, cfg);
    CallKeeps(waiting, [e], 1, b, closeAtEnd, cfg, policy, id);
    CallKeeps(FRESH, [e], 1, a + b, closeAtEnd, cfg, policy, id);
    DiffersByTrade(chain, whole, t);
  }

  lemma TwoCalls(events: seq<Event>, a: seq<Candle>, b: seq<Candle>, closeAtEnd: bool, cfg: Config, policy: FillPolicy)
    ensures ReplaySegments(FRESH, events, [a, b], closeAtEnd, cfg, policy)
         == ResumeSorted(ResumeSorted(FRESH, events, a, false, cfg, policy), events, b, closeAtEnd, cfg, policy)
  {
    hide ResumeSorted;
    assert [a, b][1..] == [b] && [b][1..] == [];
    var next := ResumeSorted(FRESH, events, a, false, cfg, policy);
    var last := ResumeSorted(next, events, b, closeAtEnd, cfg, policy);
    assert ReplaySegments(last, events, [], closeAtEnd, cfg, policy) == last;
    assert ReplaySegments(next, events, [b], closeAtEnd, cfg, policy) == last;
  }

  /** The first call only moves on to its last candle. */
  lemma WaitsForNext(e: Event, a: seq<Candle>, cfg: Config, policy: FillPolicy)
    requires a != [] && Last(a).openTime < e.timestamp
    ensures ResumeSorted(FRESH, [e], a, false, cfg, policy) == Preview([], [], 0, Some(Last(a).closeTime))
  {
    EmptySweeps(a, 0, None, policy);
    assert DueCount(FRESH, [e], a, 0) == 0;
  }

  /** Before its only event a replay from an empty state has seen nothing. */
  lemma NothingYet(s: Preview, e: Event, candles: seq<Candle>, cfg: Config, policy: FillPolicy)
    requires s.open == [] && s.closed == [] && s.count == 0
    ensures var l := Before(s, [e], 0, candles, cfg, policy);
            l.open == [] && l.closed == [] && Balance(l.closed, cfg) == cfg.initialBalance
    ensures Unseen([], [], e.signalId)
  {
    EmptySweeps(candles, ResumeIndex(candles, s.until, 0), Some(e.timestamp), policy);
  }

  const EARLY: Candle := Bar(Some("M"), 0, 10, 100.0, 105.0, 95.0, 100.0)
  const LATER: Candle := Bar(Some("M"), 11, 20, 200.0, 205.0, 195.0, 200.0)

  /** A limit order at 100 that arrives inside the first candle. */
  const LIMITED: Event :=
    Event(5, OPEN, "a", ParsedSignal(OPEN, Some(Some("M")), Long, LIMIT, Some(100.0), None, Some(90.0), [], None),
          None, None, false, false, None)

  /** The premise on events inside a last candle is needed: here the two replays differ. */
  lemma InsideMatters(closeAtEnd: bool, policy: FillPolicy)
    ensures Segmented([[EARLY], [LATER]], Some("M")) && EventsOrdered([LIMITED]) && DistinctOpens([LIMITED])
    ensures ReplaySegments(FRESH, [LIMITED], [[EARLY], [LATER]], closeAtEnd, PLAIN, policy)
         != ResumeSorted(FRESH, [LIMITED], Flatten([[EARLY], [LATER]]), closeAtEnd, PLAIN, policy)
  {
    hide ReplaySegments, ResumeSorted, Decide;
    var a, b := [EARLY], [LATER];
    assert a + b == [EARLY, LATER] && Last(a) == EARLY && Last(b) == LATER;
    assert Cut(a, b, Some("M"));
    TwoPieces([LIMITED], a, b, PLAIN, policy);
    LimitedFills();
    InsideIsDifferent(LIMITED, a, b, closeAtEnd, PLAIN, policy, Some("M"));
  }

  lemma LimitedFills()
    ensures Opens(LIMITED) && FindEntry(LIMITED.parsed, Some("M"), 5, [LATER]).None?
    ensures Decide(LIMITED, Some("M"), [], 1000.0, [EARLY] + [LATER], PLAIN).Filled?
  {
    hide Sanitize, OrderQuantity;
    assert [EARLY] + [LATER] == [EARLY, LATER];
    assert FindEntry(LIMITED.parsed, Some("M"), 5, [EARLY, LATER]) == Some(Fill(100.0, 0));
    PlainOrder(LIMITED);
  }
}
