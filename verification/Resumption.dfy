/** Calling the resumable driver again: candles it has faced are not faced a second time. */
module Resumption {
  import opened Core
  import opened Market
  import opened Positions
  import opened Replay
  import opened Segments
  import opened SegmentReplay

  /** No candle closes after the last one. */
  ghost predicate LastClosesLast(candles: seq<Candle>)
  {
    forall i :: 0 <= i < |candles| ==> candles[i].closeTime <= Last(candles).closeTime
  }

  // ---- where a call resumes ----

  lemma NothingToFace(open: seq<Position>, candles: seq<Candle>, stopAt: Option<int>, policy: FillPolicy)
    ensures Sweep(open, candles, |candles|, stopAt, policy) == Swept(open, [], |candles|)
  {
  }

  lemma NothingToRecord(closed: seq<Trade>)
    ensures RecordAll(closed, []) == closed && EndTrades([], []) == []
  {
  }

  lemma NothingToEnd(candles: seq<Candle>)
    ensures EndTrades([], candles) == []
  {
  }

  lemma {:induction false} AllFaced(candles: seq<Candle>, i: nat)
    requires i <= |candles| && candles != [] && LastClosesLast(candles)
    ensures ResumeIndex(candles, Some(Last(candles).closeTime), i) == |candles|
    decreases |candles| - i
  {
    if i < |candles| { AllFaced(candles, i + 1); }
  }

  /** A call reaches the last candle, and says so. */
  lemma ReachesEnd(s: Preview, events: seq<Event>, candles: seq<Candle>, closeAtEnd: bool, cfg: Config,
                   policy: FillPolicy)
    ensures var t := ResumeSorted(s, events, candles, closeAtEnd, cfg, policy);
            && t.count == DueCount(Restart(s, events), events, candles, Restart(s, events).count)
            && (closeAtEnd ==> t.open == [])
            && (candles != [] ==> t.until == Some(Last(candles).closeTime))
  {
    hide LiveAfter, Sweep, DueCount;
    var r := Restart(s, events);
    var l := LiveAfter(r, events, DueCount(r, events, candles, r.count), candles, cfg, policy);
    SweepReachesEnd(l.open, candles, l.cursor, policy);
  }

  /** A call that has seen everything does nothing. */
  lemma NothingLeftToDo(t: Preview, events: seq<Event>, candles: seq<Candle>, closeAtEnd: bool, cfg: Config,
                        policy: FillPolicy)
    requires LastClosesLast(candles) && t.count == |events| && (closeAtEnd ==> t.open == [])
    requires candles != [] ==> t.until == Some(Last(candles).closeTime)
    ensures ResumeSorted(t, events, candles, closeAtEnd, cfg, policy) == t
  {
    hide Sweep, RecordAll, EndTrades;
    if candles != [] { AllFaced(candles, 0); }
    NothingToFace(t.open, candles, None, policy);
    NothingToRecord(t.closed);
    NothingToEnd(candles);
  }

  /** Repeating a call on its own result changes nothing if and only if the first call took all its events; it never
      faces a candle twice, applies an event twice or records a trade twice. */
  lemma RepeatExactly(s: Preview, events: seq<Event>, candles: seq<Candle>, closeAtEnd: bool, cfg: Config,
                      policy: FillPolicy)
    requires LastClosesLast(candles)
    ensures var t := ResumeSorted(s, events, candles, closeAtEnd, cfg, policy);
            ResumeSorted(t, events, candles, closeAtEnd, cfg, policy) == t <==> t.count == |events|
  {
    hide ResumeSorted, DueCount;
    var t := ResumeSorted(s, events, candles, closeAtEnd, cfg, policy);
    ReachesEnd(s, events, candles, closeAtEnd, cfg, policy);
    ReachesEnd(t, events, candles, closeAtEnd, cfg, policy);
    if t.count == |events| {
      NothingLeftToDo(t, events, candles, closeAtEnd, cfg, policy);
    } else {
      NowDue(s, t, events, candles);
    }
  }

  /** What waited in the first call is due in the second. */
  lemma NowDue(s: Preview, t: Preview, events: seq<Event>, candles: seq<Candle>)
    requires t.count == DueCount(Restart(s, events), events, candles, Restart(s, events).count) < |events|
    requires candles != [] ==> t.until == Some(Last(candles).closeTime)
    ensures DueCount(Restart(t, events), events, candles, t.count) != t.count
  {
    assert candles != [];
    assert !Deferred(t, candles, events[t.count]);
  }

  /** With every event due from the start, a second call is idle. */
  lemma RepeatIsIdle(events: seq<Event>, candles: seq<Candle>, cfg: Config, policy: FillPolicy)
    requires LastClosesLast(candles)
    requires forall e :: e in events ==> candles == [] || e.timestamp <= Last(candles).openTime
    ensures var t := ResumeSorted(FRESH, events, candles, false, cfg, policy);
            ResumeSorted(t, events, candles, false, cfg, policy) == t
  {
    hide ResumeSorted;
    ReachesEnd(FRESH, events, candles, false, cfg, policy);
    assert DueCount(FRESH, events, candles, 0) == |events|;
    RepeatExactly(FRESH, events, candles, false, cfg, policy);
  }

  // ---- more candles and more events ----

  /** A call on the first part, then one on both parts. */
  lemma SkipsFaced(a: seq<Candle>, b: seq<Candle>, m: MarketKey)
    requires Adjoins(a, b, m)
    ensures ResumeIndex(a + b, Some(Last(a).closeTime), 0) == |a|
  {
    CutParts(a, b, m);
    SkipsUpTo(a, b, 0);
    assert (a + b)[|a|] == b[0];
  }

  lemma {:induction false} SkipsUpTo(a: seq<Candle>, b: seq<Candle>, i: nat)
    requires i <= |a| && a != [] && b != [] && LastClosesLast(a) && Last(a).closeTime < b[0].closeTime
    ensures ResumeIndex(a + b, Some(Last(a).closeTime), i) == |a|
    decreases |a| - i
  {
    if i < |a| {
      assert (a + b)[i] == a[i];
      SkipsUpTo(a, b, i + 1);
    } else {
      assert (a + b)[i] == b[0];
    }
  }

  /** Clearing the first part before an event, or with the event, comes to the same. */
  lemma StepAfterClearing(l: Live, e: Event, a: seq<Candle>, b: seq<Candle>, cfg: Config, policy: FillPolicy,
                          m: MarketKey)
    requires Adjoins(a, b, m) && l.cursor <= |a| && Last(a).closeTime <= e.timestamp
    ensures LiveStep(l, e, a + b, cfg, policy)
         == LiveStep(SweepLive(l, a, None, policy).(cursor := |a|), e, a + b, cfg, policy)
  {
    hide Sweep, EventLive;
    CutParts(a, b, m);
    SweepAfterClearing(l, a, b, Some(e.timestamp), policy);
  }

  lemma SweepAfterClearing(l: Live, a: seq<Candle>, b: seq<Candle>, stopAt: Option<int>, policy: FillPolicy)
    requires l.cursor <= |a| && forall j :: l.cursor <= j < |a| ==> !Stops(a[j], stopAt)
    ensures SweepLive(l, a + b, stopAt, policy)
         == SweepLive(SweepLive(l, a, None, policy).(cursor := |a|), a + b, stopAt, policy)
  {
    hide Sweep, RecordAll;
    SweepAcross(l.open, a, b, l.cursor, stopAt, policy);
    var one := Sweep(l.open, a, l.cursor, None, policy);
    SweepSuffix(one.open, a, b, 0, stopAt, policy);
    RecordAllSplit(l.closed, one.resolved, Sweep(one.open, b, 0, stopAt, policy).resolved);
  }

  /** The state from which the second call goes on: the first part cleared. */
  lemma SecondStart(s: Preview, events: seq<Event>, a: seq<Candle>, b: seq<Candle>, cfg: Config, policy: FillPolicy,
                    m: MarketKey)
    requires Adjoins(a, b, m) && Ready(s, events, a, m) && EventsFit(s, events, a, b, cfg, policy)
    ensures var n, t := DueCount(s, events, a, s.count), Middle(s, events, a, cfg, policy);
            var l := LiveAfter(s, events, n, a + b, cfg, policy);
            && t.count == n && t.until == Some(Last(a).closeTime) && l.cursor <= |a|
            && LiveAfter(t, events, n, a + b, cfg, policy) == SweepLive(l, a, None, policy).(cursor := |a|)
  {
    hide Sweep, DueCount, EventsFit, Adjoins;
    var n := DueCount(s, events, a, s.count);
    FitsFirst(s, events, n, a, b, cfg, policy);
    FirstPart(s, events, n, a, b, cfg, policy, m);
    ReachesEnd(s, events, a, false, cfg, policy);
    SkipsFaced(a, b, m);
    hide LiveAfter;
    var l := LiveAfter(s, events, n, a, cfg, policy);
    SweepReachesEnd(l.open, a, l.cursor, policy);
    StartsThere(Middle(s, events, a, cfg, policy), events, a + b, cfg, policy);
  }

  lemma StartsThere(t: Preview, events: seq<Event>, candles: seq<Candle>, cfg: Config, policy: FillPolicy)
    requires t.count <= |events|
    ensures LiveAfter(t, events, t.count, candles, cfg, policy)
         == Live(t.open, t.closed, ResumeIndex(candles, t.until, 0))
  {
  }

  lemma FitsFirst(s: Preview, events: seq<Event>, n: nat, a: seq<Candle>, b: seq<Candle>, cfg: Config,
                  policy: FillPolicy)
    requires a != [] && n <= |events| && EventsFit(s, events, a, b, cfg, policy)
    ensures FitsUpTo(s, events, n, a, b, cfg, policy)
  {
  }

  /** From the first later event on, the second call stands where one call on everything stands. */
  lemma {:induction false} LaterAlike(s: Preview, events: seq<Event>, k: nat, a: seq<Candle>, b: seq<Candle>,
                                      cfg: Config, policy: FillPolicy, m: MarketKey)
    requires Adjoins(a, b, m) && Ready(s, events, a, m) && EventsFit(s, events, a, b, cfg, policy)
    requires EventsOrdered(events) && DueCount(s, events, a, s.count) < k <= |events|
    ensures Middle(s, events, a, cfg, policy).count < k
    ensures LiveAfter(Middle(s, events, a, cfg, policy), events, k, a + b, cfg, policy)
         == LiveAfter(s, events, k, a + b, cfg, policy)
    decreases k
  {
    hide Sweep, DueCount, EventsFit, Adjoins, LiveStep, Middle;
    var n, t := DueCount(s, events, a, s.count), Middle(s, events, a, cfg, policy);
    SecondStart(s, events, a, b, cfg, policy, m);
    if k - 1 == n {
      LaterIsLate(s, events, a, b, cfg, policy);
      StepAfterClearing(LiveAfter(s, events, n, a + b, cfg, policy), events[n], a, b, cfg, policy, m);
    } else {
      LaterAlike(s, events, k - 1, a, b, cfg, policy, m);
    }
  }

  /** The first event that waits comes at or after the close of the first part. */
  lemma LaterIsLate(s: Preview, events: seq<Event>, a: seq<Candle>, b: seq<Candle>, cfg: Config, policy: FillPolicy)
    requires a != [] && s.count <= |events| && EventsFit(s, events, a, b, cfg, policy)
    requires DueCount(s, events, a, s.count) < |events|
    ensures Last(a).closeTime <= events[DueCount(s, events, a, s.count)].timestamp
  {
    hide FitsUpTo;
  }

  /** Either the second part reaches a later candle, or no event comes after the open of its last one. */
  ghost predicate DueInTime(events: seq<Event>, a: seq<Candle>, b: seq<Candle>)
    requires a != [] && b != []
  {
    Last(a).closeTime < Last(b).openTime || forall j :: 0 <= j < |events| ==> events[j].timestamp <= Last(b).openTime
  }

  lemma {:induction false} AllDueFrom(s: Preview, events: seq<Event>, candles: seq<Candle>, k: nat)
    requires candles != [] && k <= |events|
    requires forall j :: 0 <= j < |events| ==> events[j].timestamp <= Last(candles).openTime
    ensures DueCount(s, events, candles, k) == |events|
    decreases |events| - k
  {
    if k < |events| { AllDueFrom(s, events, candles, k + 1); }
  }

  lemma DueTogether(s: Preview, t: Preview, events: seq<Event>, a: seq<Candle>, b: seq<Candle>, m: MarketKey)
    requires Adjoins(a, b, m) && Ready(s, events, a, m) && DueInTime(events, a, b)
    requires t.count == DueCount(s, events, a, s.count) && t.until == Some(Last(a).closeTime)
    ensures DueCount(t, events, a + b, t.count) == DueCount(s, events, a + b, s.count)
  {
    CutParts(a, b, m);
    if forall j :: 0 <= j < |events| ==> events[j].timestamp <= Last(b).openTime {
      AllDueFrom(s, events, a + b, s.count);
      AllDueFrom(t, events, a + b, t.count);
    } else {
      forall j | s.count <= j < t.count
        ensures events[j].timestamp <= Last(a + b).openTime
      {
        DeferredByLast(s, a, events[j]);
      }
      DueAlike(s, t, events, a + b, a + b, s.count, t.count);
    }
  }

  /** After a call on the first part, a call on both parts gives what one call on both parts gives. */
  lemma ExtendedCall(s: Preview, events: seq<Event>, a: seq<Candle>, b: seq<Candle>, closeAtEnd: bool, cfg: Config,
                     policy: FillPolicy, m: MarketKey)
    requires Adjoins(a, b, m) && Ready(s, events, a, m) && EventsFit(s, events, a, b, cfg, policy)
    requires EventsOrdered(events) && DueInTime(events, a, b)
    ensures ResumeSorted(Middle(s, events, a, cfg, policy), events, a + b, closeAtEnd, cfg, policy)
         == ResumeSorted(s, events, a + b, closeAtEnd, cfg, policy)
  {
    hide Sweep, LiveAfter, EndTrades, Middle, DueCount, EventsFit, Adjoins;
    var t := Middle(s, events, a, cfg, policy);
    SecondStart(s, events, a, b, cfg, policy, m);
    DueTogether(s, t, events, a, b, m);
    var n := DueCount(t, events, a + b, t.count);
    var x, y := LiveAfter(t, events, n, a + b, cfg, policy), LiveAfter(s, events, n, a + b, cfg, policy);
    if t.count < n {
      LaterAlike(s, events, n, a, b, cfg, policy, m);
    } else {
      SweepAfterClearing(y, a, b, None, policy);
    }
    SweepReachesEnd(y.open, a + b, y.cursor, policy);
    SweepReachesEnd(x.open, a + b, x.cursor, policy);
    BothNotEmpty(a, b, m);
  }

  lemma BothNotEmpty(a: seq<Candle>, b: seq<Candle>, m: MarketKey)
    requires Adjoins(a, b, m)
    ensures a + b != []
  {
  }

  // ---- events that the first call did not know of ----

  lemma {:induction false} KnownEvents(s: Preview, events: seq<Event>, n: nat, k: nat, candles: seq<Candle>,
                                       cfg: Config, policy: FillPolicy)
    requires s.count <= k <= n <= |events|
    ensures LiveAfter(s, events[..n], k, candles, cfg, policy) == LiveAfter(s, events, k, candles, cfg, policy)
    decreases k
  {
    hide LiveStep;
    if k != s.count { KnownEvents(s, events, n, k - 1, candles, cfg, policy); }
  }

  lemma {:induction false} KnownDue(s: Preview, events: seq<Event>, n: nat, k: nat, candles: seq<Candle>)
    requires k <= n <= |events| && candles != [] && (s.until.Some? ==> s.until.value < Last(candles).openTime)
    requires forall j :: n <= j < |events| ==> Last(candles).openTime < events[j].timestamp
    ensures DueCount(s, events[..n], candles, k) == DueCount(s, events, candles, k)
    decreases n - k
  {
    if k < n {
      assert events[..n][k] == events[k];
      KnownDue(s, events, n, k + 1, candles);
    } else if n < |events| {
      DeferredByLast(s, candles, events[n]);
    }
  }

  /** Candles and events arrive as time goes on: a call on what there was, then one on all there is, gives what a
      single call on everything gives. No candle is faced, and no event applied, twice or never. */
  lemma CallByCall(s: Preview, events: seq<Event>, n: nat, a: seq<Candle>, b: seq<Candle>, closeAtEnd: bool,
                   cfg: Config, policy: FillPolicy, m: MarketKey)
    requires Adjoins(a, b, m) && Ready(s, events, a, m) && EventsFit(s, events, a, b, cfg, policy)
    requires EventsOrdered(events) && DueInTime(events, a, b)
    requires s.count <= n <= |events| && forall j :: n <= j < |events| ==> Last(a).closeTime <= events[j].timestamp
    ensures ResumeSorted(ResumeSorted(s, events[..n], a, false, cfg, policy), events, a + b, closeAtEnd, cfg, policy)
         == ResumeSorted(s, events, a + b, closeAtEnd, cfg, policy)
  {
    hide Sweep, LiveAfter, DueCount, EventsFit, DueInTime;
    KnownDue(s, events, n, s.count, a);
    assert DueCount(s, events[..n], a, s.count) <= n;
    KnownEvents(s, events, n, DueCount(s, events, a, s.count), a, cfg, policy);
    assert ResumeSorted(s, events[..n], a, false, cfg, policy) == Middle(s, events, a, cfg, policy);
    hide ResumeSorted, Middle;
    ExtendedCall(s, events, a, b, closeAtEnd, cfg, policy, m);
  }
}
