/** The resumable driver computes what the one-shot driver computes. */
module Drivers {
  import opened Core
  import opened Market
  import opened Positions
  import opened Events
  import opened Replay
  import opened Ledger

  lemma RecordNew(closed: seq<Trade>, t: Trade, rest: seq<Trade>)
    requires Unique(TradeBag(closed) + TradeBag([t] + rest))
    ensures Record(closed, t) == closed + [t]
    ensures TradeBag(closed + [t]) + TradeBag(rest) == TradeBag(closed) + TradeBag([t] + rest)
  {
    TradeBagRecorded(closed, t.signalId);
    TradeBagAppend(closed, [t]);
    TradeBagAppend([t], rest);
    assert TradeBag([t])[t.signalId] == 1;
    assert (TradeBag(closed) + TradeBag([t] + rest))[t.signalId] <= 1;
  }

  /** Recording trades under new keys is appending them. */
  lemma {:induction false} RecordAllAppends(closed: seq<Trade>, ts: seq<Trade>)
    requires Unique(TradeBag(closed) + TradeBag(ts))
    ensures RecordAll(closed, ts) == closed + ts
    decreases |ts|
  {
    hide TradeBag, Record;
    if ts != [] {
      assert ts == [ts[0]] + ts[1..];
      RecordNew(closed, ts[0], ts[1..]);
      RecordAllAppends(closed + [ts[0]], ts[1..]);
      assert closed + [ts[0]] + ts[1..] == closed + ts;
    }
  }

  /** No id is traded twice. */
  ghost predicate OncePerId(trades: seq<Trade>) { Unique(TradeBag(trades)) }

  lemma OncePerIdSplits(front: seq<Trade>, back: seq<Trade>)
    requires OncePerId(front + back)
    ensures OncePerId(front) && RecordAll(front, back) == front + back
  {
    TradeBagAppend(front, back);
    UniquePart(TradeBag(front), TradeBag(back), TradeBag(front + back));
    RecordAllAppends(front, back);
  }

  /** The dictionary holds the trade list, and both cursors stand at the same candle. */
  ghost predicate Agree(l: Live, b: Book)
  {
    l.open == b.open && l.closed == b.trades && l.cursor == b.cursor
  }

  /** What was traded once by now was traded once before. */
  lemma EarlierOnce(b: Book, e: Event, candles: seq<Candle>, cfg: Config, policy: FillPolicy)
    requires b.cursor <= |candles|
    requires OncePerId(EventBook(SweepBook(b, candles, Some(e.timestamp), policy), e, candles, cfg).trades)
    ensures OncePerId(SweepBook(b, candles, Some(e.timestamp), policy).trades) && OncePerId(b.trades)
  {
    hide Sweep, ApplyEvent, OncePerId;
    var s := SweepBook(b, candles, Some(e.timestamp), policy);
    OncePerIdSplits(s.trades, ApplyEvent(e, s.open, s.balance, candles, cfg).trades);
    OncePerIdSplits(b.trades, Sweep(b.open, candles, b.cursor, Some(e.timestamp), policy).resolved);
  }

  lemma SweepsAgree(l: Live, b: Book, candles: seq<Candle>, stopAt: Option<int>, policy: FillPolicy)
    requires b.cursor <= |candles| && Agree(l, b) && OncePerId(SweepBook(b, candles, stopAt, policy).trades)
    ensures Agree(SweepLive(l, candles, stopAt, policy), SweepBook(b, candles, stopAt, policy))
  {
    hide Sweep, OncePerId;
    OncePerIdSplits(b.trades, Sweep(b.open, candles, b.cursor, stopAt, policy).resolved);
  }

  lemma EventsAgree(l: Live, b: Book, e: Event, candles: seq<Candle>, cfg: Config)
    requires Agree(l, b) && b.balance == Balance(b.trades, cfg) && OncePerId(EventBook(b, e, candles, cfg).trades)
    ensures Agree(EventLive(l, e, candles, cfg), EventBook(b, e, candles, cfg))
  {
    hide ApplyEvent, OncePerId;
    OncePerIdSplits(b.trades, ApplyEvent(e, b.open, b.balance, candles, cfg).trades);
  }

  /** The running balance is the one recomputed from the trades. */
  lemma {:induction false} BookPays(events: seq<Event>, k: nat, candles: seq<Candle>, cfg: Config, policy: FillPolicy,
                                    stopAt: Option<int>)
    requires k <= |events|
    ensures var b := BookAfter(events, k, candles, cfg, policy); b.balance == Balance(b.trades, cfg)
    ensures var b := SweepBook(BookAfter(events, k, candles, cfg, policy), candles, stopAt, policy);
            b.balance == Balance(b.trades, cfg)
    decreases k
  {
    hide Sweep, ApplyEvent, TotalPnl;
    if k == 0 {
      NothingPaid();
    } else {
      var before := BookAfter(events, k - 1, candles, cfg, policy);
      BookPays(events, k - 1, candles, cfg, policy, Some(events[k - 1].timestamp));
      var s := SweepBook(before, candles, Some(events[k - 1].timestamp), policy);
      TotalPnlAppend(s.trades, ApplyEvent(events[k - 1], s.open, s.balance, candles, cfg).trades);
    }
    var b := BookAfter(events, k, candles, cfg, policy);
    TotalPnlAppend(b.trades, Sweep(b.open, candles, b.cursor, stopAt, policy).resolved);
  }

  lemma NothingPaid()
    ensures TotalPnl([]) == 0.0
  {
  }

  /** As long as no id has been traded twice the drivers are in step. */
  lemma {:induction false} InStepWhileOnce(events: seq<Event>, k: nat, candles: seq<Candle>, cfg: Config,
        policy: FillPolicy)
    requires k <= |events| && OncePerId(BookAfter(events, k, candles, cfg, policy).trades)
    ensures Agree(LiveAfter(FRESH, events, k, candles, cfg, policy), BookAfter(events, k, candles, cfg, policy))
    decreases k
  {
    hide SweepBook, EventBook, SweepLive, EventLive, OncePerId, Balance;
    if k != 0 {
      var e := events[k - 1];
      var b := BookAfter(events, k - 1, candles, cfg, policy);
      var l := LiveAfter(FRESH, events, k - 1, candles, cfg, policy);
      var stopAt := Some(e.timestamp);
      EarlierOnce(b, e, candles, cfg, policy);
      InStepWhileOnce(events, k - 1, candles, cfg, policy);
      SweepsAgree(l, b, candles, stopAt, policy);
      BookPays(events, k - 1, candles, cfg, policy, stopAt);
      EventsAgree(SweepLive(l, candles, stopAt, policy), SweepBook(b, candles, stopAt, policy), e, candles, cfg);
    }
  }

  ghost predicate UniqueIds(b: Book) { Unique(OpenBag(b.open) + TradeBag(b.trades)) }

  /** With distinct OPEN ids the two drivers are in step after any number of events. */
  lemma PrefixesAgree(events: seq<Event>, k: nat, candles: seq<Candle>, cfg: Config, policy: FillPolicy)
    requires k <= |events| && DistinctOpens(events)
    ensures Agree(LiveAfter(FRESH, events, k, candles, cfg, policy), BookAfter(events, k, candles, cfg, policy))
    ensures UniqueIds(BookAfter(events, k, candles, cfg, policy))
  {
    hide BookAfter, LiveAfter;
    var b := BookAfter(events, k, candles, cfg, policy);
    BookBalanced(events, k, candles, cfg, policy);
    OpenedBagUnique(events, k);
    UniquePart(TradeBag(b.trades), OpenBag(b.open), OpenedBag(events, k));
    InStepWhileOnce(events, k, candles, cfg, policy);
  }

  // ---- a dictionary has each key once ----

  lemma {:induction false} RecordOnce(closed: seq<Trade>, t: Trade)
    requires OncePerId(closed)
    ensures OncePerId(Record(closed, t))
  {
    hide TradeBag, Recorded, RecordIndex;
    TradeBagRecorded(closed, t.signalId);
    if Recorded(closed, t.signalId) {
      TradeBagAt(closed, RecordIndex(closed, t.signalId), t);
    } else {
      TradeBagAppend(closed, [t]);
      OneInBag(t);
    }
  }

  lemma OneInBag(t: Trade)
    ensures TradeBag([t]) == multiset{t.signalId}
  {
  }

  lemma TradeBagAt(closed: seq<Trade>, i: nat, t: Trade)
    requires i < |closed| && closed[i].signalId == t.signalId
    ensures TradeBag(closed[i := t]) == TradeBag(closed)
  {
    hide TradeBag;
    var before, after := closed[..i], closed[i + 1..];
    assert closed == before + ([closed[i]] + after) && closed[i := t] == before + ([t] + after);
    TradeBagAppend(before, [closed[i]] + after);
    TradeBagAppend(before, [t] + after);
    BagCons(closed[i], after);
    BagCons(t, after);
  }

  lemma {:induction false} RecordAllOnce(closed: seq<Trade>, ts: seq<Trade>)
    requires OncePerId(closed)
    ensures OncePerId(RecordAll(closed, ts))
    decreases |ts|
  {
    hide Record, OncePerId;
    if ts != [] {
      RecordOnce(closed, ts[0]);
      RecordAllOnce(Record(closed, ts[0]), ts[1..]);
    }
  }

  lemma {:induction false} LiveOnce(events: seq<Event>, k: nat, candles: seq<Candle>, cfg: Config, policy: FillPolicy)
    requires k <= |events|
    ensures OncePerId(LiveAfter(FRESH, events, k, candles, cfg, policy).closed)
    decreases k
  {
    hide Sweep, ApplyEvent, OncePerId;
    if k == 0 {
      NothingTwice();
    } else {
      var l := LiveAfter(FRESH, events, k - 1, candles, cfg, policy);
      LiveOnce(events, k - 1, candles, cfg, policy);
      RecordAllOnce(l.closed, Sweep(l.open, candles, l.cursor, Some(events[k - 1].timestamp), policy).resolved);
      var s := SweepLive(l, candles, Some(events[k - 1].timestamp), policy);
      RecordAllOnce(s.closed, ApplyEvent(events[k - 1], s.open, Balance(s.closed, cfg), candles, cfg).trades);
    }
  }

  lemma NothingTwice()
    ensures OncePerId([])
  {
  }

  /** No event waits for a later segment: all are due by the open of the last candle. */
  ghost predicate AllDue(events: seq<Event>, candles: seq<Candle>)
  {
    candles != [] ==> forall e :: e in events ==> e.timestamp <= candles[|candles| - 1].openTime
  }

  /** With every event due, the drivers return the same trades in the same order if and only if the one-shot run
      trades no id twice; and then the same balance, with nothing left open and every event consumed. */
  lemma DriversAgreeExactly(events: seq<Event>, candles: seq<Candle>, cfg: Config, policy: FillPolicy)
    requires AllDue(events, candles)
    ensures var one := RunSorted(events, candles, cfg, policy);
            var two := ResumeSorted(FRESH, events, candles, true, cfg, policy);
            && (two.closed == one.trades <==> OncePerId(one.trades))
            && (OncePerId(one.trades) ==> Balance(two.closed, cfg) == one.balance)
            && two.open == one.open == []
            && two.count == |events|
  {
    hide Sweep, EndTrades, OncePerId, BookAfter, LiveAfter, TotalPnl;
    var n := |events|;
    assert DueCount(FRESH, events, candles, 0) == n;
    var b := BookAfter(events, n, candles, cfg, policy);
    var l := LiveAfter(FRESH, events, n, candles, cfg, policy);
    var s := SweptBook(events, candles, cfg, policy);
    LiveOnce(events, n, candles, cfg, policy);
    var swept := SweepLive(l, candles, None, policy);
    RecordAllOnce(l.closed, Sweep(l.open, candles, l.cursor, None, policy).resolved);
    RecordAllOnce(swept.closed, EndTrades(swept.open, candles));
    if OncePerId(RunSorted(events, candles, cfg, policy).trades) {
      OncePerIdSplits(s.trades, EndTrades(s.open, candles));
      OncePerIdSplits(b.trades, Sweep(b.open, candles, b.cursor, None, policy).resolved);
      InStepWhileOnce(events, n, candles, cfg, policy);
      SweepsAgree(l, b, candles, None, policy);
      BookPays(events, n, candles, cfg, policy, None);
      TotalPnlAppend(s.trades, EndTrades(s.open, candles));
    }
  }

  /** Same trades in the same order, same balance, nothing left open. */
  lemma DriversAgree(events: seq<Event>, candles: seq<Candle>, cfg: Config, policy: FillPolicy)
    requires DistinctOpens(events) && AllDue(events, candles)
    ensures var one := RunSorted(events, candles, cfg, policy);
            var two := ResumeSorted(FRESH, events, candles, true, cfg, policy);
            && two.closed == one.trades
            && Balance(two.closed, cfg) == one.balance
            && two.open == one.open == []
            && two.count == |events|
  {
    hide RunSorted, ResumeSorted;
    LedgerConserved(events, candles, cfg, policy);
    OpenedBagUnique(events, |events|);
    DriversAgreeExactly(events, candles, cfg, policy);
  }

  lemma RefusedWithoutCandles(e: Event, open: seq<Position>, balance: real, cfg: Config)
    requires Opens(e)
    ensures ApplyEvent(e, open, balance, [], cfg) == Effect(open, [NotFilledTrade(e, e.parsed.symbol.value)])
  {
  }

  /** Without distinct ids the drivers part: a trade list keeps both records, a dictionary one. */
  lemma DuplicateIdsDisagree(e: Event, cfg: Config, policy: FillPolicy)
    requires Opens(e)
    ensures |RunSorted([e, e], [], cfg, policy).trades| == 2
    ensures |ResumeSorted(FRESH, [e, e], [], true, cfg, policy).closed| == 1
  {
    ListKeepsBoth(e, cfg, policy);
    DictionaryKeepsOne(e, cfg, policy);
  }

  lemma ListKeepsBoth(e: Event, cfg: Config, policy: FillPolicy)
    requires Opens(e)
    ensures |RunSorted([e, e], [], cfg, policy).trades| == 2
  {
    hide ApplyEvent, TotalPnl;
    var t := NotFilledTrade(e, e.parsed.symbol.value);
    forall open: seq<Position>, balance: real
      ensures ApplyEvent(e, open, balance, [], cfg) == Effect(open, [t])
    {
      RefusedWithoutCandles(e, open, balance, cfg);
    }
    assert BookAfter([e, e], 1, [], cfg, policy).trades == [t];
    assert BookAfter([e, e], 2, [], cfg, policy).trades == [t, t];
  }

  lemma DictionaryKeepsOne(e: Event, cfg: Config, policy: FillPolicy)
    requires Opens(e)
    ensures |ResumeSorted(FRESH, [e, e], [], true, cfg, policy).closed| == 1
  {
    hide ApplyEvent, TotalPnl, NotFilledTrade, RecordAll;
    var events, t := [e, e], NotFilledTrade(e, e.parsed.symbol.value);
    forall open: seq<Position>, balance: real
      ensures ApplyEvent(e, open, balance, [], cfg) == Effect(open, [t])
    {
      RefusedWithoutCandles(e, open, balance, cfg);
    }
    OneKey(t);
    assert DueCount(FRESH, events, [], 0) == 2;
    assert LiveAfter(FRESH, events, 1, [], cfg, policy) == Live([], [t], 0);
    assert LiveAfter(FRESH, events, 2, [], cfg, policy) == Live([], [t], 0);
  }

  lemma OneKey(t: Trade)
    ensures RecordAll([], [t]) == [t] && RecordAll([t], [t]) == [t]
    ensures forall closed :: RecordAll(closed, []) == closed
  {
    assert Recorded([t], t.signalId) by { assert [t][0].signalId == t.signalId; }
    assert RecordAll([], [t]) == Record([], t) == [t];
    assert RecordAll([t], [t]) == Record([t], t) == [t];
  }

  /** The resumable driver consumes every event exactly when none comes after the open of the last candle. */
  lemma AllDueExactly(events: seq<Event>, candles: seq<Candle>, cfg: Config, policy: FillPolicy)
    requires EventsOrdered(events)
    ensures ResumeSorted(FRESH, events, candles, true, cfg, policy).count == |events| <==> AllDue(events, candles)
  {
    hide LiveAfter, SweepLive, EndLive;
    var n := DueCount(FRESH, events, candles, 0);
    if n == |events| {
      forall e | candles != [] && e in events
        ensures e.timestamp <= candles[|candles| - 1].openTime
      {
        var j :| 0 <= j < |events| && events[j] == e;
        assert !Deferred(FRESH, candles, events[j]);
      }
    } else {
      assert events[n] in events && Deferred(FRESH, candles, events[n]);
    }
  }
}
