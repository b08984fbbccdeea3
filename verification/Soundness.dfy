/** Accounting and ladder invariants of every reachable state, and of every trade. */
module Soundness {
  import opened Core
  import opened Market
  import opened Lookups
  import opened Positions
  import opened Sizing
  import opened Events
  import opened Replay
  import opened Accounting

  // ---- opening ----

  lemma LeverageAtLeastOne(e: Event, cfg: Config)
    ensures 1.0 <= EffectiveLeverage(e, cfg)
  {
  }

  lemma QuotientPositive(a: real, b: real)
    requires 0.0 < a && 0.0 < b
    ensures 0.0 < a / b
  {
  }

  /** Without rounding, whatever the allocation and the margin gate let through is positive. */
  lemma OrderQuantityPositive(e: Event, open: seq<Position>, balance: real, entry: Price, cfg: Config)
    requires cfg.maxStopLossPct.None?
    ensures var q := OrderQuantity(e, open, balance, entry, cfg); q.Some? ==> 0.0 < q.value
  {
    hide UsedMargin, AllocationPct;
    LeverageAtLeastOne(e, cfg);
    var leverage := EffectiveLeverage(e, cfg);
    var amount := AllocatedAmount(balance, leverage, cfg);
    if 0.0 < amount {
      assert 0.0 < amount * leverage;
      QuotientPositive(amount * leverage, entry);
    }
    var free := Max(balance - UsedMargin(open), 0.0);
    if 0.0 < free {
      assert 0.0 < free * leverage;
      QuotientPositive(free * leverage, entry);
    }
  }

  /** Every opened position has a positive quantity, and sound books from the start. */
  lemma {:induction false} OpenedSound(e: Event, market: MarketKey, open: seq<Position>, balance: real,
        candles: seq<Candle>, cfg: Config)
    ensures var d := Decide(e, market, open, balance, candles, cfg);
            d.Filled? ==> Sound(d.position, cfg)
  {
    hide FindEntry, OrderQuantity, CapSynthetic, CapExplicit, Sanitize, Accounts, Ladder;
    match Decide(e, market, open, balance, candles, cfg)
    case Refused =>
    case Filled(p) =>
      var fill := FindEntry(e.parsed, market, e.timestamp, candles).value;
      var quantity := OrderQuantity(e, open, balance, fill.price, cfg).value;
      if cfg.maxStopLossPct.None? {
        OrderQuantityPositive(e, open, balance, fill.price, cfg);
      }
      var q := Protect(e.parsed, fill.price, quantity, balance, cfg).value;
      assert 0.0 < q.quantity;
      SanitizeIsLadder(e.parsed.side, fill.price, q.stop, e.parsed.takeProfits);
      assert Pending(p) == p.takeProfits;
      NewAccounts(e, market, fill, q, balance, cfg);
  }

  lemma NewAccounts(e: Event, market: MarketKey, fill: Fill, q: Protected, balance: real, cfg: Config)
    requires 0.0 < q.quantity
    ensures Accounts(NewPosition(e, market, fill, q, balance, cfg))
  {
    hide Sanitize;
    var p := NewPosition(e, market, fill, q, balance, cfg);
    FeeIsLinear(p, fill.price, q.quantity);
    assert p.entryPrice * (p.original - p.remaining) == 0.0;
  }

  // ---- follow-ups ----

  lemma UpdateSound(p: Position, e: Event, cfg: Config)
    requires Sound(p, cfg)
    ensures Sound(Update(p, e, cfg), cfg)
  {
    hide Sanitize, Ladder, UnsafeStop, RejectsUpdate, Accounts;
    var stop := NewStop(p, e, cfg);
    var valid := Sanitize(p.side, p.entryPrice, stop, e.parsed.takeProfits);
    SanitizeIsLadder(p.side, p.entryPrice, stop, e.parsed.takeProfits);
    var q := Update(p, e, cfg);
    SameAccounts(p, q);
    assert (p.takeProfits[..p.targetsHit] + valid)[p.targetsHit..] == valid;
    assert Pending(q) == Pending(p) || Pending(q) == valid;
  }

  lemma FlagSound(p: Position, cfg: Config)
    requires Sound(p, cfg)
    ensures Sound(p.(manualPartialExit := true), cfg)
  {
    assert Pending(p.(manualPartialExit := true)) == Pending(p);
  }

  lemma CloseKeepsLadder(p: Position, at: int, price: real, fraction: real)
    requires OnLadder(p)
    ensures OnLadder(CloseFraction(p, at, price, fraction))
  {
    CloseTouches(p, at, price, fraction);
  }

  lemma EndSound(p: Position, at: int, price: real, status: Status, cfg: Config)
    requires Sound(p, cfg) && !status.NotFilled?
    ensures TradeAddsUp(Finalize(CloseFraction(p, at, price, 1.0), status), cfg)
    ensures TradeAddsUp(CloseRemaining(p, at, price, status), cfg)
  {
    hide CloseFraction, TradeAddsUp, Finalize, OnLadder;
    CloseAccounts(p, at, price, 1.0);
    CloseTouches(p, at, price, 1.0);
    FinalizeAddsUp(CloseFraction(p, at, price, 1.0), status, cfg);
  }

  lemma {:induction false} FollowSound(p: Position, e: Event, candles: seq<Candle>, cfg: Config)
    requires Sound(p, cfg)
    ensures match Follow(p, e, candles, cfg)
            case Keep(q) => Sound(q, cfg)
            case End(t) => TradeAddsUp(t, cfg)
  {
    hide CloseFraction, Accounts, OnLadder, Finalize, TradeAddsUp, CloseRemaining, Update, ManualPrice, CloseStatus,
      RequestedFraction;
    if e.parsed.action.CANCEL? {
      EndSound(p, e.timestamp, p.entryPrice, CancelStatus(p), cfg);
    } else if e.parsed.action.CLOSE? {
      var price := ManualPrice(p, e.timestamp, candles);
      var f := RequestedFraction(e);
      var q := CloseFraction(p, e.timestamp, price, f);
      CloseLeaves(p, e.timestamp, price, f, cfg);
      if f < 1.0 {
        PartSound(p, e.timestamp, price, f, cfg);
        FlagSound(q, cfg);
      } else {
        StatusOfClose(q);
        EndSound(p, e.timestamp, price, CloseStatus(q), cfg);
      }
    } else {
      UpdateSound(p, e, cfg);
    }
  }

  lemma PartSound(p: Position, at: int, price: real, fraction: real, cfg: Config)
    requires Sound(p, cfg) && fraction < 1.0
    ensures Sound(CloseFraction(p, at, price, fraction), cfg)
  {
    hide CloseFraction, Accounts, OnLadder;
    CloseLeaves(p, at, price, fraction, cfg);
    CloseAccounts(p, at, price, fraction);
    CloseTouches(p, at, price, fraction);
    CloseKeepsLadder(p, at, price, fraction);
  }

  lemma StatusOfClose(p: Position)
    ensures !CloseStatus(p).NotFilled?
  {
  }

  /** What a close leaves: nothing of the whole, everything of nothing, and otherwise something. */
  lemma CloseLeaves(p: Position, at: int, price: real, fraction: real, cfg: Config)
    requires Sound(p, cfg)
    ensures var q := CloseFraction(p, at, price, fraction);
            && (1.0 <= fraction ==> q.remaining == 0.0 && q == CloseFraction(p, at, price, 1.0))
            && (fraction < 1.0 ==> 0.0 < q.remaining)
            && (fraction <= 0.0 ==> q == p)
  {
    hide Sound, CloseFraction, Accounts;
    SoundDeal(p, cfg);
    FullIsWhole(p, at, price, fraction);
    CloseAccounts(p, at, price, fraction);
  }

  /** Asking for more than everything closes everything; asking for less than all leaves something. */
  lemma FullIsWhole(p: Position, at: int, price: real, fraction: real)
    requires 0.0 < p.remaining
    ensures 1.0 <= fraction ==> CloseFraction(p, at, price, fraction) == CloseFraction(p, at, price, 1.0)
    ensures fraction <= 0.0 ==> CloseFraction(p, at, price, fraction) == p
  {
    hide TakeOff;
    if 1.0 <= fraction {
      ClosedQuantityBounds(p, fraction);
      ClosedQuantityBounds(p, 1.0);
    }
  }

  // ---- every reachable state ----

  ghost predicate AllSound(open: seq<Position>, cfg: Config)
  {
    forall i :: 0 <= i < |open| ==> Sound(open[i], cfg)
  }

  ghost predicate AllAddUp(trades: seq<Trade>, cfg: Config)
  {
    forall i :: 0 <= i < |trades| ==> TradeAddsUp(trades[i], cfg)
  }

  ghost predicate EffectSound(r: Effect, cfg: Config) { AllSound(r.open, cfg) && AllAddUp(r.trades, cfg) }

  lemma MeetSound(p: Position, c: Candle, policy: FillPolicy, rest: Effect, cfg: Config)
    requires Sound(p, cfg) && EffectSound(rest, cfg)
    ensures EffectSound(Meet(p, c, policy, rest), cfg)
  {
    hide ApplyCandle, Sound, Accounts, TradeAddsUp, Finalize;
    CandleKeepsSound(p, c, policy, cfg);
    var r := ApplyCandle(p, c, policy);
    if r.status.Some? {
      SoundDeal(p, cfg);
      StatusIsFilled(p, c, policy);
      FinalizeAddsUp(r.position, r.status.value, cfg);
    }
  }

  lemma SoundDeal(p: Position, cfg: Config)
    requires Sound(p, cfg)
    ensures 0.0 < p.remaining && 0.0 < p.original && p.feeRatePct == cfg.feeRatePct && Accounts(p)
  {
  }

  lemma StatusIsFilled(p: Position, c: Candle, policy: FillPolicy)
    ensures ApplyCandle(p, c, policy).status != Some(NotFilled)
  {
    hide TakeTargets, CloseFraction, HitTargets;
  }

  lemma {:induction false} StepSound(open: seq<Position>, c: Candle, policy: FillPolicy, cfg: Config)
    requires AllSound(open, cfg)
    ensures EffectSound(StepCandle(open, c, policy), cfg)
    decreases |open|
  {
    hide Meet, Sound, TradeAddsUp;
    if open != [] {
      StepSound(open[1..], c, policy, cfg);
      MeetSound(open[0], c, policy, StepCandle(open[1..], c, policy), cfg);
    }
  }

  lemma {:induction false} SweepSound(open: seq<Position>, candles: seq<Candle>, i: nat, stopAt: Option<int>,
                                      policy: FillPolicy, cfg: Config)
    requires i <= |candles| && AllSound(open, cfg)
    ensures var r := Sweep(open, candles, i, stopAt, policy);
            AllSound(r.open, cfg) && AllAddUp(r.resolved, cfg)
    decreases |candles| - i
  {
    hide StepCandle, Sound, TradeAddsUp;
    if i < |candles| && !Stops(candles[i], stopAt) {
      StepSound(open, candles[i], policy, cfg);
      SweepSound(StepCandle(open, candles[i], policy).open, candles, i + 1, stopAt, policy, cfg);
    }
  }

  lemma {:induction false} CloseAllSound(open: seq<Position>, time: int, candles: seq<Candle>, cfg: Config)
    requires AllSound(open, cfg)
    ensures AllAddUp(CloseAll(open, time, candles), cfg)
  {
    hide Sound, TradeAddsUp, Finalize, CloseFraction;
    if open != [] {
      CloseAllSound(open[1..], time, candles, cfg);
      EndSound(open[0], time, ManualPrice(open[0], time, candles), CloseStatus(open[0]), cfg);
    }
  }

  lemma {:induction false} EndTradesSound(open: seq<Position>, candles: seq<Candle>, cfg: Config)
    requires AllSound(open, cfg)
    ensures AllAddUp(EndTrades(open, candles), cfg)
  {
    hide Sound, TradeAddsUp, CloseRemaining;
    if open != [] {
      EndTradesSound(open[1..], candles, cfg);
      EndSound(open[0], FinalTime(open[0], candles), FinalPrice(open[0], candles), OpenUntilEnd, cfg);
      EndSound(open[0], FinalTime(open[0], candles), FinalPrice(open[0], candles), PartialTpOpenUntilEnd, cfg);
    }
  }

  lemma EventSound(e: Event, open: seq<Position>, balance: real, candles: seq<Candle>, cfg: Config)
    requires AllSound(open, cfg)
    ensures EffectSound(ApplyEvent(e, open, balance, candles, cfg), cfg)
  {
    hide Decide, Follow, Sound, CloseAll;
    if Opens(e) {
      OpenedSound(e, e.parsed.symbol.value, open, balance, candles, cfg);
    } else if ClosesAll(e) && open != [] {
      CloseAllSound(open, e.timestamp, candles, cfg);
    } else if e.relatedId.Some? && Holds(open, e.relatedId.value) {
      FollowSound(open[IndexOf(open, e.relatedId.value)], e, candles, cfg);
    }
  }

  ghost predicate BookSound(b: Book, cfg: Config) { AllSound(b.open, cfg) && AllAddUp(b.trades, cfg) }

  lemma SweepBookSound(b: Book, candles: seq<Candle>, stopAt: Option<int>, policy: FillPolicy, cfg: Config)
    requires b.cursor <= |candles| && BookSound(b, cfg)
    ensures BookSound(SweepBook(b, candles, stopAt, policy), cfg)
  {
    hide Sweep, Sound, TradeAddsUp;
    SweepSound(b.open, candles, b.cursor, stopAt, policy, cfg);
  }

  /** Accounting and ladder hold in every reachable book, whatever the events. */
  lemma {:induction false} ReachableSound(events: seq<Event>, k: nat, candles: seq<Candle>, cfg: Config,
        policy: FillPolicy)
    requires k <= |events|
    ensures BookSound(BookAfter(events, k, candles, cfg, policy), cfg)
    decreases k
  {
    hide SweepBook, ApplyEvent, Sound, TradeAddsUp;
    if k != 0 {
      var b := BookAfter(events, k - 1, candles, cfg, policy);
      var stopAt := Some(events[k - 1].timestamp);
      ReachableSound(events, k - 1, candles, cfg, policy);
      SweepBookSound(b, candles, stopAt, policy, cfg);
      var s := SweepBook(b, candles, stopAt, policy);
      EventSound(events[k - 1], s.open, s.balance, candles, cfg);
    }
  }

  /** Every trade of a run: profit is the average move times the quantity, less two-sided fees. */
  lemma RunAddsUp(events: seq<Event>, candles: seq<Candle>, cfg: Config, policy: FillPolicy)
    ensures AllAddUp(RunSorted(events, candles, cfg, policy).trades, cfg)
  {
    hide SweepBook, Sound, TradeAddsUp, EndTrades;
    var b := BookAfter(events, |events|, candles, cfg, policy);
    ReachableSound(events, |events|, candles, cfg, policy);
    SweepBookSound(b, candles, None, policy, cfg);
    EndTradesSound(SweptBook(events, candles, cfg, policy).open, candles, cfg);
  }
}
