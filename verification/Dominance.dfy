/** When optimistic fills do no worse than conservative ones: on one candle and over a whole one-signal run. */
module Dominance {
  import opened Core
  import opened Market
  import opened Lookups
  import opened Positions
  import opened Sizing
  import opened Events
  import opened Replay
  import opened Accounting
  import opened NetProfit
  import opened Soundness
  import opened Risk

  // ---- one candle ----

  /** What has been taken off, valued with the rest stopped out. */
  function IfStopped(p: Position): real { p.exitNotional + p.remaining * p.stopLoss }

  /** Stopping out changes nothing about the value with the rest stopped out. */
  lemma StopKeepsValue(p: Position, at: int)
    requires Accounts(p) && 0.0 < p.remaining
    ensures var q := CloseFraction(p, at, p.stopLoss, 1.0);
            Accounts(q) && q.remaining == 0.0 && SameDeal(p, q) && q.exitNotional == IfStopped(p)
  {
    CloseAccounts(p, at, p.stopLoss, 1.0);
    ClosedQuantityBounds(p, 1.0);
  }

  /** What taking an amount off at a price instead of at the stop is worth. */
  function Gain(quantity: real, price: real, stop: real): real { quantity * (price - stop) }

  /** A target moves the value by its distance from the stop, for the quantity it takes. */
  lemma TargetMovesValue(p: Position, at: int, tp: real)
    requires Accounts(p) && 0.0 < p.remaining
    ensures var q := TakeTarget(p, at, tp);
            IfStopped(q) == IfStopped(p) + Gain(p.remaining - q.remaining, tp, p.stopLoss)
  {
    hide Accounts, ClosedQuantity, Pnl, ExitFee;
    var f := TargetFraction(p);
    var quantity := ClosedQuantity(p, f);
    ClosedQuantityBounds(p, f);
    TakeOffAccounts(p, at, tp, quantity);
    MoveValue(p.exitNotional, p.remaining, p.stopLoss, tp, quantity);
  }

  lemma MoveValue(notional: real, remaining: real, stop: real, tp: real, quantity: real)
    ensures notional + tp * quantity + (remaining - quantity) * stop ==
            notional + remaining * stop + Gain(quantity, tp, stop)
  {
    assert (remaining - quantity) * stop == remaining * stop - quantity * stop;
    assert quantity * (tp - stop) == tp * quantity - quantity * stop;
  }

  /** What equal shares taken off at these prices, instead of at the stop, are worth. */
  function GainOf(share: real, prices: seq<real>, stop: real): real
  {
    share * (Sum(prices) - stop * |prices| as real)
  }

  lemma GainOfOneMore(share: real, prices: seq<real>, stop: real)
    requires prices != []
    ensures GainOf(share, prices, stop) == Gain(share, prices[0], stop) + GainOf(share, prices[1..], stop)
  {
    var n, rest := |prices[1..]| as real, Sum(prices[1..]);
    assert |prices| as real == n + 1.0 && Sum(prices) == prices[0] + rest;
    assert stop * (n + 1.0) == stop * n + stop;
    assert share * ((prices[0] - stop) + (rest - stop * n)) == share * (prices[0] - stop) + share * (rest - stop * n);
  }

  /** The nearest target leaves one share less. */
  lemma ShareTaken(p: Position, at: int, share: real)
    requires Accounts(p) && 0.0 < p.remaining && OnLadder(p) && Pending(p) != []
    requires p.remaining == share * |Pending(p)| as real
    ensures TakeTarget(p, at, Pending(p)[0]).remaining == share * (|Pending(p)| - 1) as real
  {
    hide Accounts, OnLadder, TakeTarget, Pending;
    TakeOneTarget(p, at);
    var n := |Pending(p)| as real;
    assert (share * n) * (n - 1.0) == (share * (n - 1.0)) * n;
    CancelFactor(TakeTarget(p, at, Pending(p)[0]).remaining, share * (n - 1.0), n);
  }

  /** The k nearest targets move the value by one share each. */
  lemma {:induction false} NearestMoveValue(p: Position, at: int, k: nat, share: real)
    requires Accounts(p) && 0.0 < p.remaining && OnLadder(p) && k <= |Pending(p)|
    requires p.remaining == share * |Pending(p)| as real
    ensures IfStopped(TakeTargets(p, at, Pending(p)[..k]))
         == IfStopped(p) + GainOf(share, Pending(p)[..k], p.stopLoss)
    decreases k
  {
    hide Accounts, OnLadder, TakeTarget, Pending, IfStopped, Gain, GainOf;
    var pending := Pending(p);
    var hits := pending[..k];
    if k == 0 {
      NothingGained(share, p.stopLoss);
    } else {
      var q := TakeTarget(p, at, pending[0]);
      TakeOneTarget(p, at);
      ShareTaken(p, at, share);
      TargetMovesValue(p, at, pending[0]);
      OneShare(share, |pending|);
      GainOfOneMore(share, hits, p.stopLoss);
      assert hits[0] == pending[0] && hits[1..] == pending[1..][..k - 1];
      if 1 < |pending| {
        NearestMoveValue(q, at, k - 1, share);
        assert TakeTargets(p, at, hits) == TakeTargets(q, at, Pending(q)[..k - 1]);
        assert p.remaining - q.remaining == share;
      } else {
        AccountsBound(q);
        NothingGained(share, p.stopLoss);
        assert hits[1..] == [];
      }
    }
  }

  lemma OneShare(share: real, n: nat)
    ensures share * n as real - share * (n - 1) as real == share
  {
  }

  lemma NothingGained(share: real, stop: real)
    ensures GainOf(share, [], stop) == 0.0
  {
  }

  /** The candle touches the stop and a target: the policies part. */
  predicate Clash(p: Position, c: Candle) { HitStop(p, c) && HitTargets(p, c, Pending(p)) != [] }

  /** The touched targets together are worse than the stop would be for the same quantity. */
  predicate TargetsLose(p: Position, c: Candle)
  {
    var hits := HitTargets(p, c, Pending(p));
    !NoWorse(p.side, p.stopLoss * |hits| as real, Sum(hits))
  }

  lemma NoClashNoDifference(p: Position, c: Candle)
    requires !Clash(p, c)
    ensures ApplyCandle(p, c, CONSERVATIVE) == ApplyCandle(p, c, OPTIMISTIC)
  {
    hide TakeTargets, CloseFraction, HitTargets;
  }

  /** How a clash ends under either policy, in terms of the exit notional. */
  lemma ClashEnds(p: Position, c: Candle, cfg: Config) returns (q: Position)
    requires Sound(p, cfg) && Clash(p, c)
    ensures q == TakeTargets(p, c.closeTime, HitTargets(p, c, Pending(p))) && Accounts(q) && SameDeal(p, q)
    ensures var con := ApplyCandle(p, c, CONSERVATIVE);
            var opt := ApplyCandle(p, c, OPTIMISTIC);
            var rate := FeeRate(p.feeRatePct);
            && con.status.Some? && opt.status.Some?
            && (forall s :: Finalize(con.position, s).pnl == NetOf(p.side, Cost(p), IfStopped(p), rate))
            && (forall s :: Finalize(opt.position, s).pnl == NetOf(p.side, Cost(p), IfStopped(q), rate))
  {
    hide Accounts, CloseFraction, TakeTargets, OnLadder, HitTargets, HitStop, Finalize, NetOf, IfStopped, Cost;
    var k := CandleTakesNearest(p, c);
    TakeNearest(p, c.closeTime, k);
    q := TakeTargets(p, c.closeTime, HitTargets(p, c, Pending(p)));
    StopKeepsValue(p, c.closeTime);
    var con := ApplyCandle(p, c, CONSERVATIVE).position;
    forall s
      ensures Finalize(con, s).pnl == NetOf(p.side, Cost(p), IfStopped(p), FeeRate(p.feeRatePct))
    {
      FinalNet(con, s);
      SameCost(p, con);
    }
    AccountsBound(q);
    if 0.0 < q.remaining {
      StopKeepsValue(q, c.closeTime);
    } else {
      NothingLeft(q);
    }
    var opt := ApplyCandle(p, c, OPTIMISTIC).position;
    forall s
      ensures Finalize(opt, s).pnl == NetOf(p.side, Cost(p), IfStopped(q), FeeRate(p.feeRatePct))
    {
      FinalNet(opt, s);
      SameCost(p, opt);
    }
  }

  lemma NothingLeft(p: Position)
    requires p.remaining == 0.0
    ensures p.exitNotional == IfStopped(p)
  {
  }

  /** On a clash both policies end the position, and the optimist nets at least as much exactly when the touched
      targets do not lose against the stop. */
  lemma {:induction false} ClashExactly(p: Position, c: Candle, cfg: Config)
    requires Sound(p, cfg) && Clash(p, c) && Relevant(p, c)
    ensures Face(p, c, CONSERVATIVE).Over? && Face(p, c, OPTIMISTIC).Over?
    ensures Face(p, c, CONSERVATIVE).trade.pnl <= Face(p, c, OPTIMISTIC).trade.pnl <==> !TargetsLose(p, c)
  {
    hide Accounts, ApplyCandle, TakeTargets, HitTargets, HitStop, Finalize, NetOf, IfStopped, Cost, OnLadder, GainOf,
      Pending;
    var hits := HitTargets(p, c, Pending(p));
    var k := CandleTakesNearest(p, c);
    var n := |Pending(p)| as real;
    var share := p.remaining / n;
    assert share * n == p.remaining;
    SharePositive(p.remaining, n);
    var q := ClashEnds(p, c, cfg);
    NearestMoveValue(p, c.closeTime, k, share);
    SignOfGain(p.side, share, hits, p.stopLoss);
    NetIsMonotone(p.side, Cost(p), IfStopped(p), IfStopped(q), FeeRate(p.feeRatePct));
  }

  lemma SharePositive(held: real, n: real)
    requires 0.0 < held && 0.0 < n
    ensures 0.0 < held / n
  {
  }

  lemma SignOfGain(side: Side, share: real, prices: seq<real>, stop: real)
    requires 0.0 < share
    ensures NoWorse(side, 0.0, GainOf(share, prices, stop)) <==> NoWorse(side, stop * |prices| as real, Sum(prices))
  {
    SignOfProduct(share, Sum(prices) - stop * |prices| as real);
  }

  lemma SignOfProduct(a: real, b: real)
    requires 0.0 < a
    ensures (0.0 <= a * b <==> 0.0 <= b) && (a * b <= 0.0 <==> b <= 0.0)
  {
    if 0.0 < b { assert 0.0 < a * b; }
    if b < 0.0 { assert 0.0 < a * -b; assert a * -b == -(a * b); }
  }

  /** With one target touched, it alone decides against the stop. */
  lemma OneTargetDecides(p: Position, c: Candle, tp: real)
    requires HitTargets(p, c, Pending(p)) == [tp]
    ensures TargetsLose(p, c) <==> !NoWorse(p.side, p.stopLoss, tp)
  {
    assert Sum([tp]) == tp;
  }

  /** The stop has not been moved past the entry price. */
  predicate Steady(p: Position) { NoWorse(p.side, p.stopLoss, p.entryPrice) }

  lemma {:induction false} HitTargetsBeyond(p: Position, c: Candle, tps: seq<real>)
    requires forall i :: 0 <= i < |tps| ==> Beyond(p.side, p.entryPrice, tps[i])
    ensures forall i :: 0 <= i < |HitTargets(p, c, tps)| ==> Beyond(p.side, p.entryPrice, HitTargets(p, c, tps)[i])
    decreases |tps|
  {
    if tps != [] {
      HitTargetsBeyond(p, c, tps[1..]);
    }
  }

  lemma {:induction false} SumNoWorse(side: Side, stop: real, prices: seq<real>)
    requires forall i :: 0 <= i < |prices| ==> NoWorse(side, stop, prices[i])
    ensures NoWorse(side, stop * |prices| as real, Sum(prices))
  {
    if prices != [] {
      SumNoWorse(side, stop, prices[1..]);
      OneMoreStop(stop, |prices[1..]|);
    }
  }

  lemma OneMoreStop(stop: real, n: nat)
    ensures stop * (n + 1) as real == stop * n as real + stop
  {
    assert (n + 1) as real == n as real + 1.0;
  }

  /** Behind the entry price a stop never loses to targets: they all lie beyond it. */
  lemma SteadyNeverLoses(p: Position, c: Candle, cfg: Config)
    requires Sound(p, cfg) && Steady(p)
    ensures !TargetsLose(p, c)
  {
    hide Accounts, HitTargets;
    HitTargetsBeyond(p, c, Pending(p));
    SumNoWorse(p.side, p.stopLoss, HitTargets(p, c, Pending(p)));
  }

  /** On a clash with the stop behind entry the optimistic fill nets at least as much. */
  lemma {:induction false} ClashFavoursOptimist(p: Position, c: Candle, cfg: Config)
    requires Sound(p, cfg) && Steady(p) && Clash(p, c) && Relevant(p, c)
    ensures Face(p, c, CONSERVATIVE).Over? && Face(p, c, OPTIMISTIC).Over?
    ensures Face(p, c, CONSERVATIVE).trade.pnl <= Face(p, c, OPTIMISTIC).trade.pnl
  {
    hide Sound, Clash, TargetsLose, Face, Steady;
    ClashExactly(p, c, cfg);
    SteadyNeverLoses(p, c, cfg);
  }

  // ---- a sweep ----

  /** Where a sweep stops depends on time alone. */
  lemma {:induction false} SameIndex(a: seq<Position>, b: seq<Position>, candles: seq<Candle>, i: nat,
                                     stopAt: Option<int>, x: FillPolicy, y: FillPolicy)
    requires i <= |candles|
    ensures Sweep(a, candles, i, stopAt, x).index == Sweep(b, candles, i, stopAt, y).index
    decreases |candles| - i
  {
    hide StepCandle;
    if i < |candles| && !Stops(candles[i], stopAt) {
      SameIndex(StepCandle(a, candles[i], x).open, StepCandle(b, candles[i], y).open, candles, i + 1, stopAt, x, y);
    }
  }

  /** Some candle of a conservative sweep touches the stop and targets that lose against it. */
  predicate SweepLoses(open: seq<Position>, candles: seq<Candle>, i: nat, stopAt: Option<int>)
    requires i <= |candles|
    decreases |candles| - i
  {
    i < |candles| && !Stops(candles[i], stopAt) &&
    ((exists j :: 0 <= j < |open| && Loses(open[j], candles[i])) ||
     SweepLoses(StepCandle(open, candles[i], CONSERVATIVE).open, candles, i + 1, stopAt))
  }

  predicate Loses(p: Position, c: Candle) { Relevant(p, c) && Clash(p, c) && TargetsLose(p, c) }

  /** At most one position, and that one sound. */
  ghost predicate Alone(open: seq<Position>, cfg: Config)
  {
    |open| <= 1 && forall i :: 0 <= i < |open| ==> Sound(open[i], cfg)
  }

  /** The same outcome, or both closed with the optimist no worse exactly when nothing was lost. */
  ghost predicate Parted(conOpen: seq<Position>, conTrades: seq<Trade>, optOpen: seq<Position>, optTrades: seq<Trade>,
                         lost: bool)
  {
    || (conOpen == optOpen && conTrades == optTrades && !lost)
    || (conOpen == [] && optOpen == [] && (TotalPnl(conTrades) <= TotalPnl(optTrades) <==> !lost))
  }

  lemma OneTrade(t: Trade)
    ensures TotalPnl([t]) == t.pnl
  {
    assert Pnls([t]) == [t.pnl];
    assert Sum([t.pnl]) == t.pnl;
  }

  lemma StepOfOne(p: Position, c: Candle, policy: FillPolicy)
    ensures StepCandle([p], c, policy) ==
            match Face(p, c, policy) case Alive(q) => Effect([q], []) case Over(t) => Effect([], [t])
  {
    hide Face;
    assert StepCandle([p][1..], c, policy) == Effect([], []);
  }

  lemma NothingSteps(c: Candle)
    ensures forall policy :: StepCandle([], c, policy) == Effect([], [])
  {
  }

  lemma FaceSound(p: Position, c: Candle, policy: FillPolicy, cfg: Config)
    requires Sound(p, cfg) && Face(p, c, policy).Alive?
    ensures Sound(Face(p, c, policy).position, cfg)
  {
    hide Sound, ApplyCandle;
    CandleKeepsSound(p, c, policy, cfg);
  }

  lemma FaceCases(p: Position, c: Candle, cfg: Config)
    requires Sound(p, cfg)
    ensures var con, opt := Face(p, c, CONSERVATIVE), Face(p, c, OPTIMISTIC);
            || (con == opt && !Loses(p, c))
            || (con.Over? && opt.Over? && (con.trade.pnl <= opt.trade.pnl <==> !Loses(p, c)))
  {
    hide Sound, ApplyCandle, Clash, TargetsLose;
    if Relevant(p, c) {
      if Clash(p, c) {
        ClashExactly(p, c, cfg);
      } else {
        NoClashNoDifference(p, c);
      }
    }
  }

  lemma StepParts(open: seq<Position>, c: Candle, cfg: Config)
    requires Alone(open, cfg)
    ensures var con := StepCandle(open, c, CONSERVATIVE);
            var opt := StepCandle(open, c, OPTIMISTIC);
            && Parted(con.open, con.trades, opt.open, opt.trades, exists j :: 0 <= j < |open| && Loses(open[j], c))
            && Alone(con.open, cfg)
  {
    hide Face, Sound, Loses, ApplyCandle, TotalPnl, StepCandle;
    if open == [] {
      NothingSteps(c);
    } else {
      var p := open[0];
      assert open == [p];
      StepOfOne(p, c, CONSERVATIVE);
      StepOfOne(p, c, OPTIMISTIC);
      FaceCases(p, c, cfg);
      assert (exists j :: 0 <= j < |open| && Loses(open[j], c)) <==> Loses(p, c) by {
        if Loses(p, c) { assert Loses(open[0], c); }
      }
      if Face(p, c, CONSERVATIVE).Alive? {
        FaceSound(p, c, CONSERVATIVE, cfg);
      }
      if Face(p, c, CONSERVATIVE) != Face(p, c, OPTIMISTIC) {
        OneTrade(Face(p, c, CONSERVATIVE).trade);
        OneTrade(Face(p, c, OPTIMISTIC).trade);
      }
    }
  }

  lemma {:induction false} SweepParts(open: seq<Position>, candles: seq<Candle>, i: nat, stopAt: Option<int>,
        cfg: Config)
    requires i <= |candles| && Alone(open, cfg)
    ensures var con := Sweep(open, candles, i, stopAt, CONSERVATIVE);
            var opt := Sweep(open, candles, i, stopAt, OPTIMISTIC);
            && Parted(con.open, con.resolved, opt.open, opt.resolved, SweepLoses(open, candles, i, stopAt))
            && Alone(con.open, cfg)
    decreases |candles| - i
  {
    hide StepCandle, Sound, Loses, TotalPnl;
    if i < |candles| && !Stops(candles[i], stopAt) {
      var con := StepCandle(open, candles[i], CONSERVATIVE);
      var opt := StepCandle(open, candles[i], OPTIMISTIC);
      StepParts(open, candles[i], cfg);
      SweepParts(con.open, candles, i + 1, stopAt, cfg);
      if con.open == opt.open && con.trades == opt.trades {
        var x := Sweep(con.open, candles, i + 1, stopAt, CONSERVATIVE);
        var y := Sweep(con.open, candles, i + 1, stopAt, OPTIMISTIC);
        TotalPnlAppend(con.trades, x.resolved);
        TotalPnlAppend(con.trades, y.resolved);
        if con.open == [] { NothingLost(candles, i + 1, stopAt); }
      } else {
        NothingLost(candles, i + 1, stopAt);
        EmptySweeps(candles, i + 1, stopAt, CONSERVATIVE);
        EmptySweeps(candles, i + 1, stopAt, OPTIMISTIC);
        assert con.trades + [] == con.trades && opt.trades + [] == opt.trades;
      }
    }
  }

  lemma {:induction false} NothingLost(candles: seq<Candle>, i: nat, stopAt: Option<int>)
    requires i <= |candles|
    ensures !SweepLoses([], candles, i, stopAt)
    decreases |candles| - i
  {
    if i < |candles| && !Stops(candles[i], stopAt) {
      NothingSteps(candles[i]);
      NothingLost(candles, i + 1, stopAt);
    }
  }

  // ---- a run ----

  /** Event k opens the only signal. */
  ghost predicate OnlyOpen(events: seq<Event>, k: nat)
  {
    k < |events| && Opens(events[k]) && forall j :: 0 <= j < |events| && j != k ==> !Opens(events[j])
  }

  /** In the first n events of the conservative run some candle met targets that lose against the stop. */
  predicate LostBy(events: seq<Event>, n: nat, candles: seq<Candle>, cfg: Config)
    requires n <= |events|
  {
    n != 0 && (LostBy(events, n - 1, candles, cfg) || LostAt(events, n - 1, candles, cfg))
  }

  /** The sweep before event n, or to the end of the candles, met such targets. */
  predicate LostAt(events: seq<Event>, n: nat, candles: seq<Candle>, cfg: Config)
    requires n <= |events|
  {
    var b := BookAfter(events, n, candles, cfg, CONSERVATIVE);
    SweepLoses(b.open, candles, b.cursor, if n < |events| then Some(events[n].timestamp) else None)
  }

  /** Somewhere in the conservative run a candle touched the stop and targets that lose against it. */
  predicate RunLoses(events: seq<Event>, candles: seq<Candle>, cfg: Config)
  {
    LostBy(events, |events|, candles, cfg) || LostAt(events, |events|, candles, cfg)
  }

  /** The same books, or both signals are closed with no more money here exactly when nothing was lost. */
  ghost predicate BooksPart(con: Book, opt: Book, lost: bool)
  {
    || (con == opt && !lost)
    || (con.open == [] && opt.open == [] && con.cursor == opt.cursor && (con.balance <= opt.balance <==> !lost))
  }

  /** The books of one signal around event k, when nothing, or something, has been lost. */
  ghost predicate OneSignal(con: Book, opt: Book, k: nat, n: nat, cfg: Config, lost: bool)
  {
    BooksPart(con, opt, lost) && Alone(con.open, cfg) && (n <= k ==> con == opt && con.open == [])
  }

  lemma SweepKeepsOneSignal(con: Book, opt: Book, k: nat, n: nat, candles: seq<Candle>, stopAt: Option<int>,
                            cfg: Config, lost: bool)
    requires con.cursor <= |candles| && opt.cursor <= |candles| && OneSignal(con, opt, k, n, cfg, lost)
    ensures OneSignal(SweepBook(con, candles, stopAt, CONSERVATIVE), SweepBook(opt, candles, stopAt, OPTIMISTIC),
                      k, n, cfg, lost || SweepLoses(con.open, candles, con.cursor, stopAt))
  {
    hide Sweep, Sound, TotalPnl, SweepLoses;
    SweepParts(con.open, candles, con.cursor, stopAt, cfg);
    SameIndex(con.open, opt.open, candles, con.cursor, stopAt, CONSERVATIVE, OPTIMISTIC);
    NoTradesNoMoney();
    assert con.trades + [] == con.trades;
    if con.open == [] {
      NothingLost(candles, con.cursor, stopAt);
      EmptySweeps(candles, con.cursor, stopAt, CONSERVATIVE);
      EmptySweeps(candles, con.cursor, stopAt, OPTIMISTIC);
    }
  }

  lemma NoTradesNoMoney()
    ensures TotalPnl([]) == 0.0
  {
  }

  /** An event after the signal has closed does nothing, and one before it has opened finds nothing. */
  lemma EventOnEmpty(e: Event, balance: real, candles: seq<Candle>, cfg: Config)
    requires !Opens(e)
    ensures ApplyEvent(e, [], balance, candles, cfg) == Effect([], [])
  {
  }

  lemma EventKeepsAlone(e: Event, open: seq<Position>, balance: real, candles: seq<Candle>, cfg: Config)
    requires Alone(open, cfg) && (Opens(e) ==> open == [])
    ensures Alone(ApplyEvent(e, open, balance, candles, cfg).open, cfg)
  {
    hide Decide, Follow, CloseAll, Sound;
    EventSound(e, open, balance, candles, cfg);
  }

  lemma EventKeepsOneSignal(con: Book, opt: Book, events: seq<Event>, k: nat, n: nat, candles: seq<Candle>, cfg: Config,
                            lost: bool)
    requires OnlyOpen(events, k) && n < |events| && OneSignal(con, opt, k, n, cfg, lost)
    ensures OneSignal(EventBook(con, events[n], candles, cfg), EventBook(opt, events[n], candles, cfg),
                      k, n + 1, cfg, lost)
  {
    hide ApplyEvent, Sound, TotalPnl;
    var e := events[n];
    if !Opens(e) && con.open == [] {
      EventOnEmpty(e, con.balance, candles, cfg);
      EventOnEmpty(e, opt.balance, candles, cfg);
      NoTradesNoMoney();
      assert con.trades + [] == con.trades && opt.trades + [] == opt.trades;
    } else {
      EventKeepsAlone(e, con.open, con.balance, candles, cfg);
    }
  }

  /** Both runs after any number of events. */
  lemma {:induction false} RunsPart(events: seq<Event>, k: nat, n: nat, candles: seq<Candle>, cfg: Config)
    requires OnlyOpen(events, k) && n <= |events|
    ensures OneSignal(BookAfter(events, n, candles, cfg, CONSERVATIVE), BookAfter(events, n, candles, cfg, OPTIMISTIC),
                      k, n, cfg, LostBy(events, n, candles, cfg))
    decreases n
  {
    hide SweepBook, EventBook, OneSignal, SweepLoses;
    if n == 0 {
      StartOneSignal(k, cfg);
    } else {
      var con := BookAfter(events, n - 1, candles, cfg, CONSERVATIVE);
      var opt := BookAfter(events, n - 1, candles, cfg, OPTIMISTIC);
      var stopAt := Some(events[n - 1].timestamp);
      RunsPart(events, k, n - 1, candles, cfg);
      SweepKeepsOneSignal(con, opt, k, n - 1, candles, stopAt, cfg, LostBy(events, n - 1, candles, cfg));
      EventKeepsOneSignal(SweepBook(con, candles, stopAt, CONSERVATIVE), SweepBook(opt, candles, stopAt, OPTIMISTIC),
                          events, k, n - 1, candles, cfg, LostBy(events, n, candles, cfg));
    }
  }

  lemma StartOneSignal(k: nat, cfg: Config)
    ensures var b := Book([], [], cfg.initialBalance, 0); OneSignal(b, b, k, 0, cfg, false)
  {
  }

  /** Over a whole run of one signal the optimistic final balance is at least the conservative one if and only if
      no candle of the conservative run touches the stop and targets that lose against it. */
  lemma {:induction false} OptimistDominatesExactly(events: seq<Event>, k: nat, candles: seq<Candle>, cfg: Config)
    requires OnlyOpen(events, k)
    ensures RunSorted(events, candles, cfg, CONSERVATIVE).balance <= RunSorted(events, candles, cfg, OPTIMISTIC).balance
        <==> !RunLoses(events, candles, cfg)
  {
    hide SweepBook, EndTrades, BookAfter, SweepLoses, LostBy;
    var n := |events|;
    RunsPart(events, k, n, candles, cfg);
    var con := BookAfter(events, n, candles, cfg, CONSERVATIVE);
    var opt := BookAfter(events, n, candles, cfg, OPTIMISTIC);
    SweepKeepsOneSignal(con, opt, k, n, candles, None, cfg, LostBy(events, n, candles, cfg));
    var x, y := SweptBook(events, candles, cfg, CONSERVATIVE), SweptBook(events, candles, cfg, OPTIMISTIC);
    if x != y {
      NothingEnds(candles);
      NoTradesNoMoney();
    }
  }

  lemma NothingEnds(candles: seq<Candle>)
    ensures EndTrades([], candles) == []
  {
  }

  // ---- a run that the optimist loses ----

  /** A long signal with one target at 110, opened at 100, whose stop is then moved to 120. */
  const TRAILING: seq<Event> := [
    Event(0, OPEN, "a", ParsedSignal(OPEN, Some(Some("M")), Long, MARKET, None, None, Some(90.0), [110.0], None),
          None, None, false, false, None),
    Event(1, UPDATE_SL, "b", ParsedSignal(UPDATE_SL, None, Long, MARKET, None, None, Some(120.0), [], None),
          Some("a"), None, false, false, None)]

  const SPIKE: Candle := Bar(Some("M"), 0, 10, 100.0, 125.0, 95.0, 100.0)

  const TRAILED_POSITION := Position("a", Some("M"), Long, 100.0, 90.0, [110.0], 1.0, 1.0, 0, 0.0, 0.0, None, None, 0,
                                     false, 1000.0, None, 1.0, 0.0, 0.0)

  lemma OneTargetKept()
    ensures Sanitize(Long, 100.0, 90.0, [110.0]) == [110.0]
  {
    assert KeepNew(Long, 100.0, 90.0, [110.0], []) == KeepNew(Long, 100.0, 90.0, [], [110.0]);
    assert [110.0][1..] == [];
  }

  lemma TrailedOpens()
    ensures Opens(TRAILING[0])
    ensures Decide(TRAILING[0], Some("M"), [], 1000.0, [SPIKE], PLAIN) == Filled(TRAILED_POSITION)
  {
    hide Sanitize, OrderQuantity;
    OneTargetKept();
    assert FindEntry(TRAILING[0].parsed, Some("M"), 0, [SPIKE]) == Some(Fill(100.0, 0));
    PlainOrder(TRAILING[0]);
  }

  lemma TrailedMoves()
    ensures ApplyEvent(TRAILING[1], [TRAILED_POSITION], 1000.0, [SPIKE], PLAIN)
         == Effect([TRAILED_POSITION.(stopLoss := 120.0)], [])
  {
    hide Sanitize;
    assert [TRAILED_POSITION][0].signalId == "a";
  }

  lemma TrailedLoses()
    ensures Loses(TRAILED_POSITION.(stopLoss := 120.0), SPIKE)
  {
    var p := TRAILED_POSITION.(stopLoss := 120.0);
    assert [110.0][1..] == [] && HitTargets(p, SPIKE, []) == [];
    assert HitTargets(p, SPIKE, [110.0]) == [110.0];
    OneTargetDecides(p, SPIKE, 110.0);
  }

  /** With the stop trailed past its target the run of this signal ends better under the conservative policy. */
  lemma TrailedStopReverses()
    ensures OnlyOpen(TRAILING, 0)
    ensures RunSorted(TRAILING, [SPIKE], PLAIN, OPTIMISTIC).balance
          < RunSorted(TRAILING, [SPIKE], PLAIN, CONSERVATIVE).balance
  {
    hide Decide, ApplyEvent, RunSorted, Loses, StepCandle;
    var b0 := Book([], [], 1000.0, 0);
    assert SweepBook(b0, [SPIKE], Some(0), CONSERVATIVE) == b0 by { NoTradesNoMoney(); }
    TrailedOpens();
    var b1 := b0.(open := [TRAILED_POSITION]);
    assert BookAfter(TRAILING, 1, [SPIKE], PLAIN, CONSERVATIVE) == b1 by { NoTradesNoMoney(); OpensIntoEmpty(); }
    assert SweepBook(b1, [SPIKE], Some(1), CONSERVATIVE) == b1 by { NoTradesNoMoney(); }
    TrailedMoves();
    var p := TRAILED_POSITION.(stopLoss := 120.0);
    var b2 := b0.(open := [p]);
    assert BookAfter(TRAILING, 2, [SPIKE], PLAIN, CONSERVATIVE) == b2 by { NoTradesNoMoney(); }
    TrailedLoses();
    assert Loses(b2.open[0], [SPIKE][0]);
    assert LostAt(TRAILING, 2, [SPIKE], PLAIN);
    OptimistDominatesExactly(TRAILING, 0, [SPIKE], PLAIN);
  }

  lemma OpensIntoEmpty()
    ensures ApplyEvent(TRAILING[0], [], 1000.0, [SPIKE], PLAIN) == Effect([TRAILED_POSITION], [])
  {
    hide Decide;
    TrailedOpens();
  }

  // ---- a stop that stays behind entry ----

  /** Whenever an event has been handled, no open position has its stop past entry. */
  ghost predicate StaysBehind(events: seq<Event>, candles: seq<Candle>, cfg: Config)
  {
    forall n :: 0 <= n <= |events| ==> AllSteady(BookAfter(events, n, candles, cfg, CONSERVATIVE).open)
  }

  ghost predicate AllSteady(open: seq<Position>) { forall i :: 0 <= i < |open| ==> Steady(open[i]) }

  lemma StopStays(p: Position, at: int, tp: real)
    ensures SameDeal(p, TakeTarget(p, at, tp)) && TakeTarget(p, at, tp).stopLoss == p.stopLoss
  {
  }

  lemma {:induction false} TargetsKeepStop(p: Position, at: int, tps: seq<real>)
    ensures TakeTargets(p, at, tps).stopLoss == p.stopLoss
    decreases |tps|
  {
    hide TakeTarget;
    if tps != [] && 0.0 < p.remaining {
      StopStays(p, at, tps[0]);
      TargetsKeepStop(TakeTarget(p, at, tps[0]), at, tps[1..]);
    }
  }

  lemma CandleKeepsStop(p: Position, c: Candle, policy: FillPolicy)
    ensures ApplyCandle(p, c, policy).status.None? ==> ApplyCandle(p, c, policy).position.stopLoss == p.stopLoss
  {
    hide TakeTargets, CloseFraction, HitTargets;
    TargetsKeepStop(p, c.closeTime, HitTargets(p, c, Pending(p)));
  }

  lemma {:induction false} StepKeepsSteady(open: seq<Position>, c: Candle, policy: FillPolicy)
    requires AllSteady(open)
    ensures AllSteady(StepCandle(open, c, policy).open)
    decreases |open|
  {
    hide ApplyCandle;
    if open != [] {
      CandleKeepsStop(open[0], c, policy);
      StepKeepsSteady(open[1..], c, policy);
    }
  }

  lemma {:induction false} SteadySweepLosesNothing(open: seq<Position>, candles: seq<Candle>, i: nat,
                                                   stopAt: Option<int>, cfg: Config)
    requires i <= |candles| && AllSound(open, cfg) && AllSteady(open)
    ensures !SweepLoses(open, candles, i, stopAt)
    ensures AllSteady(Sweep(open, candles, i, stopAt, CONSERVATIVE).open)
    decreases |candles| - i
  {
    hide StepCandle, Sound, Steady, TargetsLose;
    if i < |candles| && !Stops(candles[i], stopAt) {
      var c := candles[i];
      forall j | 0 <= j < |open|
        ensures !Loses(open[j], c)
      {
        SteadyNeverLoses(open[j], c, cfg);
      }
      StepKeepsSteady(open, c, CONSERVATIVE);
      StepSound(open, c, CONSERVATIVE, cfg);
      SteadySweepLosesNothing(StepCandle(open, c, CONSERVATIVE).open, candles, i + 1, stopAt, cfg);
    }
  }

  lemma {:induction false} SteadyRunLosesNothing(events: seq<Event>, n: nat, candles: seq<Candle>, cfg: Config)
    requires n <= |events| && StaysBehind(events, candles, cfg)
    ensures !LostBy(events, n, candles, cfg) && !LostAt(events, n, candles, cfg)
    decreases n
  {
    hide BookAfter, SweepLoses, Sound, Steady, TradeAddsUp;
    var b := BookAfter(events, n, candles, cfg, CONSERVATIVE);
    ReachableSound(events, n, candles, cfg, CONSERVATIVE);
    SteadySweepLosesNothing(b.open, candles, b.cursor, if n < |events| then Some(events[n].timestamp) else None, cfg);
    if n != 0 {
      SteadyRunLosesNothing(events, n - 1, candles, cfg);
    }
  }

  /** A run of one signal whose stop never stands past entry: the optimist does no worse. */
  lemma {:induction false} OptimistDominates(events: seq<Event>, k: nat, candles: seq<Candle>, cfg: Config)
    requires OnlyOpen(events, k) && StaysBehind(events, candles, cfg)
    ensures RunSorted(events, candles, cfg, CONSERVATIVE).balance <= RunSorted(events, candles, cfg, OPTIMISTIC).balance
  {
    hide RunSorted, StaysBehind, LostBy, LostAt;
    SteadyRunLosesNothing(events, |events|, candles, cfg);
    OptimistDominatesExactly(events, k, candles, cfg);
  }

  /** No stop in the event list, initial or updated, is on the profitable side of the entry price. */
  ghost predicate StopsBehind(events: seq<Event>, k: nat, candles: seq<Candle>)
    requires k < |events| && Opens(events[k])
  {
    var s := events[k].parsed;
    var fill := FindEntry(s, s.symbol.value, events[k].timestamp, candles);
    fill.Some? ==> forall j :: 0 <= j < |events| && HandlesStop(events[j].parsed.action)
                               && events[j].parsed.stopLoss.Some? ==>
      NoWorse(s.side, events[j].parsed.stopLoss.value, fill.value.price)
  }

  /** The position is the one that event k opened. */
  ghost predicate OfEvent(p: Position, e: Event, candles: seq<Candle>)
    requires Opens(e)
  {
    var fill := FindEntry(e.parsed, e.parsed.symbol.value, e.timestamp, candles);
    fill.Some? && p.entryPrice == fill.value.price && p.side == e.parsed.side
  }

  ghost predicate AllOf(open: seq<Position>, e: Event, candles: seq<Candle>)
    requires Opens(e)
  {
    forall i :: 0 <= i < |open| ==> OfEvent(open[i], e, candles)
  }

  lemma {:induction false} SweepKeepsDeal(open: seq<Position>, candles: seq<Candle>, i: nat, stopAt: Option<int>,
                                          policy: FillPolicy, e: Event, all: seq<Candle>)
    requires i <= |candles| && Opens(e) && AllOf(open, e, all)
    ensures AllOf(Sweep(open, candles, i, stopAt, policy).open, e, all)
    decreases |candles| - i
  {
    hide StepCandle, OfEvent;
    if i < |candles| && !Stops(candles[i], stopAt) {
      StepKeepsDeal(open, candles[i], policy, e, all);
      SweepKeepsDeal(StepCandle(open, candles[i], policy).open, candles, i + 1, stopAt, policy, e, all);
    }
  }

  lemma {:induction false} StepKeepsDeal(open: seq<Position>, c: Candle, policy: FillPolicy, e: Event, all: seq<Candle>)
    requires Opens(e) && AllOf(open, e, all)
    ensures AllOf(StepCandle(open, c, policy).open, e, all)
    decreases |open|
  {
    hide Face, FindEntry;
    if open != [] {
      StepKeepsDeal(open[1..], c, policy, e, all);
    }
  }

  /** A synthetic or accepted explicit stop is on the losing side. */
  lemma OpenedSteady(e: Event, market: MarketKey, open: seq<Position>, balance: real, candles: seq<Candle>, cfg: Config)
    ensures var d := Decide(e, market, open, balance, candles, cfg); d.Filled? ==> Steady(d.position)
  {
    hide FindEntry, OrderQuantity, CapSynthetic, CapExplicit, Sanitize;
    match Decide(e, market, open, balance, candles, cfg)
    case Refused =>
    case Filled(p) =>
      var fill := FindEntry(e.parsed, market, e.timestamp, candles).value;
      var quantity := OrderQuantity(e, open, balance, fill.price, cfg).value;
      DefaultStopSide(e.parsed.side, fill.price, cfg);
      CapKeepsSide(e.parsed.side, fill.price, DefaultStop(e.parsed.side, fill.price, cfg), quantity, balance,
                   cfg.feeRatePct, cfg.syntheticMaxLossPct);
  }

  lemma CapKeepsSide(side: Side, entry: Price, stop: real, quantity: real, balance: real,
                     feeRatePct: FeePct, maxLossPct: real)
    requires NoWorse(side, stop, entry)
    ensures NoWorse(side, CapSynthetic(side, entry, stop, quantity, balance, feeRatePct, maxLossPct).stop, entry)
  {
    hide FeeSafeQuantity, RoundTripFees, LossAt;
    var budget := RiskBudget(balance, maxLossPct);
    if 0.0 < quantity && 0.0 < balance && 0.0 < budget {
      var rate := FeeRate(feeRatePct);
      var q := FeeSafeQuantity(entry, quantity, budget, rate);
      FeeSafe(entry, quantity, budget, rate);
      CapDistanceFits(side, entry, stop, q, rate, budget - RoundTripFees(entry, q, rate));
    }
  }

  lemma UpdateSteady(p: Position, e: Event, cfg: Config)
    requires Steady(p)
    requires HandlesStop(e.parsed.action) && e.parsed.stopLoss.Some? ==>
               NoWorse(p.side, e.parsed.stopLoss.value, p.entryPrice)
    ensures Steady(Update(p, e, cfg))
  {
    hide UnsafeStop, NewTargets;
  }

  lemma FollowSteady(p: Position, e: Event, candles: seq<Candle>, cfg: Config)
    requires Steady(p)
    requires HandlesStop(e.parsed.action) && e.parsed.stopLoss.Some? ==>
               NoWorse(p.side, e.parsed.stopLoss.value, p.entryPrice)
    ensures var r := Follow(p, e, candles, cfg); r.Keep? ==> Steady(r.position)
  {
    hide Update, CloseFraction, CloseRemaining, Finalize;
    UpdateSteady(p, e, cfg);
    CloseTouches(p, e.timestamp, ManualPrice(p, e.timestamp, candles), RequestedFraction(e));
  }

  lemma DecidedDeal(e: Event, open: seq<Position>, balance: real, candles: seq<Candle>, cfg: Config)
    requires Opens(e)
    ensures var d := Decide(e, e.parsed.symbol.value, open, balance, candles, cfg);
            d.Filled? ==> OfEvent(d.position, e, candles)
  {
    hide FindEntry, OrderQuantity, Protect, Sanitize;
  }

  lemma EventKeepsBehind(e: Event, open: seq<Position>, balance: real, candles: seq<Candle>, cfg: Config,
                         opening: Event)
    requires Opens(opening) && AllSteady(open) && AllOf(open, opening, candles)
    requires Opens(e) ==> e == opening
    requires forall i :: 0 <= i < |open| && HandlesStop(e.parsed.action) && e.parsed.stopLoss.Some? ==>
               NoWorse(open[i].side, e.parsed.stopLoss.value, open[i].entryPrice)
    ensures var r := ApplyEvent(e, open, balance, candles, cfg);
            AllSteady(r.open) && AllOf(r.open, opening, candles)
  {
    hide Decide, Follow, CloseAll, Steady, FindEntry;
    if Opens(e) {
      OpenedSteady(e, e.parsed.symbol.value, open, balance, candles, cfg);
      DecidedDeal(e, open, balance, candles, cfg);
    } else if e.relatedId.Some? && Holds(open, e.relatedId.value) {
      var i := IndexOf(open, e.relatedId.value);
      FollowSteady(open[i], e, candles, cfg);
    }
  }

  /** When no stop in the event list is past the entry price, none ever stands there. */
  lemma {:induction false} ListedStopsStayBehind(events: seq<Event>, k: nat, n: nat, candles: seq<Candle>, cfg: Config)
    requires OnlyOpen(events, k) && n <= |events| && StopsBehind(events, k, candles)
    ensures var b := BookAfter(events, n, candles, cfg, CONSERVATIVE);
            AllSteady(b.open) && AllOf(b.open, events[k], candles)
    decreases n
  {
    hide Sweep, ApplyEvent, Sound, Steady, SweepLoses, TradeAddsUp, FindEntry;
    if n != 0 {
      var b := BookAfter(events, n - 1, candles, cfg, CONSERVATIVE);
      var stopAt := Some(events[n - 1].timestamp);
      ListedStopsStayBehind(events, k, n - 1, candles, cfg);
      ReachableSound(events, n - 1, candles, cfg, CONSERVATIVE);
      SteadySweepLosesNothing(b.open, candles, b.cursor, stopAt, cfg);
      SweepKeepsDeal(b.open, candles, b.cursor, stopAt, CONSERVATIVE, events[k], candles);
      var s := SweepBook(b, candles, stopAt, CONSERVATIVE);
      EventKeepsBehind(events[n - 1], s.open, s.balance, candles, cfg, events[k]);
    }
  }

  // ---- no clash, no difference, for any number of signals ----

  /** Some candle of a conservative sweep touches both the stop and a target of a position. */
  predicate SweepClashes(open: seq<Position>, candles: seq<Candle>, i: nat, stopAt: Option<int>)
    requires i <= |candles|
    decreases |candles| - i
  {
    i < |candles| && !Stops(candles[i], stopAt) &&
    ((exists j :: 0 <= j < |open| && Relevant(open[j], candles[i]) && Clash(open[j], candles[i])) ||
     SweepClashes(StepCandle(open, candles[i], CONSERVATIVE).open, candles, i + 1, stopAt))
  }

  /** No candle of the conservative run touches both. */
  ghost predicate ClashFree(events: seq<Event>, candles: seq<Candle>, cfg: Config)
  {
    forall k :: 0 <= k <= |events| ==>
      var b := BookAfter(events, k, candles, cfg, CONSERVATIVE);
      !SweepClashes(b.open, candles, b.cursor, if k < |events| then Some(events[k].timestamp) else None)
  }

  lemma {:induction false} StepAlike(open: seq<Position>, c: Candle)
    requires forall j :: 0 <= j < |open| ==> !(Relevant(open[j], c) && Clash(open[j], c))
    ensures StepCandle(open, c, CONSERVATIVE) == StepCandle(open, c, OPTIMISTIC)
    decreases |open|
  {
    hide ApplyCandle, Finalize, HitTargets;
    if open != [] {
      StepAlike(open[1..], c);
      if !Clash(open[0], c) {
        NoClashNoDifference(open[0], c);
      }
    }
  }

  lemma {:induction false} SweepAlike(open: seq<Position>, candles: seq<Candle>, i: nat, stopAt: Option<int>)
    requires i <= |candles| && !SweepClashes(open, candles, i, stopAt)
    ensures Sweep(open, candles, i, stopAt, CONSERVATIVE) == Sweep(open, candles, i, stopAt, OPTIMISTIC)
    decreases |candles| - i
  {
    hide StepCandle, Clash, Relevant;
    if i < |candles| && !Stops(candles[i], stopAt) {
      StepAlike(open, candles[i]);
      SweepAlike(StepCandle(open, candles[i], CONSERVATIVE).open, candles, i + 1, stopAt);
    }
  }

  lemma {:induction false} BooksAlike(events: seq<Event>, n: nat, candles: seq<Candle>, cfg: Config)
    requires n <= |events| && ClashFree(events, candles, cfg)
    ensures BookAfter(events, n, candles, cfg, CONSERVATIVE) == BookAfter(events, n, candles, cfg, OPTIMISTIC)
    decreases n
  {
    hide EventBook, Sweep, SweepClashes, StepCandle;
    if n != 0 {
      BooksAlike(events, n - 1, candles, cfg);
      var b := BookAfter(events, n - 1, candles, cfg, CONSERVATIVE);
      SweepAlike(b.open, candles, b.cursor, Some(events[n - 1].timestamp));
    }
  }

  /** If no candle touches both a stop and a target, the policy makes no difference at all. */
  lemma {:induction false} PolicyIrrelevant(events: seq<Event>, candles: seq<Candle>, cfg: Config)
    requires ClashFree(events, candles, cfg)
    ensures RunSorted(events, candles, cfg, CONSERVATIVE) == RunSorted(events, candles, cfg, OPTIMISTIC)
  {
    hide BookAfter, Sweep;
    var n := |events|;
    BooksAlike(events, n, candles, cfg);
    var b := BookAfter(events, n, candles, cfg, CONSERVATIVE);
    SweepAlike(b.open, candles, b.cursor, None);
  }
}
