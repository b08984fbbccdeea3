/** The loss budget of a signal that brings its own stop. */
module ExplicitStop {
  import opened Core
  import opened Market
  import opened Lookups
  import opened Positions
  import opened Sizing
  import opened Events
  import opened Replay
  import opened Ledger
  import opened NetProfit
  import opened Journeys
  import opened Risk

  lemma NetIsLoss(side: Side, entry: Price, stop: real, quantity: real, rate: real)
    ensures NetLossAtStop(side, entry, stop, quantity, rate) == Max(LossAt(side, entry, stop, quantity, rate), 0.0)
  {
    if side.Long? {
      assert (stop - entry) * quantity - (entry + stop) * quantity * rate
          == -(quantity * (entry * (1.0 + rate) - stop * (1.0 - rate)));
    } else {
      assert (entry - stop) * quantity - (entry + stop) * quantity * rate
          == -(quantity * (stop * (1.0 + rate) - entry * (1.0 - rate)));
    }
  }

  lemma LossScales(side: Side, entry: Price, stop: real, quantity: real, rate: real)
    ensures LossAt(side, entry, stop, quantity, rate) == quantity * LossAt(side, entry, stop, 1.0, rate)
  {
  }

  lemma DividedExactly(q: real, budget: real, unit: real)
    requires 0.0 < unit
    ensures q * unit <= budget <==> q <= budget / unit
  {
    var most := budget / unit;
    assert most * unit == budget;
    ScaleBothWays(q, most, unit);
  }

  /** The largest quantity: a quantity loses no more than the budget at the stop exactly when it is no larger. */
  lemma QuantityIsLargest(side: Side, entry: Price, stop: real, quantity: real, balance: real,
                          feeRatePct: FeePct, maxLossPct: real)
    requires 0.0 < stop && 0.0 < balance && 0.0 < maxLossPct && 0.0 <= quantity
    requires 0.0 < NetLossAtStop(side, entry, stop, 1.0, FeeRate(feeRatePct))
    ensures NetLossAtStop(side, entry, stop, quantity, FeeRate(feeRatePct)) <= RiskBudget(balance, maxLossPct)
        <==> quantity <= MaxQuantityForStop(side, entry, stop, balance, feeRatePct, maxLossPct)
  {
    hide NetLossAtStop, LossAt, RiskBudget, FeeRate;
    var rate := FeeRate(feeRatePct);
    BudgetPositive(balance, maxLossPct);
    NetIsLoss(side, entry, stop, 1.0, rate);
    NetIsLoss(side, entry, stop, quantity, rate);
    LossScales(side, entry, stop, quantity, rate);
    DividedExactly(quantity, RiskBudget(balance, maxLossPct), LossAt(side, entry, stop, 1.0, rate));
  }

  lemma RoundsDown(x: real)
    ensures QuantizeDown(x) <= x
  {
    var floor := (x * TICK).Floor as real;
    assert floor <= x * TICK;
    assert QuantizeDown(x) * TICK == floor;
  }

  /** The capped quantity keeps the stop, is no larger than asked for, and its loss there fits the budget. */
  lemma ExplicitFits(side: Side, entry: Price, stop: real, quantity: real, balance: real,
                     feeRatePct: FeePct, maxLossPct: real)
    ensures var q := CapExplicit(side, entry, stop, quantity, balance, feeRatePct, maxLossPct);
            0.0 < q ==> (q <= quantity
              && NetLossAtStop(side, entry, stop, q, FeeRate(feeRatePct)) <= RiskBudget(balance, maxLossPct))
  {
    hide NetLossAtStop, FeeRate, QuantizeDown, MaxQuantityForStop;
    var q := CapExplicit(side, entry, stop, quantity, balance, feeRatePct, maxLossPct);
    var most := MaxQuantityForStop(side, entry, stop, balance, feeRatePct, maxLossPct);
    RoundsDown(most);
    if 0.0 < q {
      LargestIsPositive(side, entry, stop, balance, feeRatePct, maxLossPct);
      QuantityIsLargest(side, entry, stop, q, balance, feeRatePct, maxLossPct);
    }
  }

  lemma LargestIsPositive(side: Side, entry: Price, stop: real, balance: real, feeRatePct: FeePct, maxLossPct: real)
    requires 0.0 < MaxQuantityForStop(side, entry, stop, balance, feeRatePct, maxLossPct)
    ensures 0.0 < stop && 0.0 < balance && 0.0 < maxLossPct
    ensures 0.0 < NetLossAtStop(side, entry, stop, 1.0, FeeRate(feeRatePct))
  {
    hide NetLossAtStop, FeeRate;
    if maxLossPct <= 0.0 { assert balance * 0.0 == 0.0; }
  }

  /** Where the loss meets the budget: a stop fits exactly when it is no worse than this one. */
  function Threshold(side: Side, entry: Price, quantity: real, budget: real, rate: real): real
    requires 0.0 < quantity && 0.0 <= rate < 1.0
  {
    if side.Long? then (entry * (1.0 + rate) - budget / quantity) / (1.0 - rate)
    else (entry * (1.0 - rate) + budget / quantity) / (1.0 + rate)
  }

  lemma FitsExactly(side: Side, entry: Price, stop: real, quantity: real, budget: real, rate: real)
    requires 0.0 < quantity && 0.0 <= rate < 1.0 && 0.0 <= budget
    ensures NetLossAtStop(side, entry, stop, quantity, rate) <= budget
        <==> NoWorse(side, Threshold(side, entry, quantity, budget, rate), stop)
  {
    hide NetLossAtStop, LossAt, Threshold;
    NetIsLoss(side, entry, stop, quantity, rate);
    LossScales(side, entry, stop, quantity, rate);
    DividedExactly(LossAt(side, entry, stop, 1.0, rate), budget, quantity);
    UnitLossMeets(side, entry, stop, quantity, budget, rate);
  }

  /** The loss of one unit is within its share exactly when the stop is no worse than the threshold. */
  lemma UnitLossMeets(side: Side, entry: Price, stop: real, quantity: real, budget: real, rate: real)
    requires 0.0 < quantity && 0.0 <= rate < 1.0
    ensures LossAt(side, entry, stop, 1.0, rate) <= budget / quantity
        <==> NoWorse(side, Threshold(side, entry, quantity, budget, rate), stop)
  {
    var share := budget / quantity;
    if side.Long? {
      Meets(stop, 1.0 - rate, entry * (1.0 + rate) - share);
    } else {
      Meets(stop, 1.0 + rate, entry * (1.0 - rate) + share);
    }
  }

  lemma Meets(stop: real, factor: real, total: real)
    requires 0.0 < factor
    ensures total / factor <= stop <==> total <= stop * factor
    ensures stop <= total / factor <==> stop * factor <= total
  {
    var edge := total / factor;
    assert edge * factor == total;
    ScaleBothWays(edge, stop, factor);
    ScaleBothWays(stop, edge, factor);
  }

  lemma ScaleBothWays(x: real, y: real, factor: real)
    requires 0.0 < factor
    ensures x <= y <==> x * factor <= y * factor
  {
    if x <= y {
      Scale(factor, x, y);
    } else {
      StrictScale(factor, y, x);
    }
  }

  /** The clamped stop fits the budget, is the requested one exactly when that one fits, and is otherwise the
      nearest to it that fits. */
  lemma ClampIsNearestSafe(side: Side, entry: Price, stop: real, quantity: real, balance: real,
                           feeRatePct: FeePct, maxLossPct: real)
    requires 0.0 < stop && 0.0 < quantity && 0.0 < balance
    ensures var c := ClampStop(side, entry, stop, quantity, balance, feeRatePct, maxLossPct);
            var budget, rate := RiskBudget(balance, maxLossPct), FeeRate(feeRatePct);
            && NetLossAtStop(side, entry, c, quantity, rate) <= budget
            && (c == stop <==> NetLossAtStop(side, entry, stop, quantity, rate) <= budget)
            && NoWorse(side, stop, c)
            && forall x :: NoWorse(side, stop, x) && NetLossAtStop(side, entry, x, quantity, rate) <= budget
                 ==> NoWorse(side, c, x)
  {
    hide NetLossAtStop, FeeRate;
    var c := ClampStop(side, entry, stop, quantity, balance, feeRatePct, maxLossPct);
    var budget, rate := RiskBudget(balance, maxLossPct), FeeRate(feeRatePct);
    assert 0.0 <= budget by { BudgetNotNegative(balance, maxLossPct); }
    FitsExactly(side, entry, c, quantity, budget, rate);
    FitsExactly(side, entry, stop, quantity, budget, rate);
    forall x | NoWorse(side, stop, x) && NetLossAtStop(side, entry, x, quantity, rate) <= budget
      ensures NoWorse(side, c, x)
    {
      FitsExactly(side, entry, x, quantity, budget, rate);
    }
  }

  lemma BudgetNotNegative(balance: real, maxLossPct: real)
    requires 0.0 <= balance
    ensures 0.0 <= RiskBudget(balance, maxLossPct)
  {
    Scale(balance, 0.0, Max(maxLossPct, 0.0));
  }

  /** A signal with an accepted stop of its own opens covered, and its loss there fits the budget. */
  lemma {:induction false} OpenedWithinBudget(e: Event, market: MarketKey, open: seq<Position>, balance: real,
        candles: seq<Candle>,
                           cfg: Config)
    requires e.parsed.stopLoss.Some? && cfg.maxStopLossPct.Some?
    requires Decide(e, market, open, balance, candles, cfg).Filled?
    ensures var p := Decide(e, market, open, balance, candles, cfg).position;
            && Covered(p, p.stopLoss) && p.balanceAtEntry == balance && p.stopLoss == e.parsed.stopLoss.value
            && LossAt(p.side, p.entryPrice, p.stopLoss, p.original, FeeRate(p.feeRatePct)) <=
               RiskBudget(balance, cfg.maxStopLossPct.value)
  {
    hide FindEntry, OrderQuantity, CapExplicit, Sanitize, LossAt, RiskBudget, NetLossAtStop, Amount;
    var fill := FindEntry(e.parsed, market, e.timestamp, candles).value;
    var quantity := OrderQuantity(e, open, balance, fill.price, cfg).value;
    var stop := e.parsed.stopLoss.value;
    var r := Protect(e.parsed, fill.price, quantity, balance, cfg).value;
    ExplicitFits(e.parsed.side, fill.price, stop, quantity, balance, cfg.feeRatePct, cfg.maxStopLossPct.value);
    NetIsLoss(e.parsed.side, fill.price, stop, r.quantity, FeeRate(cfg.feeRatePct));
    SanitizeIsLadder(e.parsed.side, fill.price, stop, e.parsed.takeProfits);
    var tps := Sanitize(e.parsed.side, fill.price, stop, e.parsed.takeProfits);
    forall i | 0 <= i < |tps|
      ensures 0.0 < tps[i]
    {
      assert tps[i] in tps;
    }
    NothingTaken(stop);
  }

  /** The explicit-stop bound over a run: a signal sized against its own stop loses, net of fees, at most the
      configured share of the balance at entry, as long as no event closes it at a worse price or leaves it a worse
      stop. */
  lemma {:induction false} ExplicitLossIsBounded(events: seq<Event>, k: nat, candles: seq<Candle>, cfg: Config,
        policy: FillPolicy, t: Trade)
    requires k < |events| && Opens(events[k]) && OpenedBy(events, k, candles, cfg, policy).Filled?
    requires events[k].parsed.stopLoss.Some? && cfg.maxStopLossPct.Some?
    requires KeptInRun(events, k, candles, cfg, policy, events[k].parsed.stopLoss.value)
    requires DistinctOpens(events) && EventsOrdered(events) && CandlesOrdered(candles)
    requires t in RunSorted(events, candles, cfg, policy).trades && t.signalId == events[k].signalId
    ensures -t.pnl
         <= RiskBudget(OpenedBy(events, k, candles, cfg, policy).position.balanceAtEntry, cfg.maxStopLossPct.value)
  {
    hide Covered, Decide, LossAt, RiskBudget, RunSorted, SweepBook, Kept;
    var b := SweepBook(BookAfter(events, k, candles, cfg, policy), candles, Some(events[k].timestamp), policy);
    OpenedWithinBudget(events[k], events[k].parsed.symbol.value, b.open, b.balance, candles, cfg);
    LossAtMostAtStop(events, k, candles, cfg, policy, t, events[k].parsed.stopLoss.value);
  }

  /** An update takes over a requested stop exactly when the loss of what is left fits the budget there. */
  lemma UpdateStopExactly(p: Position, e: Event, cfg: Config)
    requires 0.0 < p.remaining && 0.0 < p.balanceAtEntry && cfg.maxStopLossPct.Some?
    requires !e.moveStopToEntry && HandlesStop(e.parsed.action)
    requires e.parsed.stopLoss.Some? && 0.0 < e.parsed.stopLoss.value
    ensures var stop, updated := e.parsed.stopLoss.value, Update(p, e, cfg).stopLoss;
            && updated in {stop, p.stopLoss}
            && (updated == stop <==> (stop == p.stopLoss
                || NetLossAtStop(p.side, p.entryPrice, stop, p.remaining, FeeRate(p.feeRatePct))
                   <= RiskBudget(p.balanceAtEntry, cfg.maxStopLossPct.value)))
  {
    hide ClampStop, NetLossAtStop, RiskBudget, FeeRate, NewTargets;
    ClampIsNearestSafe(p.side, p.entryPrice, e.parsed.stopLoss.value, p.remaining, p.balanceAtEntry, p.feeRatePct,
                       cfg.maxStopLossPct.value);
  }

  /** A requested stop at or below zero escapes the check: it is taken over whatever the budget. */
  lemma NonPositiveStopEscapes(p: Position, e: Event, cfg: Config)
    requires !e.moveStopToEntry && HandlesStop(e.parsed.action)
    requires e.parsed.stopLoss.Some? && e.parsed.stopLoss.value <= 0.0
    ensures Update(p, e, cfg).stopLoss == e.parsed.stopLoss.value
  {
    hide NewTargets;
  }
}
