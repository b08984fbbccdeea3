/** What an opening order is worth: allocation, leverage, free margin and rounding. */
module Orders {
  import opened Core
  import opened Market
  import opened Lookups
  import opened Positions
  import opened Sizing
  import opened Events
  import opened NetProfit
  import opened Soundness
  import opened MarginGate
  import opened Risk
  import opened ExplicitStop

  // ---- leverage ----

  /** The leverage asked for by the event, or else the default. */
  function Wanted(e: Event, cfg: Config): real
  {
    match e.leverage case Some(n) => n as real case None => cfg.defaultSignalLeverage
  }

  /** Where leverage is modelled, the effective one is the nearest to the wanted one between one and the maximum;
      elsewhere it is one. */
  lemma LeverageMeans(e: Event, cfg: Config)
    ensures var leverage := EffectiveLeverage(e, cfg);
            match cfg.maxEffectiveLeverage
            case None => leverage == 1.0
            case Some(most) =>
              && 1.0 <= leverage <= Max(most, 1.0)
              && (forall x :: 1.0 <= x <= Max(most, 1.0) ==> Gap(leverage, Wanted(e, cfg)) <= Gap(x, Wanted(e, cfg)))
  {
  }

  function Gap(x: real, y: real): real { Abs(x - y) }

  // ---- the margin of an order ----

  /** The balance share set aside for an order. */
  function ShareOfBalance(e: Event, balance: real, cfg: Config): real
  {
    balance * AllocationPct(cfg, EffectiveLeverage(e, cfg)) / 100.0
  }

  /** The order in terms of margins: the share, rounded where a loss cap is in force, or else what is free. */
  lemma OrderByMargin(e: Event, open: seq<Position>, balance: real, entry: Price, cfg: Config)
    ensures var leverage, share := EffectiveLeverage(e, cfg), ShareOfBalance(e, balance, cfg);
            var free := balance - UsedMargin(open);
            && 1.0 <= leverage
            && var wanted := if cfg.maxStopLossPct.Some? then QuantizeHalfEven(Bought(share, leverage, entry))
                             else Bought(share, leverage, entry);
               OrderQuantity(e, open, balance, entry, cfg)
               == if balance <= 0.0 || share <= 0.0 then None
                  else if cfg.maxEffectiveLeverage.None? || MarginFor(entry, wanted, leverage) <= free then Some(wanted)
                  else if free <= 0.0 then None else Some(Bought(free, leverage, entry))
  {
    hide UsedMargin, AllocationPct, EffectiveLeverage, QuantizeHalfEven, FitMargin, MarginFor, Bought;
    LeverageAtLeastOne(e, cfg);
    var leverage, share := EffectiveLeverage(e, cfg), ShareOfBalance(e, balance, cfg);
    assert AllocatedAmount(balance, leverage, cfg) == share;
    GateByMargin(open, balance, leverage, entry, AllocatedQuantity(share, leverage, entry, cfg), cfg);
  }

  lemma GateByMargin(open: seq<Position>, balance: real, leverage: real, entry: Price, quantity: real, cfg: Config)
    ensures var free := balance - UsedMargin(open);
            FitMargin(open, balance, leverage, entry, quantity, cfg)
            == if cfg.maxEffectiveLeverage.None? || MarginFor(entry, quantity, leverage) <= free then Some(quantity)
               else if free <= 0.0 then None else Some(Bought(free, leverage, entry))
  {
    hide UsedMargin, MarginFor, Bought;
  }

  /** Without rounding, an order is refused exactly when there is no balance, no share or no free margin; otherwise
      it ties up exactly the share, or the free margin where that is less. */
  lemma OrderExactly(e: Event, open: seq<Position>, balance: real, entry: Price, cfg: Config)
    requires cfg.maxStopLossPct.None?
    ensures var leverage, share := EffectiveLeverage(e, cfg), ShareOfBalance(e, balance, cfg);
            var free := balance - UsedMargin(open);
            && 1.0 <= leverage
            && match OrderQuantity(e, open, balance, entry, cfg)
               case None => balance <= 0.0 || share <= 0.0 || (cfg.maxEffectiveLeverage.Some? && free <= 0.0)
               case Some(q) =>
                 && 0.0 < balance && 0.0 < share && (cfg.maxEffectiveLeverage.Some? ==> 0.0 < free)
                 && MarginFor(entry, q, leverage)
                    == if cfg.maxEffectiveLeverage.Some? then Min(share, free) else share
  {
    hide UsedMargin, EffectiveLeverage, MarginFor, Bought, OrderQuantity, ShareOfBalance;
    var leverage := EffectiveLeverage(e, cfg);
    OrderByMargin(e, open, balance, entry, cfg);
    ClampUsesFree(entry, ShareOfBalance(e, balance, cfg), leverage);
    ClampUsesFree(entry, balance - UsedMargin(open), leverage);
  }

  /** A stop of the signal's own is taken only strictly on the losing side of entry. */
  predicate StopTaken(side: Side, entry: Price, stop: real)
  {
    0.0 < stop && stop != entry && NoWorse(side, stop, entry)
  }

  /** An order with a stop of its own and no loss cap is filled exactly when its entry is found, money is there and the
      stop is on the losing side. It then ties up exactly its share, or the free margin where that is less; it stands
      at the price and time of the fill, with the stop and the leverage asked for, and nothing taken off. */
  lemma OpeningExactly(e: Event, market: MarketKey, open: seq<Position>, balance: real, candles: seq<Candle>,
                       cfg: Config)
    requires e.parsed.stopLoss.Some? && cfg.maxStopLossPct.None?
    ensures var share, free := ShareOfBalance(e, balance, cfg), balance - UsedMargin(open);
            var fill := FindEntry(e.parsed, market, e.timestamp, candles);
            match Decide(e, market, open, balance, candles, cfg)
            case Refused =>
              || fill.None? || balance <= 0.0 || share <= 0.0 || (cfg.maxEffectiveLeverage.Some? && free <= 0.0)
              || !StopTaken(e.parsed.side, fill.value.price, e.parsed.stopLoss.value)
            case Filled(p) =>
              && fill == Some(Fill(p.entryPrice, p.entryTime)) && p.market == market && p.side == e.parsed.side
              && 0.0 < balance && 0.0 < share && (cfg.maxEffectiveLeverage.Some? ==> 0.0 < free)
              && StopTaken(p.side, p.entryPrice, p.stopLoss) && Some(p.stopLoss) == e.parsed.stopLoss
              && p.effectiveLeverage == EffectiveLeverage(e, cfg) && 1.0 <= p.effectiveLeverage
              && MarginFor(p.entryPrice, p.original, p.effectiveLeverage)
                 == (if cfg.maxEffectiveLeverage.Some? then Min(share, free) else share)
              && StartsWhole(p, e, balance, cfg)
  {
    hide FindEntry, OrderQuantity, Sanitize, UsedMargin, EffectiveLeverage, ShareOfBalance, MarginFor;
    var fill := FindEntry(e.parsed, market, e.timestamp, candles);
    if fill.Some? {
      OrderExactly(e, open, balance, fill.value.price, cfg);
    }
  }

  /** Nothing taken off yet, and the account at entry. */
  ghost predicate StartsWhole(p: Position, e: Event, balance: real, cfg: Config)
  {
    && p.signalId == e.signalId && p.remaining == p.original && p.targetsHit == 0 && !p.manualPartialExit
    && p.exitPrice.None? && p.exitTime.None? && p.exitNotional == 0.0 && p.realizedPnl == 0.0
    && p.balanceAtEntry == balance && p.feeRatePct == cfg.feeRatePct
    && p.declaredLeverage == (if e.leverage.Some? then e.leverage else e.parsed.leverage)
    && p.takeProfits == Sanitize(p.side, p.entryPrice, p.stopLoss, e.parsed.takeProfits)
  }

  // ---- rounding ----

  /** A whole number of ticks. */
  predicate OnTick(x: real) { x * TICK == (x * TICK).Floor as real }

  lemma TicksBack(n: int)
    ensures (n as real / TICK) * TICK == n as real && OnTick(n as real / TICK)
  {
    var x := n as real / TICK;
    assert x * TICK == n as real;
  }

  /** Rounding half to even gives the nearest tick, and of two equally near the even one. */
  lemma NearestTick(x: real)
    ensures var r := QuantizeHalfEven(x);
            && OnTick(r) && Abs(r * TICK - x * TICK) <= 0.5
            && (Abs(r * TICK - x * TICK) == 0.5 ==> (r * TICK).Floor % 2 == 0)
  {
    var floor := (x * TICK).Floor;
    TicksBack(floor);
    TicksBack(floor + 1);
  }

  /** Rounding down gives the last tick that is not above. */
  lemma TickBelow(x: real)
    ensures var r := QuantizeDown(x); OnTick(r) && r * TICK <= x * TICK < r * TICK + 1.0
  {
    TicksBack((x * TICK).Floor);
  }

  /** With a loss cap in force the share is rounded to the nearest quantity before the gate looks at it. */
  lemma RoundedOrder(e: Event, open: seq<Position>, balance: real, entry: Price, cfg: Config)
    requires cfg.maxStopLossPct.Some?
    ensures var leverage, share := EffectiveLeverage(e, cfg), ShareOfBalance(e, balance, cfg);
            var free := balance - UsedMargin(open);
            && 1.0 <= leverage
            && var wanted := Bought(share, leverage, entry);
               match OrderQuantity(e, open, balance, entry, cfg)
               case None => balance <= 0.0 || share <= 0.0 || (cfg.maxEffectiveLeverage.Some? && free <= 0.0)
               case Some(q) =>
                 || (OnTick(q) && Abs(q * TICK - wanted * TICK) <= 0.5)
                 || (cfg.maxEffectiveLeverage.Some? && MarginFor(entry, q, leverage) == free)
  {
    hide UsedMargin, EffectiveLeverage, MarginFor, Bought, OrderQuantity, ShareOfBalance, QuantizeHalfEven, OnTick;
    var leverage := EffectiveLeverage(e, cfg);
    OrderByMargin(e, open, balance, entry, cfg);
    NearestTick(Bought(ShareOfBalance(e, balance, cfg), leverage, entry));
    ClampUsesFree(entry, balance - UsedMargin(open), leverage);
  }

  // ---- the synthetic stop ----

  /** What is left of the budget buys exactly the furthest distance. */
  lemma DistanceExactly(side: Side, entry: Price, distance: real, q: real, rate: real, available: real)
    requires 0.0 < q && 0.0 <= rate < 1.0
    ensures var factor := if side.Short? then 1.0 + rate else 1.0 - rate;
            var loss := LossAt(side, entry, if side.Short? then entry + distance else entry - distance, q, rate);
            && (loss <= RoundTripFees(entry, q, rate) + available <==> distance <= available / q / factor)
            && (distance == available / q / factor ==> loss == RoundTripFees(entry, q, rate) + available)
  {
    hide LossAt;
    var factor := if side.Short? then 1.0 + rate else 1.0 - rate;
    LossAtDistance(side, entry, distance, q, rate);
    Quotient(available, q, factor);
    Product(q, factor);
    CompareProducts(distance, available / q / factor, q * factor);
  }

  lemma Product(a: real, b: real)
    requires 0.0 < a && 0.0 < b
    ensures 0.0 < a * b
  {
  }

  lemma CompareProducts(x: real, y: real, f: real)
    requires 0.0 < f
    ensures x * f <= y * f <==> x <= y
    ensures x == y ==> x * f == y * f
  {
    if x < y { StrictScale(f, x, y); }
    if y < x { StrictScale(f, y, x); }
  }

  /** The cap on a synthetic stop changes nothing when the loss at the stop fits the budget, and otherwise uses the
      budget up, unless a long stop would have to be negative. */
  lemma SyntheticIsTight(side: Side, entry: Price, stop: real, quantity: real, balance: real, feeRatePct: FeePct,
                         maxLossPct: real)
    requires 0.0 < quantity && 0.0 < balance && 0.0 < maxLossPct && NoWorse(side, stop, entry)
    ensures var r := CapSynthetic(side, entry, stop, quantity, balance, feeRatePct, maxLossPct);
            var rate, budget := FeeRate(feeRatePct), RiskBudget(balance, maxLossPct);
            if LossAt(side, entry, stop, quantity, rate) <= budget then r == Protected(stop, quantity)
            else LossAt(side, entry, r.stop, r.quantity, rate) == budget || (side.Long? && r.stop == 0.0)
  {
    hide LossAt, RiskBudget, CapWithin;
    BudgetPositive(balance, maxLossPct);
    WithinIsTight(side, entry, stop, quantity, FeeRate(feeRatePct), RiskBudget(balance, maxLossPct));
  }

  lemma WithinIsTight(side: Side, entry: Price, stop: real, quantity: real, rate: real, budget: real)
    requires 0.0 < quantity && 0.0 <= rate < 1.0 && 0.0 < budget && NoWorse(side, stop, entry)
    ensures var r := CapWithin(side, entry, stop, quantity, rate, budget);
            if LossAt(side, entry, stop, quantity, rate) <= budget then r == Protected(stop, quantity)
            else LossAt(side, entry, r.stop, r.quantity, rate) == budget || (side.Long? && r.stop == 0.0)
  {
    hide LossAt, RoundTripFees, FeeSafeQuantity;
    var q := FeeSafeQuantity(entry, quantity, budget, rate);
    var fees := RoundTripFees(entry, quantity, rate);
    var factor := if side.Short? then 1.0 + rate else 1.0 - rate;
    FeesUpToBudget(entry, quantity, budget, rate);
    DistanceExactly(side, entry, Abs(entry - stop), quantity, rate, budget - fees);
    DistanceExactly(side, entry, 0.0, q, rate, budget - RoundTripFees(entry, q, rate));
    if budget - fees <= 0.0 {
      NoDistance(budget - fees, quantity, factor);
      NoDistance(0.0, q, factor);
    } else {
      DistanceExactly(side, entry, (budget - fees) / quantity / factor, quantity, rate, budget - fees);
    }
  }

  lemma NoDistance(available: real, q: real, factor: real)
    requires available <= 0.0 && 0.0 < q && 0.0 < factor
    ensures available / q / factor <= 0.0 && (available == 0.0 ==> available / q / factor == 0.0)
    ensures available < 0.0 ==> available / q / factor < 0.0
  {
    var x := available / q;
    assert x * q == available;
    assert x <= 0.0;
    var y := x / factor;
    assert y * factor == x;
  }

  /** Where the fees alone exceed the budget, the quantity is the one whose fees are the budget. */
  lemma FeesUpToBudget(entry: Price, quantity: real, budget: real, rate: real)
    requires 0.0 < quantity && 0.0 < budget && 0.0 <= rate
    ensures var q := FeeSafeQuantity(entry, quantity, budget, rate);
            if RoundTripFees(entry, quantity, rate) <= budget then q == quantity
            else RoundTripFees(entry, q, rate) == budget
  {
    if budget <= RoundTripFees(entry, quantity, rate) {
      var d := 2.0 * entry * rate;
      assert RoundTripFees(entry, quantity, rate) == d * quantity;
      assert 0.0 < rate && 0.0 < d;
      assert budget / d * d == budget;
      CompareProducts(budget / d, quantity, d);
      assert RoundTripFees(entry, budget / d, rate) == d * (budget / d);
    }
  }

  /** The default stop lies on the losing side, at the configured share of the entry price. */
  lemma DefaultStopMeans(side: Side, entry: Price, cfg: Config)
    ensures var stop := DefaultStop(side, entry, cfg);
            && NoWorse(side, stop, entry)
            && 100.0 * Abs(entry - stop) == entry * Max(cfg.defaultStopPct, 0.0)
  {
    DefaultStopSide(side, entry, cfg);
    var pct := Max(cfg.defaultStopPct, 0.0);
    assert entry * (1.0 + pct / 100.0) == entry + entry * (pct / 100.0);
    assert entry * (1.0 - pct / 100.0) == entry - entry * (pct / 100.0);
    assert 100.0 * (entry * (pct / 100.0)) == entry * pct;
  }

  // ---- the cap on a signal's own stop ----

  /** The cap gives way to the order asked for, or to the last tick whose loss at the stop fits the budget. */
  lemma ExplicitIsLargest(side: Side, entry: Price, stop: real, quantity: real, balance: real, feeRatePct: FeePct,
                          maxLossPct: real)
    requires 0.0 < stop && 0.0 < balance && 0.0 < maxLossPct && 0.0 < quantity
    requires 0.0 < NetLossAtStop(side, entry, stop, 1.0, FeeRate(feeRatePct))
    ensures var q := CapExplicit(side, entry, stop, quantity, balance, feeRatePct, maxLossPct);
            && 0.0 <= q <= quantity
            && (q == quantity || (OnTick(q) && RiskBudget(balance, maxLossPct)
                                   < NetLossAtStop(side, entry, stop, q + 1.0 / TICK, FeeRate(feeRatePct))))
  {
    hide NetLossAtStop, FeeRate, QuantizeDown, MaxQuantityForStop, RiskBudget;
    var most := MaxQuantityForStop(side, entry, stop, balance, feeRatePct, maxLossPct);
    MostIsPositive(side, entry, stop, balance, feeRatePct, maxLossPct);
    TickBelow(most);
    NextTick(QuantizeDown(most), most);
    TicksBack(0);
    var q := CapExplicit(side, entry, stop, quantity, balance, feeRatePct, maxLossPct);
    if q < quantity {
      QuantityIsLargest(side, entry, stop, q + 1.0 / TICK, balance, feeRatePct, maxLossPct);
    }
  }

  lemma MostIsPositive(side: Side, entry: Price, stop: real, balance: real, feeRatePct: FeePct, maxLossPct: real)
    requires 0.0 < stop && 0.0 < balance && 0.0 < maxLossPct
    requires 0.0 < NetLossAtStop(side, entry, stop, 1.0, FeeRate(feeRatePct))
    ensures 0.0 < MaxQuantityForStop(side, entry, stop, balance, feeRatePct, maxLossPct)
  {
    hide NetLossAtStop, FeeRate, RiskBudget;
    BudgetPositive(balance, maxLossPct);
    QuotientPositive(RiskBudget(balance, maxLossPct), NetLossAtStop(side, entry, stop, 1.0, FeeRate(feeRatePct)));
  }

  lemma NextTick(r: real, x: real)
    requires OnTick(r) && r * TICK <= x * TICK < r * TICK + 1.0 && 0.0 < x
    ensures x < r + 1.0 / TICK && 0.0 <= r
  {
    assert 1.0 / TICK * TICK == 1.0;
    assert -1.0 < r * TICK;
  }

  // ---- the caps at an opening ----

  /** A signal without a stop of its own opens on the default stop with the quantity its margin buys, where the loss
      there fits the configured share of the balance, and otherwise uses that share up. */
  lemma SyntheticOpening(e: Event, market: MarketKey, open: seq<Position>, balance: real, candles: seq<Candle>,
                         cfg: Config)
    requires e.parsed.stopLoss.None? && 0.0 < cfg.syntheticMaxLossPct
    requires Decide(e, market, open, balance, candles, cfg).Filled?
    ensures var p := Decide(e, market, open, balance, candles, cfg).position;
            var ordered := OrderQuantity(e, open, balance, p.entryPrice, cfg);
            && ordered.Some? && p.original <= ordered.value
            && var stop, rate := DefaultStop(p.side, p.entryPrice, cfg), FeeRate(cfg.feeRatePct);
               var budget := RiskBudget(balance, cfg.syntheticMaxLossPct);
               if LossAt(p.side, p.entryPrice, stop, ordered.value, rate) <= budget
               then p.stopLoss == stop && p.original == ordered.value
               else LossAt(p.side, p.entryPrice, p.stopLoss, p.original, rate) == budget
                    || (p.side.Long? && p.stopLoss == 0.0)
  {
    hide FindEntry, OrderQuantity, CapSynthetic, Sanitize, LossAt, RiskBudget, DefaultStop, FeeRate;
    var fill := FindEntry(e.parsed, market, e.timestamp, candles).value;
    var quantity := OrderQuantity(e, open, balance, fill.price, cfg).value;
    var stop := DefaultStop(e.parsed.side, fill.price, cfg);
    OrderNeedsBalance(e, open, balance, fill.price, cfg);
    DefaultStopSide(e.parsed.side, fill.price, cfg);
    CapSyntheticShrinks(e.parsed.side, fill.price, stop, quantity, balance, cfg.feeRatePct, cfg.syntheticMaxLossPct);
    SyntheticIsTight(e.parsed.side, fill.price, stop, quantity, balance, cfg.feeRatePct, cfg.syntheticMaxLossPct);
    SyntheticFits(e.parsed.side, fill.price, stop, quantity, balance, cfg.feeRatePct, cfg.syntheticMaxLossPct);
  }

  /** A signal with a stop of its own, under a loss cap, opens with the quantity its margin buys, or else with the last
      tick whose loss at the stop fits the configured share of the balance. */
  lemma CappedOpening(e: Event, market: MarketKey, open: seq<Position>, balance: real, candles: seq<Candle>,
                      cfg: Config)
    requires e.parsed.stopLoss.Some? && cfg.maxStopLossPct.Some?
    requires Decide(e, market, open, balance, candles, cfg).Filled?
    ensures var p := Decide(e, market, open, balance, candles, cfg).position;
            var ordered := OrderQuantity(e, open, balance, p.entryPrice, cfg);
            && ordered.Some? && StopTaken(p.side, p.entryPrice, p.stopLoss) && Some(p.stopLoss) == e.parsed.stopLoss
            && 0.0 < p.original <= ordered.value
            && (p.original == ordered.value
                || (OnTick(p.original)
                    && RiskBudget(balance, cfg.maxStopLossPct.value)
                       < NetLossAtStop(p.side, p.entryPrice, p.stopLoss, p.original + 1.0 / TICK,
                                       FeeRate(cfg.feeRatePct))))
  {
    hide FindEntry, OrderQuantity, CapExplicit, Sanitize, RiskBudget, NetLossAtStop, FeeRate, OnTick;
    var fill := FindEntry(e.parsed, market, e.timestamp, candles).value;
    var quantity := OrderQuantity(e, open, balance, fill.price, cfg).value;
    var stop := e.parsed.stopLoss.value;
    OrderNeedsBalance(e, open, balance, fill.price, cfg);
    CapIsPositive(e.parsed.side, fill.price, stop, quantity, balance, cfg.feeRatePct, cfg.maxStopLossPct.value);
    ExplicitIsLargest(e.parsed.side, fill.price, stop, quantity, balance, cfg.feeRatePct, cfg.maxStopLossPct.value);
  }

  lemma CapIsPositive(side: Side, entry: Price, stop: real, quantity: real, balance: real, feeRatePct: FeePct,
                      maxLossPct: real)
    requires 0.0 < CapExplicit(side, entry, stop, quantity, balance, feeRatePct, maxLossPct)
    ensures 0.0 < quantity && 0.0 < maxLossPct
    ensures 0.0 < NetLossAtStop(side, entry, stop, 1.0, FeeRate(feeRatePct))
  {
    hide NetLossAtStop, FeeRate, QuantizeDown, MaxQuantityForStop;
    RoundsDown(MaxQuantityForStop(side, entry, stop, balance, feeRatePct, maxLossPct));
    LargestIsPositive(side, entry, stop, balance, feeRatePct, maxLossPct);
  }
}
