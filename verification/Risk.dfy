/** Bounds on what a position can lose in a run, and the shares its targets take. */
module Risk {
  import opened Core
  import opened Market
  import opened Lookups
  import opened Positions
  import opened Sizing
  import opened Events
  import opened Replay
  import opened Ledger
  import opened Accounting
  import opened NetProfit
  import opened Soundness
  import opened Journeys
  import opened Lives

  // ---- target shares ----

  /** After k of n targets the position holds (n - k) / n of what it opened with. */
  ghost predicate Shared(p: Position)
  {
    p.takeProfits != [] ==>
      p.remaining * |p.takeProfits| as real == p.original * (|p.takeProfits| - p.targetsHit) as real
  }

  /** Shares of what is pending compose to shares of the whole. */
  lemma SharesCompose(held: real, left: real, original: real, all: real, pending: real, k: real)
    requires 0.0 < pending && held * all == original * pending && left * pending == held * (pending - k)
    ensures left * all == original * (pending - k)
  {
    calc {
      (left * all) * pending;
      (left * pending) * all;
      (held * (pending - k)) * all;
      (held * all) * (pending - k);
      (original * pending) * (pending - k);
      (original * (pending - k)) * pending;
    }
    CancelFactor(left * all, original * (pending - k), pending);
  }

  lemma CandleKeepsShared(p: Position, c: Candle, policy: FillPolicy, cfg: Config)
    requires Sound(p, cfg) && Shared(p)
    ensures var r := ApplyCandle(p, c, policy);
            r.status.None? ==> Shared(r.position) && r.position.takeProfits == p.takeProfits
  {
    hide Accounts, CloseFraction, TakeTargets, Ladder, HitTargets, HitStop;
    var k := CandleTakesNearest(p, c);
    TakeNearest(p, c.closeTime, k);
    var q := TakeTargets(p, c.closeTime, Pending(p)[..k]);
    if 0 < k {
      SharesCompose(p.remaining, q.remaining, p.original, |p.takeProfits| as real, |Pending(p)| as real, k as real);
    }
  }

  lemma {:induction false} JourneyShared(p: Position, candles: seq<Candle>, i: nat, j: nat, policy: FillPolicy,
        cfg: Config)
    requires i <= j <= |candles| && Sound(p, cfg) && Shared(p)
    ensures var r := Travel(p, candles, i, j, policy);
            r.Alive? ==> Sound(r.position, cfg) && Shared(r.position) && r.position.takeProfits == p.takeProfits
    decreases j - i
  {
    hide Sound, Shared, ApplyCandle, Finalize;
    if i < j && Face(p, candles[i], policy).Alive? {
      if Relevant(p, candles[i]) {
        CandleKeepsSound(p, candles[i], policy, cfg);
        CandleKeepsShared(p, candles[i], policy, cfg);
      }
      JourneyShared(Face(p, candles[i], policy).position, candles, i + 1, j, policy, cfg);
    }
  }

  lemma OpenedFresh(events: seq<Event>, k: nat, candles: seq<Candle>, cfg: Config, policy: FillPolicy)
    requires k < |events| && Opens(events[k]) && OpenedBy(events, k, candles, cfg, policy).Filled?
    ensures var p := OpenedBy(events, k, candles, cfg, policy).position;
            Sound(p, cfg) && Shared(p) && p.targetsHit == 0 && p.remaining == p.original
  {
    hide FindEntry, OrderQuantity, Protect, Sanitize, SweepBook, Sound;
    var b := SweepBook(BookAfter(events, k, candles, cfg, policy), candles, Some(events[k].timestamp), policy);
    OpenedSound(events[k], events[k].parsed.symbol.value, b.open, b.balance, candles, cfg);
  }

  /** At every later moment of a run, an open position that no event has touched so far and that has hit k of its
      n targets holds exactly (n - k) / n of its original quantity. */
  lemma {:induction false} TargetShares(events: seq<Event>, k: nat, n: nat, candles: seq<Candle>, cfg: Config,
        policy: FillPolicy)
    requires k < n <= |events| && Opens(events[k]) && OpenedBy(events, k, candles, cfg, policy).Filled?
    requires DistinctOpens(events) && LeftAlone(events, k, n, candles, cfg, policy, events[k].signalId)
    ensures var p := OpenedBy(events, k, candles, cfg, policy).position;
            match At(BookAfter(events, n, candles, cfg, policy).open, events[k].signalId)
            case None => true
            case Some(q) => q.takeProfits == p.takeProfits && Shared(q)
  {
    hide Sound, Shared, Travel, OpenedBy, BookAfter;
    var p := OpenedBy(events, k, candles, cfg, policy).position;
    OpenedFresh(events, k, candles, cfg, policy);
    OpenedStands(events, k, candles, cfg, policy);
    JourneyInRun(events, k, n, candles, cfg, policy);
    var start := BookAfter(events, k + 1, candles, cfg, policy).cursor;
    JourneyShared(p, candles, start, BookAfter(events, n, candles, cfg, policy).cursor, policy, cfg);
  }

  // ---- the loss at a stop ----

  /** At the furthest stop the loss is the fees on entry twice over, plus the distance. */
  lemma LossAtDistance(side: Side, entry: Price, distance: real, quantity: real, rate: real)
    ensures LossAt(side, entry, if side.Short? then entry + distance else entry - distance, quantity, rate) ==
            2.0 * entry * quantity * rate
            + distance * (quantity * (if side.Short? then 1.0 + rate else 1.0 - rate))
  {
    if side.Long? {
      assert entry * (1.0 + rate) - (entry - distance) * (1.0 - rate)
          == 2.0 * (entry * rate) + distance * (1.0 - rate);
      assert quantity * (2.0 * (entry * rate) + distance * (1.0 - rate))
          == 2.0 * entry * quantity * rate + distance * (quantity * (1.0 - rate));
    } else {
      assert (entry + distance) * (1.0 + rate) - entry * (1.0 - rate)
          == 2.0 * (entry * rate) + distance * (1.0 + rate);
      assert quantity * (2.0 * (entry * rate) + distance * (1.0 + rate))
          == 2.0 * entry * quantity * rate + distance * (quantity * (1.0 + rate));
    }
  }

  lemma FeeSafe(entry: Price, quantity: real, budget: real, rate: real)
    requires 0.0 < quantity && 0.0 < budget && 0.0 <= rate
    ensures RoundTripFees(entry, FeeSafeQuantity(entry, quantity, budget, rate), rate) <= budget
  {
    var q := FeeSafeQuantity(entry, quantity, budget, rate);
    if budget <= 2.0 * entry * quantity * rate {
      assert 0.0 < rate;
      var d := 2.0 * entry * rate;
      assert 0.0 < d;
      assert q <= budget / d;
      Scale(d, q, budget / d);
      assert d * (budget / d) == budget;
      assert 2.0 * entry * q * rate == d * q;
    }
  }

  lemma Quotient(a: real, b: real, c: real)
    requires 0.0 < b && 0.0 < c
    ensures a / b / c * (b * c) == a
  {
    var x := a / b;
    assert x * b == a;
    var y := x / c;
    assert y * c == x;
    assert y * (b * c) == (y * c) * b;
  }

  /** A stop no further than the furthest one loses no more than fees plus what was available. */
  lemma DistanceFits(side: Side, entry: Price, stop: real, q: real, rate: real, available: real)
    requires 0.0 < q && 0.0 <= rate < 1.0 && 0.0 < available
    requires var furthest := available / q / (if side.Short? then 1.0 + rate else 1.0 - rate);
             NoWorse(side, if side.Short? then entry + furthest else entry - furthest, stop)
    ensures LossAt(side, entry, stop, q, rate) <= RoundTripFees(entry, q, rate) + available
  {
    var factor := if side.Short? then 1.0 + rate else 1.0 - rate;
    var furthest := available / q / factor;
    Quotient(available, q, factor);
    LossAtDistance(side, entry, furthest, q, rate);
    NoWorseLosesLess(side, entry, if side.Short? then entry + furthest else entry - furthest, stop, q, rate);
  }

  lemma FurthestPositive(available: real, q: real, factor: real)
    requires 0.0 < q && 0.0 < available && 0.0 < factor
    ensures 0.0 < available / q / factor
  {
    QuotientPositive(available, q);
    QuotientPositive(available / q, factor);
  }

  lemma CapDistanceFits(side: Side, entry: Price, stop: real, q: real, rate: real, available: real)
    requires 0.0 < q && 0.0 <= rate < 1.0 && 0.0 <= available && NoWorse(side, stop, entry)
    ensures var r := CapDistance(side, entry, stop, q, rate, available);
            && NoWorse(side, r.stop, entry) && r.quantity == q
            && LossAt(side, entry, r.stop, q, rate) <= RoundTripFees(entry, q, rate) + available
  {
    hide LossAt;
    var r := CapDistance(side, entry, stop, q, rate, available);
    if available <= 0.0 {
      LossAtDistance(side, entry, 0.0, q, rate);
    } else {
      FurthestPositive(available, q, if side.Short? then 1.0 + rate else 1.0 - rate);
      DistanceFits(side, entry, r.stop, q, rate, available);
    }
  }

  lemma CapWithinFits(side: Side, entry: Price, stop: real, quantity: real, rate: real, budget: real)
    requires 0.0 < quantity && 0.0 <= rate < 1.0 && 0.0 < budget && NoWorse(side, stop, entry)
    ensures var r := CapWithin(side, entry, stop, quantity, rate, budget);
            && NoWorse(side, r.stop, entry) && 0.0 < r.quantity <= quantity
            && LossAt(side, entry, r.stop, r.quantity, rate) <= budget
  {
    hide LossAt, RoundTripFees, CapDistance, FeeSafeQuantity;
    var q := FeeSafeQuantity(entry, quantity, budget, rate);
    FeeSafe(entry, quantity, budget, rate);
    CapDistanceFits(side, entry, stop, q, rate, budget - RoundTripFees(entry, q, rate));
  }

  /** The capped synthetic stop is on the losing side of entry, and the loss at it fits the budget. */
  lemma SyntheticFits(side: Side, entry: Price, stop: real, quantity: real, balance: real,
                      feeRatePct: FeePct, maxLossPct: real)
    requires 0.0 < quantity && 0.0 < balance && 0.0 < maxLossPct && NoWorse(side, stop, entry)
    ensures var r := CapSynthetic(side, entry, stop, quantity, balance, feeRatePct, maxLossPct);
            && NoWorse(side, r.stop, entry) && 0.0 < r.quantity <= quantity
            && LossAt(side, entry, r.stop, r.quantity, FeeRate(feeRatePct)) <= RiskBudget(balance, maxLossPct)
  {
    BudgetPositive(balance, maxLossPct);
    CapWithinFits(side, entry, stop, quantity, FeeRate(feeRatePct), RiskBudget(balance, maxLossPct));
  }

  lemma BudgetPositive(balance: real, maxLossPct: real)
    requires 0.0 < balance && 0.0 < maxLossPct
    ensures 0.0 < RiskBudget(balance, maxLossPct)
  {
    assert 0.0 < balance * maxLossPct;
  }

  // ---- the running worst case ----

  /** Everything taken off so far was taken off at the price or better. */
  ghost predicate Settled(p: Position, worst: real)
  {
    && NoWorse(p.side, worst, p.entryPrice)
    && NoWorse(p.side, Amount(worst, p.original - p.remaining), p.exitNotional)
    && (p.side.Long? ==> 0.0 <= p.exitNotional)
  }

  /** And so will the rest be: the stop, the targets and the last exit price are no worse than it either. */
  ghost predicate Covered(p: Position, worst: real)
  {
    && Settled(p, worst)
    && NoWorse(p.side, worst, p.stopLoss)
    && (forall i :: 0 <= i < |p.takeProfits| ==> 0.0 < p.takeProfits[i])
    && (p.exitPrice.Some? ==> Fair(p, p.exitPrice.value, worst))
  }

  /** A price to leave at: no worse than the worst one, and not negative if it is to bring money. */
  predicate Fair(p: Position, price: real, worst: real)
  {
    NoWorse(p.side, worst, price) && (p.side.Long? ==> 0.0 <= price)
  }

  lemma ExitSettled(p: Position, at: int, price: real, quantity: real, worst: real)
    requires Settled(p, worst) && 0.0 <= quantity <= p.remaining && Fair(p, price, worst)
    ensures Settled(TakeOff(p, at, price, quantity), worst)
  {
    hide Amount, Pnl, ExitFee;
    var gone, q := p.original - p.remaining, TakeOff(p, at, price, quantity);
    assert q.original - q.remaining == gone + quantity;
    AmountTaken(p, at, price, quantity);
    NoWorseScales(p.side, worst, price, quantity);
    AmountGrows(worst, gone, quantity);
    if p.side.Long? { AmountNotNegative(price, quantity); }
  }

  lemma AmountTaken(p: Position, at: int, price: real, quantity: real)
    ensures TakeOff(p, at, price, quantity).exitNotional == p.exitNotional + Amount(price, quantity)
  {
  }

  lemma AmountGrows(price: real, gone: real, quantity: real)
    ensures Amount(price, gone + quantity) == Amount(price, gone) + Amount(price, quantity)
  {
  }

  lemma AmountNotNegative(price: real, quantity: real)
    requires 0.0 <= price && 0.0 <= quantity
    ensures 0.0 <= Amount(price, quantity)
  {
  }

  lemma NothingTaken(price: real)
    ensures Amount(price, 0.0) == 0.0
  {
  }

  lemma CloseSettled(p: Position, at: int, price: real, fraction: real, worst: real)
    requires Settled(p, worst) && Fair(p, price, worst)
    ensures var q := CloseFraction(p, at, price, fraction);
            Settled(q, worst) && (q.exitPrice == p.exitPrice || q.exitPrice == Some(price))
  {
    hide Settled, ClosedQuantity;
    if 0.0 < fraction && 0.0 < p.remaining {
      ClosedQuantityBounds(p, fraction);
      ExitSettled(p, at, price, ClosedQuantity(p, fraction), worst);
    }
  }

  lemma CloseCovered(p: Position, at: int, price: real, fraction: real, worst: real)
    requires Covered(p, worst) && Fair(p, price, worst)
    ensures Covered(CloseFraction(p, at, price, fraction), worst)
  {
    hide CloseFraction, Settled;
    CloseSettled(p, at, price, fraction, worst);
    CloseTouches(p, at, price, fraction);
  }

  lemma FlagsCovered(p: Position, hits: nat, partial: bool, worst: real)
    requires Covered(p, worst)
    ensures Covered(p.(targetsHit := hits), worst) && Covered(p.(manualPartialExit := partial), worst)
  {
  }

  lemma BeyondIsFair(p: Position, tp: real, worst: real)
    requires Settled(p, worst) && 0.0 < tp && Beyond(p.side, p.entryPrice, tp)
    ensures Fair(p, tp, worst)
  {
  }

  lemma {:induction false} TargetsCovered(p: Position, at: int, tps: seq<real>, worst: real)
    requires Covered(p, worst)
    requires forall i :: 0 <= i < |tps| ==> 0.0 < tps[i] && Beyond(p.side, p.entryPrice, tps[i])
    ensures Covered(TakeTargets(p, at, tps), worst)
    decreases |tps|
  {
    hide Covered, CloseFraction, Settled;
    if tps != [] && 0.0 < p.remaining {
      var q := CloseFraction(p, at, tps[0], TargetFraction(p));
      CoveredParts(p, worst);
      BeyondIsFair(p, tps[0], worst);
      CloseCovered(p, at, tps[0], TargetFraction(p), worst);
      FlagsCovered(q, q.targetsHit + 1, false, worst);
      CloseTouches(p, at, tps[0], TargetFraction(p));
      TargetsCovered(TakeTarget(p, at, tps[0]), at, tps[1..], worst);
    }
  }

  lemma CoveredParts(p: Position, worst: real)
    requires Covered(p, worst)
    ensures Settled(p, worst) && NoWorse(p.side, worst, p.stopLoss) && NoWorse(p.side, worst, p.entryPrice)
    ensures forall i :: 0 <= i < |p.takeProfits| ==> 0.0 < p.takeProfits[i]
  {
  }

  /** A candle keeps the cover; one that leaves the position open closes no worse than the stop. */
  lemma CandleCovers(p: Position, c: Candle, policy: FillPolicy, cfg: Config, worst: real)
    requires Sound(p, cfg) && Covered(p, worst)
    ensures var r := ApplyCandle(p, c, policy);
            if r.status.None? then Covered(r.position, worst) && NoWorse(p.side, worst, c.close)
            else Settled(r.position, worst)
  {
    hide Accounts, CloseFraction, TakeTargets, Settled, Covered;
    var k := CandleTakesNearest(p, c);
    var hits := Pending(p)[..k];
    TakeNearest(p, c.closeTime, k);
    CoveredParts(p, worst);
    TargetsCovered(p, c.closeTime, hits, worst);
    var q := TakeTargets(p, c.closeTime, hits);
    CoveredParts(q, worst);
    if HitStop(p, c) {
      CloseSettled(p, c.closeTime, p.stopLoss, 1.0, worst);
      CloseSettled(q, c.closeTime, q.stopLoss, 1.0, worst);
    }
  }

  /** A position that was covered to the end loses no more than at the worst price. */
  lemma SettledLoss(p: Position, status: Status, worst: real)
    requires Accounts(p) && p.remaining == 0.0 && Settled(p, worst)
    ensures -Finalize(p, status).pnl <= LossAt(p.side, p.entryPrice, worst, p.original, FeeRate(p.feeRatePct))
  {
    hide Accounts, Finalize, LossAt, FeeRate, NetOf;
    var rate := FeeRate(p.feeRatePct);
    var bound := if p.side.Long? then Max(worst, 0.0) else worst;
    AccountsBound(p);
    FinalNet(p, status);
    var least := Amount(bound, p.original);
    assert bound == 0.0 ==> least == 0.0;
    assert p.original - p.remaining == p.original;
    NetIsMonotone(p.side, Cost(p), least, p.exitNotional, rate);
    NetAtPrice(p.side, p.entryPrice, bound, p.original, rate, Cost(p), least);
    NoWorseLosesLess(p.side, p.entryPrice, worst, bound, p.original, rate);
  }

  /** Closing a covered position in full at a fair price. */
  lemma ExitLoss(p: Position, at: int, price: real, status: Status, cfg: Config, worst: real)
    requires Sound(p, cfg) && Covered(p, worst) && Fair(p, price, worst)
    ensures var most := LossAt(p.side, p.entryPrice, worst, p.original, FeeRate(p.feeRatePct));
            && -Finalize(CloseFraction(p, at, price, 1.0), status).pnl <= most
            && -CloseRemaining(p, at, price, status).pnl <= most
  {
    hide Sound, Accounts, CloseFraction, Finalize, Settled, LossAt, Covered;
    SoundDeal(p, cfg);
    CoveredParts(p, worst);
    CloseSettled(p, at, price, 1.0, worst);
    CloseAccounts(p, at, price, 1.0);
    SettledLoss(CloseFraction(p, at, price, 1.0), status, worst);
    CloseTouches(p, at, price, 1.0);
  }

  /** Where a journey may end: an ended position lost at most the loss at the worst price. */
  ghost predicate Bounded(p: Position, j: Journey, cfg: Config, worst: real)
  {
    match j
    case Alive(q) => Sound(q, cfg) && Covered(q, worst)
    case Over(t) => -t.pnl <= LossAt(p.side, p.entryPrice, worst, p.original, FeeRate(p.feeRatePct))
  }

  /** No candle of the position's market closes worse. */
  ghost predicate ClosesNoWorse(p: Position, candles: seq<Candle>, i: nat, j: nat, worst: real)
  {
    forall c :: i <= c < j && c < |candles| && Relevant(p, candles[c]) ==> NoWorse(p.side, worst, candles[c].close)
  }

  /** Along a journey: an ended position lost at most the loss at the worst price; a living one is still covered,
      and every candle it has met closed no worse. */
  lemma {:induction false} JourneyCovered(p: Position, candles: seq<Candle>, i: nat, j: nat, policy: FillPolicy,
        cfg: Config, worst: real)
    requires i <= j <= |candles| && Sound(p, cfg) && Covered(p, worst)
    ensures Bounded(p, Travel(p, candles, i, j, policy), cfg, worst)
    ensures Travel(p, candles, i, j, policy).Alive? ==> ClosesNoWorse(p, candles, i, j, worst)
    decreases j - i
  {
    hide Sound, Covered, Accounts, ApplyCandle, Finalize, Settled, LossAt;
    if i < j {
      var c := candles[i];
      if Relevant(p, c) {
        CandleKeepsSound(p, c, policy, cfg);
        CandleCovers(p, c, policy, cfg, worst);
        var r := ApplyCandle(p, c, policy);
        if r.status.Some? {
          SettledLoss(r.position, r.status.value, worst);
        } else {
          JourneyCovered(r.position, candles, i + 1, j, policy, cfg, worst);
        }
      } else {
        JourneyCovered(p, candles, i + 1, j, policy, cfg, worst);
      }
    }
  }

  // ---- events along the way ----

  /** The event takes something off the position at the next open price. */
  predicate TakesOff(e: Event, id: string)
  {
    ClosesAll(e) || (e.parsed.action.CLOSE? && e.relatedId == Some(id) && 0.0 < RequestedFraction(e))
  }

  /** The event closes at no worse than the price, and leaves no stop that is worse. */
  predicate Respects(p: Position, e: Event, candles: seq<Candle>, cfg: Config, worst: real)
  {
    && (TakesOff(e, p.signalId) ==> NoWorse(p.side, worst, ManualPrice(p, e.timestamp, candles)))
    && match Touched(p, e, candles, cfg)
       case Over(t) => true
       case Alive(q) => NoWorse(p.side, worst, q.stopLoss)
  }

  /** Anything but a close, with no stop in it that is worse than the price, respects the price: cancels, new
      targets, another leverage, a stop moved to entry or tightened, and events that do nothing. */
  lemma OthersRespect(p: Position, e: Event, candles: seq<Candle>, cfg: Config, worst: real)
    requires Covered(p, worst) && !TakesOff(e, p.signalId)
    requires HandlesStop(e.parsed.action) && e.parsed.stopLoss.Some? && !e.moveStopToEntry ==>
               NoWorse(p.side, worst, e.parsed.stopLoss.value)
    ensures Respects(p, e, candles, cfg, worst)
  {
    hide Covered, UnsafeStop, NewTargets, CloseRemaining, Finalize, TakeOff;
    CoveredParts(p, worst);
  }

  lemma UpdateCovered(p: Position, e: Event, cfg: Config, worst: real)
    requires Covered(p, worst) && NoWorse(p.side, worst, Update(p, e, cfg).stopLoss)
    ensures Covered(Update(p, e, cfg), worst)
  {
    hide Sanitize, UnsafeStop, Settled;
    var stop := NewStop(p, e, cfg);
    SanitizeIsLadder(p.side, p.entryPrice, stop, e.parsed.takeProfits);
    var valid := Sanitize(p.side, p.entryPrice, stop, e.parsed.takeProfits);
    forall i | 0 <= i < |valid|
      ensures 0.0 < valid[i]
    {
      assert valid[i] in valid;
    }
    SettledIgnores(p, Update(p, e, cfg), worst);
  }

  lemma SettledIgnores(p: Position, q: Position, worst: real)
    requires SameDeal(p, q) && q.remaining == p.remaining && q.exitNotional == p.exitNotional
    ensures Settled(p, worst) <==> Settled(q, worst)
  {
  }

  lemma ManualCovered(p: Position, e: Event, candles: seq<Candle>, cfg: Config, worst: real)
    requires Sound(p, cfg) && Covered(p, worst) && e.parsed.action.CLOSE?
    requires 0.0 < RequestedFraction(e) ==> NoWorse(p.side, worst, ManualPrice(p, e.timestamp, candles))
    ensures match Follow(p, e, candles, cfg)
            case Keep(q) => Covered(q, worst)
            case End(t) => -t.pnl <= LossAt(p.side, p.entryPrice, worst, p.original, FeeRate(p.feeRatePct))
  {
    hide Sound, Covered, CloseFraction, Finalize, LossAt, ManualPrice, RequestedFraction, CloseStatus, Update,
      CloseRemaining;
    var price, f := ManualPrice(p, e.timestamp, candles), RequestedFraction(e);
    var q := CloseFraction(p, e.timestamp, price, f);
    CloseLeaves(p, e.timestamp, price, f, cfg);
    if 0.0 < f {
      CloseCovered(p, e.timestamp, price, f, worst);
    }
    if 1.0 <= f {
      ExitLoss(p, e.timestamp, price, CloseStatus(q), cfg, worst);
    } else {
      FlagsCovered(q, q.targetsHit, true, worst);
    }
  }

  /** An event that respects the price keeps the cover, or ends the position within the bound. */
  lemma TouchedCovered(p: Position, e: Event, candles: seq<Candle>, cfg: Config, worst: real)
    requires Sound(p, cfg) && Covered(p, worst) && Respects(p, e, candles, cfg, worst)
    ensures Bounded(p, Touched(p, e, candles, cfg), cfg, worst)
  {
    hide Sound, Covered, CloseFraction, Finalize, LossAt, ManualPrice, CloseRemaining, Update, ManualClose;
    FollowSound(p, e, candles, cfg);
    CoveredParts(p, worst);
    if ClosesAll(e) {
      ExitLoss(p, e.timestamp, ManualPrice(p, e.timestamp, candles), CloseStatus(p), cfg, worst);
    } else if e.parsed.action.CANCEL? {
      ExitLoss(p, e.timestamp, p.entryPrice, CancelStatus(p), cfg, worst);
    } else if e.parsed.action.CLOSE? {
      if e.relatedId == Some(p.signalId) { ManualCovered(p, e, candles, cfg, worst); }
    } else if !Opens(e) && e.relatedId == Some(p.signalId) && IsUpdate(e) {
      UpdateCovered(p, e, cfg, worst);
    }
  }

  /** Every event that meets the position alive respects the price. */
  ghost predicate Kept(p: Position, events: seq<Event>, i: nat, n: nat, candles: seq<Candle>, c: nat, cfg: Config,
                       policy: FillPolicy, worst: real)
    requires i <= n <= |events| && c <= |candles|
    decreases n - i
  {
    i < n ==>
      var d := Clock(candles, c, Some(events[i].timestamp));
      match Travel(p, candles, c, d, policy)
      case Over(_) => true
      case Alive(q) =>
        && Respects(q, events[i], candles, cfg, worst)
        && match Touched(q, events[i], candles, cfg)
           case Over(_) => true
           case Alive(r) => Kept(r, events, i + 1, n, candles, d, cfg, policy, worst)
  }

  lemma {:induction false} LifeCovered(p: Position, events: seq<Event>, i: nat, n: nat, candles: seq<Candle>, c: nat,
        cfg: Config, policy: FillPolicy, worst: real)
    requires i <= n <= |events| && c <= |candles| && Sound(p, cfg) && Covered(p, worst)
    requires Kept(p, events, i, n, candles, c, cfg, policy, worst)
    ensures Bounded(p, Life(p, events, i, n, candles, c, cfg, policy), cfg, worst)
    ensures Life(p, events, i, n, candles, c, cfg, policy).Alive? ==>
              ClosesNoWorse(p, candles, c, CursorAfter(events, i, n, candles, c), worst)
    decreases n - i
  {
    hide Sound, Covered, Travel, Touched, Respects, LossAt;
    if i < n {
      var d := Clock(candles, c, Some(events[i].timestamp));
      JourneyCovered(p, candles, c, d, policy, cfg, worst);
      match Travel(p, candles, c, d, policy)
      case Over(_) =>
      case Alive(q) =>
        TouchedCovered(q, events[i], candles, cfg, worst);
        match Touched(q, events[i], candles, cfg)
        case Over(_) =>
        case Alive(r) => LifeCovered(r, events, i + 1, n, candles, d, cfg, policy, worst);
    }
  }

  lemma FateCovered(p: Position, events: seq<Event>, i: nat, candles: seq<Candle>, c: nat, cfg: Config,
                    policy: FillPolicy, worst: real)
    requires i <= |events| && c <= |candles| && Sound(p, cfg) && Covered(p, worst)
    requires Kept(p, events, i, |events|, candles, c, cfg, policy, worst)
    ensures Bounded(p, Fate(p, events, i, candles, c, cfg, policy), cfg, worst)
    ensures Fate(p, events, i, candles, c, cfg, policy).Alive? ==> ClosesNoWorse(p, candles, c, |candles|, worst)
  {
    hide Sound, Covered, Travel, LossAt, Life, Kept;
    LifeCovered(p, events, i, |events|, candles, c, cfg, policy, worst);
    match Life(p, events, i, |events|, candles, c, cfg, policy)
    case Over(_) =>
    case Alive(q) =>
      JourneyCovered(q, candles, CursorAfter(events, i, |events|, candles, c), |candles|, policy, cfg, worst);
  }

  /** Closing at the end: at the last exit price, or at a close that was no worse than the stop. */
  lemma EndCovered(q: Position, candles: seq<Candle>, cfg: Config, worst: real)
    requires Sound(q, cfg) && Covered(q, worst)
    requires NoWorse(q.side, worst, LastPrice(candles, q.market, q.entryPrice))
    ensures -EndTrade(q, candles).pnl <= LossAt(q.side, q.entryPrice, worst, q.original, FeeRate(q.feeRatePct))
  {
    hide Sound, CloseRemaining, LastPrice, Settled, LossAt;
    var at, price := FinalTime(q, candles), FinalPrice(q, candles);
    ExitLoss(q, at, price, OpenUntilEnd, cfg, worst);
    ExitLoss(q, at, price, PartialTpOpenUntilEnd, cfg, worst);
  }

  // ---- the bound over a run ----

  /** A signal without a stop of its own opens covered, and its loss at the stop fits the budget. */
  lemma OpenedCovered(e: Event, market: MarketKey, open: seq<Position>, balance: real, candles: seq<Candle>,
        cfg: Config)
    requires e.parsed.stopLoss.None? && 0.0 < cfg.syntheticMaxLossPct
    requires Decide(e, market, open, balance, candles, cfg).Filled?
    ensures var p := Decide(e, market, open, balance, candles, cfg).position;
            && Covered(p, p.stopLoss) && p.balanceAtEntry == balance
            && LossAt(p.side, p.entryPrice, p.stopLoss, p.original, FeeRate(p.feeRatePct)) <=
               RiskBudget(balance, cfg.syntheticMaxLossPct)
  {
    hide FindEntry, OrderQuantity, CapSynthetic, Sanitize, LossAt, RiskBudget, Amount;
    var fill := FindEntry(e.parsed, market, e.timestamp, candles).value;
    var quantity := OrderQuantity(e, open, balance, fill.price, cfg).value;
    var stop := DefaultStop(e.parsed.side, fill.price, cfg);
    var r := Protect(e.parsed, fill.price, quantity, balance, cfg).value;
    OrderNeedsBalance(e, open, balance, fill.price, cfg);
    DefaultStopSide(e.parsed.side, fill.price, cfg);
    CapSyntheticShrinks(e.parsed.side, fill.price, stop, quantity, balance, cfg.feeRatePct, cfg.syntheticMaxLossPct);
    SyntheticFits(e.parsed.side, fill.price, stop, quantity, balance, cfg.feeRatePct, cfg.syntheticMaxLossPct);
    SanitizeIsLadder(e.parsed.side, fill.price, r.stop, e.parsed.takeProfits);
    var tps := Sanitize(e.parsed.side, fill.price, r.stop, e.parsed.takeProfits);
    forall i | 0 <= i < |tps|
      ensures 0.0 < tps[i]
    {
      assert tps[i] in tps;
    }
    NothingTaken(r.stop);
  }

  lemma OrderNeedsBalance(e: Event, open: seq<Position>, balance: real, entry: Price, cfg: Config)
    requires OrderQuantity(e, open, balance, entry, cfg).Some?
    ensures 0.0 < balance
  {
    hide FitMargin, QuantizeHalfEven, AllocationPct;
  }

  lemma DefaultStopSide(side: Side, entry: Price, cfg: Config)
    ensures NoWorse(side, DefaultStop(side, entry, cfg), entry)
  {
    var pct := Max(cfg.defaultStopPct, 0.0) / 100.0;
    Scale(entry, 1.0 - pct, 1.0);
    Scale(entry, 1.0, 1.0 + pct);
  }

  /** A quantity that is not positive stays so, and is refused later. */
  lemma CapSyntheticShrinks(side: Side, entry: Price, stop: real, quantity: real, balance: real,
                            feeRatePct: FeePct, maxLossPct: real)
    ensures quantity <= 0.0 ==>
              CapSynthetic(side, entry, stop, quantity, balance, feeRatePct, maxLossPct).quantity <= 0.0
  {
  }

  /** The last candle of a position's market is one it has faced, if any candle opened it. */
  lemma LastIsFaced(p: Position, candles: seq<Candle>, entry: nat)
    requires CandlesOrdered(candles) && entry < |candles|
    requires SameMarket(candles[entry].market, p.market) && candles[entry].openTime == p.entryTime
    ensures var k := LastIndex(candles, |candles|, p.market);
            k.Some? && entry <= k.value && Relevant(p, candles[k.value])
  {
  }

  lemma {:induction false} EndTradeAt(open: seq<Position>, candles: seq<Candle>, id: string, t: Trade)
    requires t in EndTrades(open, candles) && t.signalId == id && Unique(OpenBag(open))
    ensures At(open, id).Some? && t == EndTrade(At(open, id).value, candles)
    decreases |open|
  {
    hide CloseRemaining;
    var p := open[0];
    assert open == [p] + open[1..];
    UniqueRest(p, open[1..]);
    if t != EndTrade(p, candles) {
      EndTradeAt(open[1..], candles, id, t);
      AtInBag(open[1..], id);
    } else {
    }
  }

  lemma {:induction false} TradeInBag(trades: seq<Trade>, t: Trade)
    requires t in trades
    ensures t.signalId in TradeBag(trades)
  {
    var i :| 0 <= i < |trades| && trades[i] == t;
    TradeBagRecorded(trades, t.signalId);
  }

  lemma {:induction false} OneTradePerId(trades: seq<Trade>, s: Trade, t: Trade)
    requires s in trades && t in trades && s.signalId == t.signalId && Unique(TradeBag(trades))
    ensures s == t
    decreases |trades|
  {
    var rest := trades[1..];
    assert trades == [trades[0]] + rest;
    BagCons(trades[0], rest);
    assert TradeBag(trades)[trades[0].signalId] <= 1;
    assert Unique(TradeBag(rest)) by {
      forall x
        ensures TradeBag(rest)[x] <= 1
      {
        assert TradeBag(trades)[x] <= 1;
      }
    }
    if s in rest { TradeInBag(rest, s); }
    if t in rest { TradeInBag(rest, t); }
    if s in rest && t in rest {
      OneTradePerId(rest, s, t);
    }
  }

  /** The entry candle is at or ahead of the cursor at the opening. */
  lemma OpenedEntry(events: seq<Event>, k: nat, candles: seq<Candle>, cfg: Config, policy: FillPolicy)
    returns (entry: nat)
    requires k < |events| && Opens(events[k]) && OpenedBy(events, k, candles, cfg, policy).Filled?
    requires DistinctOpens(events) && EventsOrdered(events) && CandlesOrdered(candles)
    ensures var p := OpenedBy(events, k, candles, cfg, policy).position;
            && BookAfter(events, k + 1, candles, cfg, policy).cursor <= entry < |candles|
            && SameMarket(candles[entry].market, p.market) && candles[entry].openTime == p.entryTime
  {
    hide OrderQuantity, Protect, Sanitize, SweepBook, BookAfter;
    var e := events[k];
    var b := BookAfter(events, k, candles, cfg, policy);
    var s := SweepBook(b, candles, Some(e.timestamp), policy);
    OpenedStands(events, k, candles, cfg, policy);
    CursorInPast(events, k, candles, cfg, policy, e.timestamp);
    SweptInPast(b, candles, e.timestamp, policy);
    MissedExactly(e, e.parsed.symbol.value, s.open, s.balance, candles, cfg, s.cursor);
    entry := EntryIndex(e.parsed, e.parsed.symbol.value, e.timestamp, candles, 0).value;
  }

  lemma SweptInPast(b: Book, candles: seq<Candle>, time: int, policy: FillPolicy)
    requires PastClosed(candles, b.cursor, time)
    ensures PastClosed(candles, SweepBook(b, candles, Some(time), policy).cursor, time)
  {
    SweepPasses(b.open, candles, b.cursor, time, policy);
  }

  /** The loss bound over a run: if nothing that an event does while the signal is open is worse than some price,
      neither a manual close nor a stop, then the signal loses, net of entry and exit fees, at most what its whole
      quantity loses there; whatever targets, leverage, partial closes and cancels it meets. */
  lemma {:induction false} LossAtMostAtStop(events: seq<Event>, k: nat, candles: seq<Candle>, cfg: Config,
        policy: FillPolicy, t: Trade, worst: real)
    requires k < |events| && Opens(events[k]) && OpenedBy(events, k, candles, cfg, policy).Filled?
    requires Covered(OpenedBy(events, k, candles, cfg, policy).position, worst)
    requires KeptInRun(events, k, candles, cfg, policy, worst)
    requires DistinctOpens(events) && EventsOrdered(events) && CandlesOrdered(candles)
    requires t in RunSorted(events, candles, cfg, policy).trades && t.signalId == events[k].signalId
    ensures var p := OpenedBy(events, k, candles, cfg, policy).position;
            -t.pnl <= LossAt(p.side, p.entryPrice, worst, p.original, FeeRate(p.feeRatePct))
  {
    hide Sound, Covered, Travel, OpenedBy, SweepBook, EndTrades, LossAt, BookAfter, Decide, RiskBudget, EndTrade;
    hide LastPrice, Kept, Fate;
    var p := OpenedBy(events, k, candles, cfg, policy).position;
    var start := BookAfter(events, k + 1, candles, cfg, policy).cursor;
    var s := SweptBook(events, candles, cfg, policy);
    OpenedFresh(events, k, candles, cfg, policy);
    OpenedStands(events, k, candles, cfg, policy);
    NoCandleMissed(events, k, candles, cfg, policy);
    FateCovered(p, events, k + 1, candles, start, cfg, policy, worst);
    LedgerConserved(events, candles, cfg, policy);
    FinalUnique(events, candles, cfg, policy);
    match Fate(p, events, k + 1, candles, start, cfg, policy)
    case Over(o) =>
      assert o in RunSorted(events, candles, cfg, policy).trades;
      OneTradePerId(RunSorted(events, candles, cfg, policy).trades, o, t);
    case Alive(q) =>
      FinalSplit(events, candles, cfg, policy, p.signalId, t);
      EndTradeAt(s.open, candles, p.signalId, t);
      assert t == EndTrade(q, candles);
      var entry := OpenedEntry(events, k, candles, cfg, policy);
      LastIsFaced(p, candles, entry);
      LastNoWorse(p, candles, start, worst);
      EndCovered(q, candles, cfg, worst);
  }

  /** While the signal that event k opened is open, every event respects the price. */
  ghost predicate KeptInRun(events: seq<Event>, k: nat, candles: seq<Candle>, cfg: Config, policy: FillPolicy,
                            worst: real)
    requires k < |events| && Opens(events[k]) && OpenedBy(events, k, candles, cfg, policy).Filled?
  {
    Kept(OpenedBy(events, k, candles, cfg, policy).position, events, k + 1, |events|, candles,
         BookAfter(events, k + 1, candles, cfg, policy).cursor, cfg, policy, worst)
  }

  /** A signal opened on a synthetic stop loses, net of entry and exit fees, at most the configured share of the
      balance at entry, as long as no event closes it at a worse price or leaves it a worse stop. */
  lemma {:induction false} LossIsBounded(events: seq<Event>, k: nat, candles: seq<Candle>, cfg: Config,
        policy: FillPolicy, t: Trade)
    requires k < |events| && Opens(events[k]) && OpenedBy(events, k, candles, cfg, policy).Filled?
    requires events[k].parsed.stopLoss.None? && 0.0 < cfg.syntheticMaxLossPct
    requires KeptInRun(events, k, candles, cfg, policy, OpenedBy(events, k, candles, cfg, policy).position.stopLoss)
    requires DistinctOpens(events) && EventsOrdered(events) && CandlesOrdered(candles)
    requires t in RunSorted(events, candles, cfg, policy).trades && t.signalId == events[k].signalId
    ensures -t.pnl
         <= RiskBudget(OpenedBy(events, k, candles, cfg, policy).position.balanceAtEntry, cfg.syntheticMaxLossPct)
  {
    hide Covered, OpenedBy, LossAt, RiskBudget, RunSorted, KeptInRun;
    RunOpensCovered(events, k, candles, cfg, policy);
    LossAtMostAtStop(events, k, candles, cfg, policy, t, OpenedBy(events, k, candles, cfg, policy).position.stopLoss);
  }

  /** A signal that no event touches while it is open is kept at its own stop. */
  lemma {:induction false} LeftAloneIsKept(events: seq<Event>, k: nat, i: nat, candles: seq<Candle>, cfg: Config,
        policy: FillPolicy, p: Position, worst: real)
    requires k < i <= |events| && DistinctOpens(events)
    requires LeftAlone(events, k, |events|, candles, cfg, policy, p.signalId)
    requires At(BookAfter(events, i, candles, cfg, policy).open, p.signalId) == Some(p)
    requires Sound(p, cfg) && Covered(p, worst)
    ensures Kept(p, events, i, |events|, candles, BookAfter(events, i, candles, cfg, policy).cursor, cfg, policy, worst)
    decreases |events| - i
  {
    hide SweepBook, BookAfter, ApplyEvent, At, Travel, Follow, CloseFully, Sound, Covered, LeftAlone;
    if i < |events| {
      var id, e := p.signalId, events[i];
      var b := BookAfter(events, i, candles, cfg, policy);
      var s := SweepBook(b, candles, Some(e.timestamp), policy);
      SweptStands(events, i, candles, Some(e.timestamp), cfg, policy, id);
      NextBook(events, i, candles, cfg, policy);
      JourneyCovered(p, candles, b.cursor, s.cursor, policy, cfg, worst);
      match Travel(p, candles, b.cursor, s.cursor, policy)
      case Over(t) =>
      case Alive(q) =>
        NotTouched(events, k, i, candles, cfg, policy, id);
        CoveredParts(q, worst);
        UniqueSwept(events, i, candles, Some(e.timestamp), cfg, policy);
        EventProjects(e, s.open, s.balance, candles, cfg, q);
        LeftAloneIsKept(events, k, i + 1, candles, cfg, policy, q, worst);
    }
  }

  lemma NotTouched(events: seq<Event>, k: nat, i: nat, candles: seq<Candle>, cfg: Config, policy: FillPolicy,
                   id: string)
    requires k < i < |events| && LeftAlone(events, k, |events|, candles, cfg, policy, id)
    requires At(SweepBook(BookAfter(events, i, candles, cfg, policy), candles, Some(events[i].timestamp), policy).open,
                id).Some?
    ensures !Touches(events[i], id)
  {
    hide BookAfter, SweepBook, At, Touches;
  }

  lemma RunOpensCovered(events: seq<Event>, k: nat, candles: seq<Candle>, cfg: Config, policy: FillPolicy)
    requires k < |events| && Opens(events[k]) && OpenedBy(events, k, candles, cfg, policy).Filled?
    requires events[k].parsed.stopLoss.None? && 0.0 < cfg.syntheticMaxLossPct
    ensures var p := OpenedBy(events, k, candles, cfg, policy).position;
            && Covered(p, p.stopLoss)
            && LossAt(p.side, p.entryPrice, p.stopLoss, p.original, FeeRate(p.feeRatePct)) <=
               RiskBudget(p.balanceAtEntry, cfg.syntheticMaxLossPct)
  {
    hide Decide, Covered, LossAt, SweepBook, RiskBudget;
    var b := SweepBook(BookAfter(events, k, candles, cfg, policy), candles, Some(events[k].timestamp), policy);
    OpenedCovered(events[k], events[k].parsed.symbol.value, b.open, b.balance, candles, cfg);
  }

  lemma LastNoWorse(p: Position, candles: seq<Candle>, start: nat, worst: real)
    requires ClosesNoWorse(p, candles, start, |candles|, worst)
    requires var k := LastIndex(candles, |candles|, p.market);
             k.Some? && start <= k.value && Relevant(p, candles[k.value])
    ensures NoWorse(p.side, worst, LastPrice(candles, p.market, p.entryPrice))
  {
  }

  lemma FinalUnique(events: seq<Event>, candles: seq<Candle>, cfg: Config, policy: FillPolicy)
    requires DistinctOpens(events)
    ensures var s := SweptBook(events, candles, cfg, policy);
            && Unique(OpenBag(s.open) + TradeBag(s.trades)) && Unique(OpenBag(s.open))
            && RunSorted(events, candles, cfg, policy).trades == s.trades + EndTrades(s.open, candles)
  {
    hide BookAfter, SweepBook, EndTrades;
    var n := |events|;
    var b := BookAfter(events, n, candles, cfg, policy);
    BookBalanced(events, n, candles, cfg, policy);
    SweepBalanced(b, OpenedBag(events, n), candles, None, cfg, policy);
    OpenedBagUnique(events, n);
    var s := SweptBook(events, candles, cfg, policy);
    UniquePart(OpenBag(s.open), TradeBag(s.trades), OpenedBag(events, n));
  }

  /** The trade of a signal that is still open at the end is made by the final closing. */
  lemma FinalSplit(events: seq<Event>, candles: seq<Candle>, cfg: Config, policy: FillPolicy, id: string, t: Trade)
    requires DistinctOpens(events) && t in RunSorted(events, candles, cfg, policy).trades && t.signalId == id
    requires At(SweptBook(events, candles, cfg, policy).open, id).Some?
    ensures t in EndTrades(SweptBook(events, candles, cfg, policy).open, candles)
  {
    hide SweptBook, EndTrades;
    FinalUnique(events, candles, cfg, policy);
    var s := SweptBook(events, candles, cfg, policy);
    AtInBag(s.open, id);
    NotInBoth(OpenBag(s.open), TradeBag(s.trades), id);
    if t in s.trades {
      TradeInBag(s.trades, t);
    }
  }

  lemma NotInBoth(a: multiset<string>, b: multiset<string>, id: string)
    requires Unique(a + b) && id in a
    ensures id !in b
  {
    assert (a + b)[id] <= 1;
  }
}
