/** The mutable position record, method by method against the functions of Positions. */
module OpenPositions {
  import opened Core
  import opened Market
  import opened Positions
  import opened Sizing
  import Events

  class OpenPosition {
    const signalId: string
    const market: MarketKey
    const side: Side
    const entryPrice: Price
    const original: real
    const entryTime: int
    const balanceAtEntry: real
    const feeRatePct: FeePct
    var stopLoss: real
    var takeProfits: seq<real>
    var remaining: real
    var realizedPnl: real
    var realizedFees: real
    var exitPrice: Option<real>
    var exitTime: Option<int>
    var targetsHit: nat
    var manualPartialExit: bool
    var declaredLeverage: Option<Positive>
    var effectiveLeverage: real
    var exitNotional: real

    /** The record as a value. */
    function View(): Position
      reads this
    {
      Position(signalId, market, side, entryPrice, stopLoss, takeProfits, original, remaining,
               entryTime, realizedPnl, realizedFees, exitPrice, exitTime, targetsHit,
               manualPartialExit, balanceAtEntry, declaredLeverage, effectiveLeverage, feeRatePct,
               exitNotional)
    }

    constructor (p: Position)
      ensures View() == p
    {
      signalId, market, side, entryPrice := p.signalId, p.market, p.side, p.entryPrice;
      original, entryTime, balanceAtEntry := p.original, p.entryTime, p.balanceAtEntry;
      feeRatePct, stopLoss, takeProfits := p.feeRatePct, p.stopLoss, p.takeProfits;
      remaining, realizedPnl, realizedFees := p.remaining, p.realizedPnl, p.realizedFees;
      exitPrice, exitTime, targetsHit := p.exitPrice, p.exitTime, p.targetsHit;
      manualPartialExit, declaredLeverage := p.manualPartialExit, p.declaredLeverage;
      effectiveLeverage, exitNotional := p.effectiveLeverage, p.exitNotional;
    }

    method CloseFraction(at: int, price: real, fraction: real)
      modifies this
      ensures View() == Positions.CloseFraction(old(View()), at, price, fraction)
    {
      ghost var was := View();
      var effective := Min(Max(fraction, 0.0), 1.0);
      if effective <= 0.0 || remaining <= 0.0 {
        return;
      }
      var quantity := remaining * effective;
      if 1.0 <= effective || remaining < quantity {
        quantity := remaining;
      }
      assert quantity == ClosedQuantity(was, fraction);
      assert Positions.CloseFraction(was, at, price, fraction) == TakeOff(was, at, price, quantity);
      hide Pnl, Min, ClosedQuantity;
      var pnl := Pnl(View(), price, quantity);
      var exitFee := if 0.0 < feeRatePct then price * quantity * feeRatePct / 100.0 else 0.0;
      assert exitFee == ExitFee(was, price, quantity);
      hide ExitFee, Max;
      ghost var taken := TakeOff(was, at, price, quantity);
      assert taken == was.(realizedPnl := realizedPnl + pnl, realizedFees := realizedFees + exitFee,
                           exitNotional := exitNotional + price * quantity, exitTime := Some(at),
                           exitPrice := Some(price), remaining := Max(remaining - quantity, 0.0));
      hide TakeOff;
      realizedPnl := realizedPnl + pnl;
      realizedFees := realizedFees + exitFee;
      exitNotional := exitNotional + price * quantity;
      remaining := Max(remaining - quantity, 0.0);
      exitTime := Some(at);
      exitPrice := Some(price);
      assert View() == taken;
    }

    method ApplyTakeProfitHits(at: int, tps: seq<real>)
      modifies this
      ensures View() == TakeTargets(old(View()), at, tps)
    {
      hide Positions.CloseFraction, Pending;
      var i := 0;
      while i < |tps|
        invariant 0 <= i <= |tps|
        invariant TakeTargets(old(View()), at, tps) == TakeTargets(View(), at, tps[i..])
      {
        if remaining <= 0.0 {
          return;
        }
        var left := |Pending(View())|;
        var fraction := if left <= 1 then 1.0 else 1.0 / left as real;
        CloseFraction(at, tps[i], fraction);
        targetsHit := targetsHit + 1;
        assert tps[i..][1..] == tps[i + 1..];
        i := i + 1;
      }
    }

    method HitTakeProfits(c: Candle) returns (hits: seq<real>)
      ensures hits == HitTargets(View(), c, Pending(View()))
    {
      var pending := Pending(View());
      hits := [];
      var i := |pending|;
      while 0 < i
        invariant 0 <= i <= |pending|
        invariant hits == HitTargets(View(), c, pending[i..])
      {
        i := i - 1;
        assert pending[i..][1..] == pending[i + 1..];
        hits := (if HitTarget(View(), c, pending[i]) then [pending[i]] else []) + hits;
      }
    }

    method ApplyCandle(c: Candle, policy: FillPolicy) returns (status: Option<Status>)
      modifies this
      ensures Outcome(View(), status) == Positions.ApplyCandle(old(View()), c, policy)
    {
      var hitStop := HitStop(View(), c);
      var hits := HitTakeProfits(c);
      if hitStop && hits != [] {
        if policy.CONSERVATIVE? {
          CloseFraction(c.closeTime, stopLoss, 1.0);
          return Some(SlStatus(View(), true));
        }
        ApplyTakeProfitHits(c.closeTime, hits);
        if 0.0 < remaining {
          CloseFraction(c.closeTime, stopLoss, 1.0);
          return Some(SlStatus(View(), true));
        }
        return Some(TpStatus(View(), true));
      }
      if hits != [] {
        ApplyTakeProfitHits(c.closeTime, hits);
        if remaining <= 0.0 {
          return Some(TpStatus(View(), false));
        }
      }
      if hitStop && 0.0 < remaining {
        CloseFraction(c.closeTime, stopLoss, 1.0);
        return Some(SlStatus(View(), false));
      }
      return None;
    }

    method CloseRemaining(at: int, price: real, status: Status) returns (t: Trade)
      modifies this
      ensures t == Positions.CloseRemaining(old(View()), at, price, status)
    {
      if 0.0 < remaining {
        CloseFraction(at, price, 1.0);
      }
      t := Finalize(View(), status);
    }

    /** Moves the stop; tells whether an unsafe stop rejects the whole update. */
    method UpdateStop(e: Event, cfg: Config) returns (rejected: bool)
      modifies this
      ensures rejected == Events.RejectsUpdate(old(View()), e, cfg)
      ensures View() == old(View()).(
                stopLoss := if rejected then old(stopLoss) else Events.NewStop(old(View()), e, cfg))
    {
      hide ClampStop;
      rejected := false;
      if e.moveStopToEntry {
        stopLoss := entryPrice;
      } else if Events.HandlesStop(e.parsed.action) && e.parsed.stopLoss.Some? {
        var requested := e.parsed.stopLoss.value;
        if cfg.maxStopLossPct.Some? {
          var safe := ClampStop(side, entryPrice, requested, remaining, balanceAtEntry, feeRatePct,
                                cfg.maxStopLossPct.value);
          if safe != requested {
            rejected := e.parsed.action.UPDATE_TP?;
          } else {
            stopLoss := requested;
          }
        } else {
          stopLoss := requested;
        }
      }
    }

    /** Replaces the targets still to come, unless none of the new ones is usable. */
    method UpdateTargets(e: Event)
      modifies this
      ensures View() == old(View()).(takeProfits := Events.NewTargets(old(View()), old(stopLoss), e))
    {
      hide Sanitize;
      if Events.HandlesTargets(e.parsed.action) && e.parsed.takeProfits != [] {
        var valid := SanitizeTakeProfits(side, entryPrice, stopLoss, e.parsed.takeProfits);
        if valid != [] {
          takeProfits := takeProfits[..MinInt(targetsHit, |takeProfits|)] + valid;
        }
      }
    }

    method UpdateLeverage(e: Event, cfg: Config)
      modifies this
      ensures View() == Events.UpdateLeverage(old(View()), e, cfg)
    {
      if Events.HandlesLeverage(e.parsed.action) && e.parsed.leverage.Some? {
        var requested := e.parsed.leverage.value as real;
        var effective := if cfg.maxEffectiveLeverage.Some? then Min(requested, cfg.maxEffectiveLeverage.value)
                         else requested;
        declaredLeverage := e.parsed.leverage;
        effectiveLeverage := Max(effective, 1.0);
      }
    }

    /** A post-entry update, with the safety rules of live trading. */
    method ApplyLiveStyleUpdate(e: Event, cfg: Config)
      modifies this
      ensures View() == Events.Update(old(View()), e, cfg)
    {
      hide Events.NewTargets, Events.NewStop, Events.RejectsUpdate, Events.UpdateLeverage;
      var rejected := UpdateStop(e, cfg);
      if rejected {
        return;
      }
      ghost var stop := stopLoss;
      UpdateTargets(e);
      assert View() == old(View()).(stopLoss := stop, takeProfits := Events.NewTargets(old(View()), stop, e)) by {
        TargetsIgnoreStop(old(View()), stop, e);
      }
      UpdateLeverage(e, cfg);
    }
  }

  /** The new targets depend on the stop they are given, not on the one the record holds. */
  lemma TargetsIgnoreStop(p: Position, stop: real, e: Event)
    ensures Events.NewTargets(p.(stopLoss := stop), stop, e) == Events.NewTargets(p, stop, e)
  {
    hide Sanitize;
  }
}
