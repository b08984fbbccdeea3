/** What an update leaves behind: stop, targets and leverage. */
module Updates {
  import opened Core
  import opened Market
  import opened Positions
  import opened Sizing
  import opened Events
  import opened Accounting
  import opened ExplicitStop

  /** A requested stop is taken over unless a cap is in force and the loss of what is left would exceed the budget
      there; stops at or below zero are not looked at. */
  predicate Accepts(p: Position, stop: real, cfg: Config)
  {
    || cfg.maxStopLossPct.None? || stop <= 0.0 || p.balanceAtEntry <= 0.0
    || NetLossAtStop(p.side, p.entryPrice, stop, p.remaining, FeeRate(p.feeRatePct))
       <= RiskBudget(p.balanceAtEntry, cfg.maxStopLossPct.value)
  }

  lemma AcceptsExactly(p: Position, stop: real, cfg: Config)
    requires 0.0 < p.remaining
    ensures UnsafeStop(p, stop, cfg) <==> !Accepts(p, stop, cfg)
  {
    hide NetLossAtStop, RiskBudget, FeeRate;
    if cfg.maxStopLossPct.Some? && 0.0 < stop && 0.0 < p.balanceAtEntry {
      hide ClampStop;
      ClampIsNearestSafe(p.side, p.entryPrice, stop, p.remaining, p.balanceAtEntry, p.feeRatePct,
                         cfg.maxStopLossPct.value);
    }
  }

  /** The actions that carry a stop, targets or leverage. */
  predicate CarriesStop(a: Action) { a in {Action.UPDATE_SL, Action.UPDATE_TP, Action.UPDATE_ENTRY} }

  predicate CarriesTargets(a: Action) { a in {Action.UPDATE_TP, Action.UPDATE_ENTRY} }

  predicate CarriesLeverage(a: Action) { a in {Action.UPDATE_LEVERAGE, Action.UPDATE_ENTRY} }

  /** The stop after an update: at entry if it is to move there, else the accepted one, else the old one. */
  predicate StopLeft(p: Position, q: Position, e: Event, cfg: Config)
  {
    if e.moveStopToEntry then q.stopLoss == p.entryPrice
    else
      match e.parsed.stopLoss
      case None => q.stopLoss == p.stopLoss
      case Some(stop) =>
        q.stopLoss == if CarriesStop(e.parsed.action) && Accepts(p, stop, cfg) then stop else p.stopLoss
  }

  /** The targets after an update: those already taken, then exactly the acceptable new ones in their order, if there
      are any; else the old ones. */
  ghost predicate TargetsLeft(p: Position, q: Position, e: Event)
  {
    if CarriesTargets(e.parsed.action)
       && exists x :: x in e.parsed.takeProfits && Acceptable(p.side, p.entryPrice, q.stopLoss, x)
    then
      && p.targetsHit <= |q.takeProfits| && p.targetsHit <= |p.takeProfits|
      && q.takeProfits[..p.targetsHit] == p.takeProfits[..p.targetsHit]
      && Ladder(p.side, p.entryPrice, q.takeProfits[p.targetsHit..])
      && forall x :: x in q.takeProfits[p.targetsHit..]
           <==> x in e.parsed.takeProfits && Acceptable(p.side, p.entryPrice, q.stopLoss, x)
    else q.takeProfits == p.takeProfits
  }

  /** The leverage after an update: the requested one is declared, and takes effect up to the maximum. */
  predicate LeverageLeft(p: Position, q: Position, e: Event, cfg: Config)
  {
    match e.parsed.leverage
    case Some(n) =>
      if CarriesLeverage(e.parsed.action) then
        && q.declaredLeverage == Some(n)
        && 1.0 <= q.effectiveLeverage
        && q.effectiveLeverage
           == if cfg.maxEffectiveLeverage.Some? && cfg.maxEffectiveLeverage.value < n as real
              then Max(cfg.maxEffectiveLeverage.value, 1.0) else n as real
      else q.declaredLeverage == p.declaredLeverage && q.effectiveLeverage == p.effectiveLeverage
    case None => q.declaredLeverage == p.declaredLeverage && q.effectiveLeverage == p.effectiveLeverage
  }

  /** A target update with a stop that is not accepted is void as a whole. */
  predicate Void(p: Position, e: Event, cfg: Config)
  {
    && !e.moveStopToEntry && e.parsed.action.UPDATE_TP? && e.parsed.stopLoss.Some?
    && !Accepts(p, e.parsed.stopLoss.value, cfg)
  }

  /** What any update leaves of a sound position: stop, targets and leverage as above, everything else as it was. */
  lemma {:induction false} UpdateLeaves(p: Position, e: Event, cfg: Config)
    requires Sound(p, cfg)
    ensures var q := Update(p, e, cfg);
            && q == p.(stopLoss := q.stopLoss, takeProfits := q.takeProfits, declaredLeverage := q.declaredLeverage,
                       effectiveLeverage := q.effectiveLeverage)
            && if Void(p, e, cfg) then q == p
               else StopLeft(p, q, e, cfg) && TargetsLeft(p, q, e) && LeverageLeft(p, q, e, cfg)
  {
    hide Sanitize, UnsafeStop, Ladder, Accepts, Acceptable, Accounts;
    if e.parsed.stopLoss.Some? { AcceptsExactly(p, e.parsed.stopLoss.value, cfg); }
    if !Void(p, e, cfg) {
      var stop := NewStop(p, e, cfg);
      SanitizeIsLadder(p.side, p.entryPrice, stop, e.parsed.takeProfits);
      TargetsJoin(p, Update(p, e, cfg), Sanitize(p.side, p.entryPrice, stop, e.parsed.takeProfits), e);
    }
  }

  lemma TargetsJoin(p: Position, q: Position, valid: seq<real>, e: Event)
    requires p.targetsHit <= |p.takeProfits| && Ladder(p.side, p.entryPrice, valid)
    requires forall x :: x in valid <==> x in e.parsed.takeProfits && Acceptable(p.side, p.entryPrice, q.stopLoss, x)
    requires q.takeProfits == if CarriesTargets(e.parsed.action) && e.parsed.takeProfits != [] && valid != []
                              then p.takeProfits[..p.targetsHit] + valid else p.takeProfits
    ensures TargetsLeft(p, q, e)
  {
    hide Ladder;
    if valid != [] {
      var x := valid[0];
      assert x in valid && Acceptable(p.side, p.entryPrice, q.stopLoss, x);
      assert (p.takeProfits[..p.targetsHit] + valid)[p.targetsHit..] == valid;
      assert (p.takeProfits[..p.targetsHit] + valid)[..p.targetsHit] == p.takeProfits[..p.targetsHit];
    }
  }

  /** An event that is neither a cancel nor a close keeps the position, updated if the event updates anything. */
  lemma FollowUpdates(p: Position, e: Event, candles: seq<Candle>, cfg: Config)
    requires Sound(p, cfg) && !e.parsed.action.CANCEL? && !e.parsed.action.CLOSE?
    ensures Follow(p, e, candles, cfg) == Keep(Update(p, e, cfg))
  {
    hide Sanitize, UnsafeStop, Accounts;
    if !IsUpdate(e) {
      UpdateLeaves(p, e, cfg);
    }
  }
}
