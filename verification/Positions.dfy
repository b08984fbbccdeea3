/** One leveraged position: what candles, targets, stops and closes do to it. */
module Positions {
  import opened Core
  import opened Market

  datatype Status =
    | NotFilled
    | TpHit | TpHitSameCandle | PartialTpComplete | PartialCloseThenTp
    | SlHit | SlHitSameCandle | PartialTpThenSl | PartialCloseThenSl
    | Closed | PartialTpThenClose
    | Cancelled | PartialTpThenCancel
    | OpenUntilEnd | PartialTpOpenUntilEnd

  datatype Position = Position(
    signalId: string, market: MarketKey, side: Side, entryPrice: Price, stopLoss: real,
    takeProfits: seq<real>, original: real, remaining: real, entryTime: int,
    realizedPnl: real, realizedFees: real, exitPrice: Option<real>, exitTime: Option<int>,
    targetsHit: nat, manualPartialExit: bool, balanceAtEntry: real,
    declaredLeverage: Option<Positive>, effectiveLeverage: real, feeRatePct: FeePct,
    exitNotional: real)

  datatype Trade = Trade(
    signalId: string, market: MarketKey, side: Side, entryTime: Option<int>, exitTime: Option<int>,
    entryPrice: Option<real>, exitPrice: Option<real>, quantity: real, pnl: real, pnlPct: real,
    fees: real, status: Status)

  // ---- reading a position ----

  function Pending(p: Position): seq<real>
  {
    if p.targetsHit <= |p.takeProfits| then p.takeProfits[p.targetsHit..] else []
  }

  predicate HitStop(p: Position, c: Candle)
  {
    if p.side.Short? then p.stopLoss <= c.high else c.low <= p.stopLoss
  }

  predicate HitTarget(p: Position, c: Candle, tp: real)
  {
    if p.side.Short? then c.low <= tp else tp <= c.high
  }

  function HitTargets(p: Position, c: Candle, tps: seq<real>): seq<real>
    decreases |tps|
  {
    if tps == [] then []
    else (if HitTarget(p, c, tps[0]) then [tps[0]] else []) + HitTargets(p, c, tps[1..])
  }

  function Pnl(p: Position, exitPrice: real, quantity: real): real
  {
    (exitPrice - p.entryPrice) * quantity * Direction(p.side)
  }

  function ExitFee(p: Position, exitPrice: real, quantity: real): real
  {
    if 0.0 < p.feeRatePct then exitPrice * quantity * p.feeRatePct / 100.0 else 0.0
  }

  function ClosedQuantity(p: Position, fraction: real): real
  {
    var f := Min(Max(fraction, 0.0), 1.0);
    var q := p.remaining * f;
    if 1.0 <= f || p.remaining < q then p.remaining else q
  }

  // ---- changing a position ----

  /** The terms fixed at entry. */
  predicate SameDeal(p: Position, q: Position)
  {
    && q.signalId == p.signalId && q.market == p.market && q.side == p.side
    && q.entryPrice == p.entryPrice && q.original == p.original && q.entryTime == p.entryTime
    && q.balanceAtEntry == p.balanceAtEntry && q.feeRatePct == p.feeRatePct
  }

  /** Takes a quantity off the position at a price. */
  function TakeOff(p: Position, at: int, price: real, quantity: real): Position
  {
    p.(realizedPnl := p.realizedPnl + Pnl(p, price, quantity),
       realizedFees := p.realizedFees + ExitFee(p, price, quantity),
       exitNotional := p.exitNotional + price * quantity,
       remaining := Max(p.remaining - quantity, 0.0),
       exitTime := Some(at),
       exitPrice := Some(price))
  }

  function CloseFraction(p: Position, at: int, price: real, fraction: real): Position
  {
    if fraction <= 0.0 || p.remaining <= 0.0 then p
    else TakeOff(p, at, price, ClosedQuantity(p, fraction))
  }

  /** Each target takes an equal share of what is left for the targets still pending. */
  function TargetFraction(p: Position): real
  {
    var left := |Pending(p)|;
    if left <= 1 then 1.0 else 1.0 / left as real
  }

  function TakeTarget(p: Position, at: int, tp: real): Position
  {
    var q := CloseFraction(p, at, tp, TargetFraction(p));
    q.(targetsHit := q.targetsHit + 1)
  }

  function TakeTargets(p: Position, at: int, tps: seq<real>): (q: Position)
    ensures SameDeal(p, q)
    decreases |tps|
  {
    if tps == [] || p.remaining <= 0.0 then p
    else TakeTargets(TakeTarget(p, at, tps[0]), at, tps[1..])
  }

  function TpStatus(p: Position, sameCandle: bool): Status
  {
    if p.manualPartialExit then PartialCloseThenTp
    else if 1 < p.targetsHit then PartialTpComplete
    else if sameCandle then TpHitSameCandle else TpHit
  }

  function SlStatus(p: Position, sameCandle: bool): Status
  {
    if p.manualPartialExit then PartialCloseThenSl
    else if 0 < p.targetsHit then PartialTpThenSl
    else if sameCandle then SlHitSameCandle else SlHit
  }

  /** The position after a candle, with a status when the candle ends it. */
  datatype Outcome = Outcome(position: Position, status: Option<Status>)

  function StopOut(p: Position, c: Candle, sameCandle: bool): Outcome
  {
    var q := CloseFraction(p, c.closeTime, p.stopLoss, 1.0);
    Outcome(q, Some(SlStatus(q, sameCandle)))
  }

  function ApplyCandle(p: Position, c: Candle, policy: FillPolicy): (r: Outcome)
    ensures SameDeal(p, r.position)
  {
    var hits := HitTargets(p, c, Pending(p));
    if HitStop(p, c) && hits != [] then
      if policy.CONSERVATIVE? then StopOut(p, c, true)
      else
        var q := TakeTargets(p, c.closeTime, hits);
        if 0.0 < q.remaining then StopOut(q, c, true) else Outcome(q, Some(TpStatus(q, true)))
    else
      var q := if hits != [] then TakeTargets(p, c.closeTime, hits) else p;
      if hits != [] && q.remaining <= 0.0 then Outcome(q, Some(TpStatus(q, false)))
      else if HitStop(p, c) && 0.0 < q.remaining then StopOut(q, c, false)
      else Outcome(q, None)
  }

  /** Net of all fees; the average exit is weighted by quantity. */
  function Finalize(p: Position, status: Status): (t: Trade)
    ensures t.signalId == p.signalId && t.status == status
  {
    var exposure := p.entryPrice * p.original;
    var fees := Max(p.realizedFees, 0.0);
    var net := p.realizedPnl - fees;
    var closed := Max(p.original - p.remaining, 0.0);
    var average := if 0.0 < closed then Some(p.exitNotional / closed) else p.exitPrice;
    var basis := if 0.0 < p.balanceAtEntry then p.balanceAtEntry else exposure;
    Trade(p.signalId, p.market, p.side, Some(p.entryTime), p.exitTime, Some(p.entryPrice), average,
          Max(p.original, 0.0), net, if 0.0 < basis then net / basis * 100.0 else 0.0, fees, status)
  }

  function CloseRemaining(p: Position, at: int, price: real, status: Status): (t: Trade)
    ensures t.signalId == p.signalId && t.status == status
  {
    Finalize(if 0.0 < p.remaining then CloseFraction(p, at, price, 1.0) else p, status)
  }
}
