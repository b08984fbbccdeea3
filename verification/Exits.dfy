/** Exits that no candle's range brings about: closes by hand, cancels, and the end of a run. */
module Exits {
  import opened Core
  import opened Market
  import opened Lookups
  import opened Positions
  import opened Events
  import opened Replay
  import opened Accounting
  import opened NetProfit
  import opened Soundness

  // ---- the prices ----

  /** The candle is of the market and opens at the time or later. */
  predicate OpensLater(c: Candle, market: MarketKey, time: int) { SameMarket(c.market, market) && time <= c.openTime }

  /** Candle k is the first of the market to open at the time or later. */
  ghost predicate FirstLater(candles: seq<Candle>, k: nat, market: MarketKey, time: int)
    requires k < |candles|
  {
    OpensLater(candles[k], market, time) && forall j :: 0 <= j < k ==> !OpensLater(candles[j], market, time)
  }

  /** A close by hand is made at the open of the first candle of the market from then on, or else at entry. */
  lemma ManualPriceMeans(p: Position, time: int, candles: seq<Candle>)
    ensures if exists k :: 0 <= k < |candles| && OpensLater(candles[k], p.market, time)
            then exists k :: 0 <= k < |candles| && FirstLater(candles, k, p.market, time)
                             && ManualPrice(p, time, candles) == candles[k].open
            else ManualPrice(p, time, candles) == p.entryPrice
  {
    var k := NextIndex(time, candles, p.market, 0);
    if k.Some? {
      assert FirstLater(candles, k.value, p.market, time);
      assert OpensLater(candles[k.value], p.market, time);
    }
  }

  /** Candle k is the last of the market. */
  ghost predicate LastOf(candles: seq<Candle>, k: nat, market: MarketKey)
    requires k < |candles|
  {
    SameMarket(candles[k].market, market) && forall j :: k < j < |candles| ==> !SameMarket(candles[j].market, market)
  }

  /** The end of a run closes at the price of the last exit if there was one, else at the close of the last candle of
      the market, else at entry. */
  lemma FinalPriceMeans(p: Position, candles: seq<Candle>)
    ensures if p.exitPrice.Some? && p.exitPrice.value != 0.0 then FinalPrice(p, candles) == p.exitPrice.value
            else if exists k :: 0 <= k < |candles| && SameMarket(candles[k].market, p.market)
            then exists k :: 0 <= k < |candles| && LastOf(candles, k, p.market)
                             && FinalPrice(p, candles) == candles[k].close
            else FinalPrice(p, candles) == p.entryPrice
  {
    var k := LastIndex(candles, |candles|, p.market);
    if k.Some? {
      assert LastOf(candles, k.value, p.market);
      assert SameMarket(candles[k.value].market, p.market);
    }
  }

  // ---- the trades ----

  /** The trade of a position whose rest is sold at a price: dated, whole, net of both fees, and as a percentage of the
      balance at entry. */
  ghost predicate SoldAt(t: Trade, p: Position, at: int, price: real, status: Status)
  {
    && t.signalId == p.signalId && t.market == p.market && t.side == p.side && t.status == status
    && t.entryTime == Some(p.entryTime) && t.exitTime == Some(at)
    && t.entryPrice == Some(p.entryPrice) && t.quantity == p.original
    && t.pnl == NetOf(p.side, Cost(p), p.exitNotional + Amount(price, p.remaining), FeeRate(p.feeRatePct))
    && (0.0 < p.balanceAtEntry ==> t.pnlPct * p.balanceAtEntry == 100.0 * t.pnl)
  }

  lemma SellsRest(p: Position, at: int, price: real, status: Status, cfg: Config)
    requires Sound(p, cfg)
    ensures SoldAt(Finalize(CloseFraction(p, at, price, 1.0), status), p, at, price, status)
    ensures SoldAt(CloseRemaining(p, at, price, status), p, at, price, status)
  {
    hide Sound, Accounts, NetOf, FeeRate, Pnl, ExitFee, OnLadder;
    SoundDeal(p, cfg);
    AccountsBound(p);
    var q := CloseFraction(p, at, price, 1.0);
    CloseAccounts(p, at, price, 1.0);
    ClosedQuantityBounds(p, 1.0);
    CloseTouches(p, at, price, 1.0);
    FinalNet(q, status);
    SameCost(p, q);
    assert q.exitNotional == p.exitNotional + Amount(price, p.remaining);
    PercentBack(Finalize(q, status).pnl, p.balanceAtEntry);
  }

  lemma PercentBack(net: real, basis: real)
    ensures 0.0 < basis ==> net / basis * 100.0 * basis == 100.0 * net
  {
    if 0.0 < basis {
      var share := net / basis;
      assert share * basis == net;
      assert share * 100.0 * basis == 100.0 * (share * basis);
    }
  }

  /** A cancel sells the rest at entry. */
  lemma CancelMeans(p: Position, e: Event, candles: seq<Candle>, cfg: Config)
    requires Sound(p, cfg) && e.parsed.action.CANCEL?
    ensures var r := Follow(p, e, candles, cfg);
            r.End? && SoldAt(r.trade, p, e.timestamp, p.entryPrice,
                             if p.targetsHit == 0 then Cancelled else PartialTpThenCancel)
  {
    hide Sound, CloseRemaining, SoldAt;
    SellsRest(p, e.timestamp, p.entryPrice, CancelStatus(p), cfg);
  }

  /** The fraction a close asks for: all of it when it names none, or nothing. */
  predicate AsksFor(e: Event, fraction: real)
  {
    match e.closeFraction
    case None => fraction == 1.0
    case Some(f) => fraction == if f == 0.0 then 1.0 else f
  }

  /** A close of everything sells the rest; a close of a part sells that part of the rest, and is remembered. */
  lemma CloseMeans(p: Position, e: Event, candles: seq<Candle>, cfg: Config, f: real)
    requires Sound(p, cfg) && e.parsed.action.CLOSE? && AsksFor(e, f)
    ensures var r, price := Follow(p, e, candles, cfg), ManualPrice(p, e.timestamp, candles);
            if 1.0 <= f then
              r.End? && SoldAt(r.trade, p, e.timestamp, price, if p.targetsHit == 0 then Closed else PartialTpThenClose)
            else
              && r.Keep? && r.position.manualPartialExit && r.position.stopLoss == p.stopLoss
              && r.position.takeProfits == p.takeProfits && r.position.targetsHit == p.targetsHit
              && (f <= 0.0 ==> r.position == p.(manualPartialExit := true))
              && (0.0 < f ==>
                    && r.position.remaining == p.remaining - p.remaining * f
                    && r.position.exitNotional == p.exitNotional + Amount(price, p.remaining * f)
                    && r.position.exitTime == Some(e.timestamp) && r.position.exitPrice == Some(price))
  {
    hide Sound, Accounts, Finalize, ManualPrice, SoldAt, Pnl, ExitFee, OnLadder, Update, CloseRemaining;
    var price := ManualPrice(p, e.timestamp, candles);
    SoundDeal(p, cfg);
    CloseLeaves(p, e.timestamp, price, f, cfg);
    CloseTouches(p, e.timestamp, price, f);
    if 1.0 <= f {
      SellsRest(p, e.timestamp, price, CloseStatus(p), cfg);
    } else if 0.0 < f {
      ClosedQuantityBounds(p, f);
      CloseAccounts(p, e.timestamp, price, f);
    }
  }

  /** A close of everything sells the rest of every position. */
  lemma CloseAllMeans(p: Position, time: int, candles: seq<Candle>, cfg: Config)
    requires Sound(p, cfg)
    ensures SoldAt(CloseFully(p, time, candles), p, time, ManualPrice(p, time, candles),
                   if p.targetsHit == 0 then Closed else PartialTpThenClose)
  {
    hide Sound, Finalize, CloseFraction, SoldAt, ManualPrice;
    SellsRest(p, time, ManualPrice(p, time, candles), CloseStatus(p), cfg);
  }

  /** What is open when the candles end is sold then, at the close of the last of them. */
  lemma EndMeans(p: Position, candles: seq<Candle>, cfg: Config)
    requires Sound(p, cfg) && candles != []
    ensures SoldAt(EndTrade(p, candles), p, candles[|candles| - 1].closeTime, FinalPrice(p, candles),
                   if p.targetsHit == 0 then OpenUntilEnd else PartialTpOpenUntilEnd)
  {
    hide Sound, CloseRemaining, SoldAt, FinalPrice;
    SellsRest(p, FinalTime(p, candles), FinalPrice(p, candles), OpenUntilEnd, cfg);
    SellsRest(p, FinalTime(p, candles), FinalPrice(p, candles), PartialTpOpenUntilEnd, cfg);
  }

  /** An order without a fill is on record with nothing bought, won or paid. */
  lemma RefusedMeans(e: Event, open: seq<Position>, balance: real, candles: seq<Candle>, cfg: Config)
    requires Opens(e) && Decide(e, e.parsed.symbol.value, open, balance, candles, cfg).Refused?
    ensures var r := ApplyEvent(e, open, balance, candles, cfg);
            && r.open == open && |r.trades| == 1
            && var t := r.trades[0];
               && t.status == NotFilled && t.signalId == e.signalId && t.market == e.parsed.symbol.value
               && t.side == e.parsed.side && t.entryTime.None? && t.exitTime.None? && t.entryPrice.None?
               && t.exitPrice.None? && t.quantity == 0.0 && t.pnl == 0.0 && t.pnlPct == 0.0 && t.fees == 0.0
  {
    hide Decide;
  }
}
