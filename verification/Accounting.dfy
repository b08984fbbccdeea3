/** Money and quantity of one position under any sequence of exits. */
module Accounting {
  import opened Core
  import opened Market
  import opened Positions
  import opened Sizing

  /** The books of a position: what was taken off, at what prices, for what fees. */
  ghost predicate Accounts(p: Position)
  {
    && 0.0 <= p.remaining <= p.original
    && p.realizedPnl == GrossOf(Direction(p.side), p.entryPrice, p.original - p.remaining, p.exitNotional)
    && p.realizedFees == FeesOf(FeeRate(p.feeRatePct), Cost(p), p.exitNotional)
  }

  /** What the position was bought for. */
  function Cost(p: Position): real { p.entryPrice * p.original }

  /** The gross profit on what has gone. */
  function GrossOf(direction: real, entry: real, gone: real, notional: real): real
  {
    direction * (notional - entry * gone)
  }

  /** The fees on everything bought and on what was taken out. */
  function FeesOf(rate: real, cost: real, notional: real): real { rate * (cost + notional) }

  /** The pending targets climb away from entry. */
  ghost predicate OnLadder(p: Position)
  {
    p.targetsHit <= |p.takeProfits| && Ladder(p.side, p.entryPrice, Pending(p))
  }

  /** What every open position satisfies at every moment of every run. */
  ghost predicate Sound(p: Position, cfg: Config)
  {
    && Accounts(p) && 0.0 < p.remaining && OnLadder(p)
    && p.feeRatePct == cfg.feeRatePct
  }

  /** What every trade of every run satisfies. */
  ghost predicate TradeAddsUp(t: Trade, cfg: Config)
  {
    if t.status.NotFilled? then t.quantity == 0.0 && t.pnl == 0.0 && t.fees == 0.0
    else
      && t.entryPrice.Some? && t.exitPrice.Some? && 0.0 < t.quantity
      && t.pnl == Direction(t.side) * (t.exitPrice.value - t.entryPrice.value) * t.quantity - t.fees
      && t.fees == Max(FeeRate(cfg.feeRatePct) * (t.entryPrice.value + t.exitPrice.value) * t.quantity, 0.0)
  }

  // ---- one exit ----

  lemma FeeIsLinear(p: Position, price: real, quantity: real)
    ensures ExitFee(p, price, quantity) == FeeRate(p.feeRatePct) * (price * quantity)
  {
    if 0.0 < p.feeRatePct {
      assert price * quantity * p.feeRatePct / 100.0 == p.feeRatePct / 100.0 * (price * quantity);
    }
  }

  lemma TakeOffAccounts(p: Position, at: int, price: real, quantity: real)
    requires Accounts(p) && 0.0 <= quantity <= p.remaining
    ensures Accounts(TakeOff(p, at, price, quantity))
    ensures TakeOff(p, at, price, quantity).remaining == p.remaining - quantity
  {
    hide GrossOf, FeesOf, Pnl, ExitFee, FeeRate;
    var q, gone := TakeOff(p, at, price, quantity), p.original - p.remaining;
    assert q.remaining == p.remaining - quantity && p.original - q.remaining == gone + quantity;
    assert Cost(q) == Cost(p);
    GrossGrows(p, gone, p.exitNotional, price, quantity);
    FeesGrow(p, Cost(p), p.exitNotional, price, quantity);
  }

  lemma GrossGrows(p: Position, gone: real, notional: real, price: real, quantity: real)
    ensures GrossOf(Direction(p.side), p.entryPrice, gone, notional) + Pnl(p, price, quantity)
         == GrossOf(Direction(p.side), p.entryPrice, gone + quantity, notional + price * quantity)
  {
    hide Direction;
    var entry, moved := p.entryPrice, (price - p.entryPrice) * quantity;
    Distribute(entry, gone, quantity);
    Distribute(quantity, price, -entry);
    Distribute(Direction(p.side), notional - entry * gone, moved);
  }

  lemma Distribute(f: real, x: real, y: real)
    ensures f * (x + y) == f * x + f * y
  {
  }

  lemma FeesGrow(p: Position, cost: real, notional: real, price: real, quantity: real)
    ensures FeesOf(FeeRate(p.feeRatePct), cost, notional) + ExitFee(p, price, quantity)
         == FeesOf(FeeRate(p.feeRatePct), cost, notional + price * quantity)
  {
    hide FeeRate;
    FeeIsLinear(p, price, quantity);
  }

  lemma ClosedQuantityBounds(p: Position, fraction: real)
    requires 0.0 < p.remaining && 0.0 < fraction
    ensures 0.0 < ClosedQuantity(p, fraction) <= p.remaining
    ensures fraction < 1.0 ==> ClosedQuantity(p, fraction) == p.remaining * fraction < p.remaining
    ensures 1.0 <= fraction ==> ClosedQuantity(p, fraction) == p.remaining
  {
    if fraction < 1.0 {
      PartOf(p.remaining, fraction);
    }
  }

  lemma PartOf(whole: real, fraction: real)
    requires 0.0 < whole && 0.0 < fraction < 1.0
    ensures 0.0 < whole * fraction < whole
  {
    assert 0.0 < whole * (1.0 - fraction);
  }

  lemma CloseAccounts(p: Position, at: int, price: real, fraction: real)
    requires Accounts(p)
    ensures Accounts(CloseFraction(p, at, price, fraction))
    ensures 0.0 < p.remaining && 0.0 < fraction < 1.0 ==>
              CloseFraction(p, at, price, fraction).remaining == p.remaining - p.remaining * fraction > 0.0
    ensures 1.0 <= fraction ==> CloseFraction(p, at, price, fraction).remaining == 0.0
  {
    hide TakeOff, Accounts;
    if 0.0 < fraction && 0.0 < p.remaining {
      ClosedQuantityBounds(p, fraction);
      TakeOffAccounts(p, at, price, ClosedQuantity(p, fraction));
    } else {
      AccountsBound(p);
    }
  }

  lemma AccountsBound(p: Position)
    requires Accounts(p)
    ensures 0.0 <= p.remaining <= p.original
  {
  }

  // ---- the target ladder ----

  lemma {:induction false} NoHitBeyond(p: Position, c: Candle, tps: seq<real>)
    requires forall i :: 0 <= i < |tps| ==> !HitTarget(p, c, tps[i])
    ensures HitTargets(p, c, tps) == []
    decreases |tps|
  {
    if tps != [] {
      NoHitBeyond(p, c, tps[1..]);
    }
  }

  /** On a ladder the targets that a candle touches are the nearest ones. */
  lemma {:induction false} HitsArePrefix(p: Position, c: Candle, tps: seq<real>)
    requires forall i, j :: 0 <= i < j < |tps| ==> Beyond(p.side, tps[i], tps[j])
    ensures HitTargets(p, c, tps) <= tps
    decreases |tps|
  {
    if tps != [] {
      if HitTarget(p, c, tps[0]) {
        HitsArePrefix(p, c, tps[1..]);
        assert tps == [tps[0]] + tps[1..];
      } else {
        NoHitBeyond(p, c, tps[1..]);
      }
    }
  }

  /** Taking one target: an equal share of what is left, and the ladder moves up by one. */
  lemma TakeOneTarget(p: Position, at: int)
    requires Accounts(p) && 0.0 < p.remaining && OnLadder(p) && Pending(p) != []
    ensures var q := TakeTarget(p, at, Pending(p)[0]);
            var n := |Pending(p)| as real;
            && Accounts(q) && q.takeProfits == p.takeProfits && q.targetsHit == p.targetsHit + 1
            && Pending(q) == Pending(p)[1..] && OnLadder(q) && q.stopLoss == p.stopLoss
            && q.remaining * n == p.remaining * (n - 1.0)
            && (0.0 < q.remaining <==> 1 < |Pending(p)|)
  {
    hide Accounts, CloseFraction;
    var pending := Pending(p);
    var n := |pending| as real;
    var r := CloseFraction(p, at, pending[0], TargetFraction(p));
    CloseAccounts(p, at, pending[0], TargetFraction(p));
    CloseTouches(p, at, pending[0], TargetFraction(p));
    var q := TakeTarget(p, at, pending[0]);
    assert q == r.(targetsHit := p.targetsHit + 1);
    AccountsIgnoreHits(r, p.targetsHit + 1);
    if 1 < |pending| {
      var f := 1.0 / n;
      assert f * n == 1.0 && 0.0 < f < 1.0;
      assert (p.remaining - p.remaining * f) * n == p.remaining * n - p.remaining * (f * n);
      assert r.remaining * n == p.remaining * (n - 1.0);
    } else {
      assert n == 1.0 && r.remaining == 0.0;
    }
  }

  lemma AccountsIgnoreHits(p: Position, hits: nat)
    requires Accounts(p)
    ensures Accounts(p.(targetsHit := hits))
  {
    SameAccounts(p, p.(targetsHit := hits));
  }

  lemma SameAccounts(p: Position, q: Position)
    requires Accounts(p) && SameDeal(p, q) && q.remaining == p.remaining && q.exitNotional == p.exitNotional
    requires q.realizedPnl == p.realizedPnl && q.realizedFees == p.realizedFees
    ensures Accounts(q)
  {
    hide GrossOf, FeesOf;
    assert Cost(q) == Cost(p);
  }

  /** An exit leaves the deal, the targets and the stop alone. */
  lemma CloseTouches(p: Position, at: int, price: real, fraction: real)
    ensures var q := CloseFraction(p, at, price, fraction);
            && SameDeal(p, q) && q.takeProfits == p.takeProfits && q.targetsHit == p.targetsHit
            && q.stopLoss == p.stopLoss && q.manualPartialExit == p.manualPartialExit
  {
  }

  /** A product law for the shares: (n - k) / n of (n - 1) / n ... */
  lemma Shares(r: real, r1: real, r2: real, n: real, k: real)
    requires 1.0 < n && r1 * n == r * (n - 1.0) && r2 * (n - 1.0) == r1 * (n - k)
    ensures r2 * n == r * (n - k)
  {
    calc {
      r2 * n * (n - 1.0);
      (r2 * (n - 1.0)) * n;
      (r1 * (n - k)) * n;
      (r1 * n) * (n - k);
      (r * (n - 1.0)) * (n - k);
      r * (n - k) * (n - 1.0);
    }
    CancelFactor(r2 * n, r * (n - k), n - 1.0);
  }

  lemma SharesOn(r: real, r1: real, r2: real, n: nat, k: nat)
    requires 1 < n && 0 < k
    requires r1 * n as real == r * (n as real - 1.0)
    requires r2 * (n - 1) as real == r1 * ((n - 1) as real - (k - 1) as real)
    ensures r2 * n as real == r * (n as real - k as real)
  {
    assert (n - 1) as real == n as real - 1.0 && (k - 1) as real == k as real - 1.0;
    Shares(r, r1, r2, n as real, k as real);
  }

  lemma CancelFactor(a: real, b: real, f: real)
    requires 0.0 < f && a * f == b * f
    ensures a == b
  {
    assert (a - b) * f == 0.0;
  }

  /** What taking the k nearest of n targets leaves: (n - k) / n, with exactly those targets named. */
  ghost predicate TookNearest(p: Position, q: Position, k: nat)
    requires k <= |Pending(p)|
  {
    && Accounts(q) && OnLadder(q)
    && q.takeProfits == p.takeProfits && q.targetsHit == p.targetsHit + k
    && Pending(q) == Pending(p)[k..] && q.stopLoss == p.stopLoss
    && q.remaining * |Pending(p)| as real == p.remaining * (|Pending(p)| as real - k as real)
    && (0.0 < q.remaining <==> (k < |Pending(p)| || k == 0))
  }

  /** Taking the nearest targets leaves exactly that. */
  lemma {:induction false} TakeNearest(p: Position, at: int, k: nat)
    requires Accounts(p) && 0.0 < p.remaining && OnLadder(p) && k <= |Pending(p)|
    ensures TookNearest(p, TakeTargets(p, at, Pending(p)[..k]), k)
    decreases k
  {
    hide Accounts, OnLadder, TakeTarget, Pending, TookNearest;
    var pending := Pending(p);
    if k == 0 {
      TookNone(p);
    } else {
      var q := TakeTarget(p, at, pending[0]);
      TakeOneTarget(p, at);
      FrontOf(pending, k);
      if k == 1 {
        TookOne(p, at);
        assert TakeTargets(q, at, pending[..k][1..]) == q;
      } else {
        TakeNearest(q, at, k - 1);
        TookOneMore(p, q, TakeTargets(q, at, Pending(q)[..k - 1]), k);
      }
    }
  }

  lemma FrontOf(pending: seq<real>, k: nat)
    requires 0 < k <= |pending|
    ensures pending[..k][0] == pending[0] && pending[..k][1..] == pending[1..][..k - 1]
  {
  }

  lemma TookNone(p: Position)
    requires Accounts(p) && 0.0 < p.remaining && OnLadder(p)
    ensures TookNearest(p, p, 0)
  {
  }

  lemma TookOne(p: Position, at: int)
    requires Accounts(p) && 0.0 < p.remaining && OnLadder(p) && Pending(p) != []
    ensures TookNearest(p, TakeTarget(p, at, Pending(p)[0]), 1)
  {
    hide Accounts, OnLadder, TakeTarget, Pending;
    TakeOneTarget(p, at);
    AccountsBound(TakeTarget(p, at, Pending(p)[0]));
  }

  lemma TookOneMore(p: Position, q: Position, r: Position, k: nat)
    requires 1 < k <= |Pending(p)| && Pending(q) == Pending(p)[1..] && TookNearest(q, r, k - 1)
    requires q.takeProfits == p.takeProfits && q.targetsHit == p.targetsHit + 1 && q.stopLoss == p.stopLoss
    requires q.remaining * |Pending(p)| as real == p.remaining * (|Pending(p)| as real - 1.0)
    ensures TookNearest(p, r, k)
  {
    hide Accounts, OnLadder, Pending;
    assert Pending(p)[1..][k - 1..] == Pending(p)[k..];
    SharesOn(p.remaining, q.remaining, r.remaining, |Pending(p)|, k);
  }

  /** The targets a candle takes: the k nearest, for some k that is zero only when none is touched. */
  lemma CandleTakesNearest(p: Position, c: Candle) returns (k: nat)
    requires OnLadder(p)
    ensures k <= |Pending(p)| && HitTargets(p, c, Pending(p)) == Pending(p)[..k]
  {
    HitsArePrefix(p, c, Pending(p));
    k := |HitTargets(p, c, Pending(p))|;
  }

  // ---- whole candles, events and trades ----

  /** A position that a candle leaves open stays sound; one that it ends has nothing left. */
  lemma CandleKeepsSound(p: Position, c: Candle, policy: FillPolicy, cfg: Config)
    requires Sound(p, cfg)
    ensures var r := ApplyCandle(p, c, policy);
            if r.status.None? then Sound(r.position, cfg)
            else Accounts(r.position) && r.position.remaining == 0.0
  {
    hide Accounts, OnLadder, CloseFraction, TakeTargets;
    var k := CandleTakesNearest(p, c);
    var hits := Pending(p)[..k];
    TakeNearest(p, c.closeTime, k);
    var q := TakeTargets(p, c.closeTime, hits);
    AccountsBound(q);
    CloseAccounts(p, c.closeTime, p.stopLoss, 1.0);
    CloseAccounts(q, c.closeTime, q.stopLoss, 1.0);
    assert k == 0 ==> TakeTargets(p, c.closeTime, []) == q;
  }

  /** Closing the books: the trade's profit is its average move times its quantity, less its fees. */
  lemma FinalizeAddsUp(p: Position, status: Status, cfg: Config)
    requires Accounts(p) && p.remaining == 0.0 && 0.0 < p.original && p.feeRatePct == cfg.feeRatePct
    requires !status.NotFilled?
    ensures TradeAddsUp(Finalize(p, status), cfg)
  {
    var t := Finalize(p, status);
    var entry, q, n := p.entryPrice, p.original, p.exitNotional;
    var average := n / q;
    assert average * q == n;
    var dir := Direction(p.side);
    assert dir * (average - entry) * q == dir * (average * q - entry * q);
    var rate := FeeRate(p.feeRatePct);
    assert rate * (entry + average) * q == rate * (entry * q + average * q);
  }
}
