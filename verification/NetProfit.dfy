/** What a closed position nets, as a function of what was paid in and what was taken out. */
module NetProfit {
  import opened Core
  import opened Market
  import opened Positions
  import opened Accounting

  function Share(rate: real, amount: real): real { rate * amount }

  function FeeOn(rate: real, turnover: real): real { Max(Share(rate, turnover), 0.0) }

  function Amount(price: real, quantity: real): real { price * quantity }

  function NetOf(side: Side, cost: real, notional: real, rate: real): real
  {
    Direction(side) * (notional - cost) - FeeOn(rate, cost + notional)
  }

  lemma FinalNet(p: Position, status: Status)
    requires Accounts(p) && p.remaining == 0.0
    ensures Finalize(p, status).pnl == NetOf(p.side, Cost(p), p.exitNotional, FeeRate(p.feeRatePct))
  {
    hide FeeRate;
    assert p.entryPrice * (p.original - p.remaining) == Cost(p);
  }

  lemma SameCost(p: Position, q: Position)
    requires SameDeal(p, q)
    ensures Cost(p) == Cost(q)
  {
  }

  // ---- monotonicity ----

  /** The price is no worse than the stop. */
  predicate NoWorse(side: Side, stop: real, price: real) { if side.Short? then price <= stop else stop <= price }

  lemma Scale(f: real, x: real, y: real)
    requires 0.0 <= f && x <= y
    ensures f * x <= f * y
  {
  }

  lemma NoWorseScales(side: Side, stop: real, price: real, quantity: real)
    requires 0.0 <= quantity && NoWorse(side, stop, price)
    ensures NoWorse(side, Amount(stop, quantity), Amount(price, quantity))
  {
    if side.Short? {
      Scale(quantity, price, stop);
    } else {
      Scale(quantity, stop, price);
    }
  }

  lemma NetIsMonotone(side: Side, cost: real, a: real, b: real, rate: real)
    requires 0.0 <= rate < 1.0
    ensures NoWorse(side, a, b) <==> NetOf(side, cost, a, rate) <= NetOf(side, cost, b, rate)
  {
    hide FeeOn;
    if a < b {
      FeeGap(cost + a, cost + b, rate);
    } else if b < a {
      FeeGap(cost + b, cost + a, rate);
    }
  }

  /** Fees grow with the turnover, but more slowly than the turnover itself. */
  lemma FeeGap(u: real, v: real, rate: real)
    requires 0.0 <= rate < 1.0 && u < v
    ensures 0.0 <= FeeOn(rate, v) - FeeOn(rate, u) < v - u
  {
    hide Share;
    ShareGrows(u, v, rate);
    ShareLags(u, v, rate);
  }

  lemma ShareGrows(u: real, v: real, rate: real)
    requires 0.0 <= rate && u < v
    ensures Share(rate, u) <= Share(rate, v)
  {
    Scale(rate, u, v);
  }

  lemma ShareLags(u: real, v: real, rate: real)
    requires rate < 1.0 && u < v
    ensures Share(rate, v) - Share(rate, u) < v - u
  {
    StrictScale(v - u, rate, 1.0);
    assert rate * (v - u) == rate * v - rate * u;
  }

  lemma StrictScale(gap: real, x: real, y: real)
    requires 0.0 < gap && x < y
    ensures x * gap < y * gap
  {
    assert 0.0 < gap * (y - x);
    assert gap * (y - x) == gap * y - gap * x;
  }

  // ---- the loss at a price ----

  /** What the whole quantity loses at a price, with both fees; linear and falling on the way to profit. */
  function LossAt(side: Side, entry: real, price: real, quantity: real, rate: real): real
  {
    if side.Long? then quantity * (entry * (1.0 + rate) - price * (1.0 - rate))
    else quantity * (price * (1.0 + rate) - entry * (1.0 - rate))
  }

  lemma NoWorseLosesLess(side: Side, entry: real, a: real, b: real, quantity: real, rate: real)
    requires 0.0 <= quantity && 0.0 <= rate < 1.0 && NoWorse(side, a, b)
    ensures LossAt(side, entry, b, quantity, rate) <= LossAt(side, entry, a, quantity, rate)
  {
    if side.Long? {
      Scale(1.0 - rate, a, b);
      Scale(quantity, entry * (1.0 + rate) - b * (1.0 - rate), entry * (1.0 + rate) - a * (1.0 - rate));
    } else {
      Scale(1.0 + rate, b, a);
      Scale(quantity, b * (1.0 + rate) - entry * (1.0 - rate), a * (1.0 + rate) - entry * (1.0 - rate));
    }
  }

  /** Taking everything off at one price nets the loss at that price. */
  lemma NetAtPrice(side: Side, entry: real, price: real, quantity: real, rate: real, cost: real,
                   notional: real)
    requires 0.0 <= entry && 0.0 <= price && 0.0 <= quantity && 0.0 <= rate
    requires cost == entry * quantity && notional == price * quantity
    ensures NetOf(side, cost, notional, rate) == -LossAt(side, entry, price, quantity, rate)
  {
    hide Share;
    NotNegative(entry, quantity);
    NotNegative(price, quantity);
    ShareOfSum(rate, cost, notional);
    ShareNotNegative(rate, cost + notional);
    if side.Long? {
      Expand(quantity, entry, 1.0 + rate, price, 1.0 - rate);
      OnePlus(cost, rate);
      OneMinus(notional, rate);
    } else {
      Expand(quantity, price, 1.0 + rate, entry, 1.0 - rate);
      OnePlus(notional, rate);
      OneMinus(cost, rate);
    }
  }

  lemma NotNegative(a: real, b: real)
    requires 0.0 <= a && 0.0 <= b
    ensures 0.0 <= a * b
  {
  }

  lemma ShareNotNegative(rate: real, amount: real)
    requires 0.0 <= rate && 0.0 <= amount
    ensures 0.0 <= Share(rate, amount)
  {
  }

  lemma ShareOfSum(rate: real, a: real, b: real)
    ensures Share(rate, a + b) == Share(rate, a) + Share(rate, b)
  {
  }

  lemma Expand(q: real, a: real, f: real, b: real, g: real)
    ensures q * (a * f - b * g) == (a * q) * f - (b * q) * g
  {
    assert q * (a * f - b * g) == q * (a * f) - q * (b * g);
    assert q * (a * f) == (a * q) * f;
    assert q * (b * g) == (b * q) * g;
  }

  lemma OnePlus(x: real, rate: real)
    ensures x * (1.0 + rate) == x + Share(rate, x)
  {
  }

  lemma OneMinus(x: real, rate: real)
    ensures x * (1.0 - rate) == x - Share(rate, x)
  {
  }
}
