/** How large a position may be, and where its stop and targets may sit. */
module Sizing {
  import opened Core
  import opened Market
  import opened Positions

  const TICK := 100000000.0

  /** Decimal.quantize to eight places, rounding half to even. */
  function QuantizeHalfEven(x: real): real
  {
    var floor := (x * TICK).Floor;
    var rest := x * TICK - floor as real;
    (if rest < 0.5 || (rest == 0.5 && floor % 2 == 0) then floor else floor + 1) as real / TICK
  }

  /** Decimal.quantize to eight places, rounding a non-negative value down. */
  function QuantizeDown(x: real): real { (x * TICK).Floor as real / TICK }

  // ---- risk/stop_loss.py ----

  function NetLossAtStop(side: Side, entry: Price, stop: real, quantity: real, rate: real): real
  {
    var gross := if side.Long? then (stop - entry) * quantity else (entry - stop) * quantity;
    var fees := (entry + stop) * quantity * rate;
    Max(-(gross - fees), 0.0)
  }

  function RiskBudget(balance: real, maxLossPct: real): real { balance * Max(maxLossPct, 0.0) / 100.0 }

  function MaxQuantityForStop(side: Side, entry: Price, stop: real, balance: real,
                              feeRatePct: FeePct, maxLossPct: real): real
  {
    if stop <= 0.0 || balance <= 0.0 || RiskBudget(balance, maxLossPct) <= 0.0 then 0.0
    else
      var unit := NetLossAtStop(side, entry, stop, 1.0, FeeRate(feeRatePct));
      if unit <= 0.0 then 0.0 else RiskBudget(balance, maxLossPct) / unit
  }

  /** The nearest stop to the requested one whose modelled loss fits the budget. */
  function ClampStop(side: Side, entry: Price, stop: real, quantity: real, balance: real,
                     feeRatePct: FeePct, maxLossPct: real): real
  {
    var budget := RiskBudget(Max(balance, 0.0), maxLossPct);
    var rate := FeeRate(feeRatePct);
    if stop <= 0.0 || quantity <= 0.0 || balance <= 0.0 then stop
    else if side.Long? then
      Max(stop, Max((entry * (1.0 + rate) - budget / quantity) / (1.0 - rate), 0.0))
    else
      Min(stop, (entry * (1.0 - rate) + budget / quantity) / (1.0 + rate))
  }

  // ---- allocation, leverage and margin ----

  function AllocationPct(cfg: Config, leverage: real): real
  {
    var floor := Max(cfg.minAllocationPct, 0.0);
    var ceiling := Max(cfg.maxAllocationPct, floor);
    Min(Max(cfg.riskPerTradePct / Max(leverage, 1.0), floor), ceiling)
  }

  /** The allocation lies between its limits, a ceiling below the floor counting as the floor; between them it buys
      the same exposure at every leverage, and otherwise it sits at the limit in its way. */
  lemma AllocationMeans(cfg: Config, leverage: real)
    ensures var floor := Max(cfg.minAllocationPct, 0.0);
            var ceiling := Max(cfg.maxAllocationPct, floor);
            var exposure := AllocationPct(cfg, leverage) * Max(leverage, 1.0);
            && floor <= AllocationPct(cfg, leverage) <= ceiling
            && (exposure < cfg.riskPerTradePct ==> AllocationPct(cfg, leverage) == ceiling)
            && (cfg.riskPerTradePct < exposure ==> AllocationPct(cfg, leverage) == floor)
  {
    var scale := Max(leverage, 1.0);
    assert cfg.riskPerTradePct / scale * scale == cfg.riskPerTradePct;
  }

  function EffectiveLeverage(e: Event, cfg: Config): real
  {
    match cfg.maxEffectiveLeverage
    case None => 1.0
    case Some(most) =>
      var wanted := if e.leverage.Some? then e.leverage.value as real else cfg.defaultSignalLeverage;
      Min(Max(wanted, 1.0), Max(most, 1.0))
  }

  /** The margin that a quantity ties up. */
  function MarginFor(entry: Price, quantity: real, leverage: real): real { entry * quantity / Max(leverage, 1.0) }

  /** The quantity that a margin buys. */
  function Bought(margin: real, leverage: real, entry: Price): real { margin * leverage / entry }

  function Margin(p: Position): real { MarginFor(p.entryPrice, p.original, p.effectiveLeverage) }

  function UsedMargin(open: seq<Position>): real
  {
    if open == [] then 0.0 else Margin(open[0]) + UsedMargin(open[1..])
  }

  /** The portfolio gate: an oversized order is clamped to the free margin, or refused. */
  function FitMargin(open: seq<Position>, balance: real, leverage: real, entry: Price, quantity: real,
                     cfg: Config): Option<real>
  {
    if cfg.maxEffectiveLeverage.None? then Some(quantity)
    else
      var used := UsedMargin(open);
      if used + MarginFor(entry, quantity, leverage) <= balance then Some(quantity)
      else
        var free := Max(balance - used, 0.0);
        if free <= 0.0 then None else Some(Bought(free, leverage, entry))
  }

  // ---- stops ----

  datatype Protected = Protected(stop: real, quantity: real)

  function DefaultStop(side: Side, entry: Price, cfg: Config): real
  {
    var pct := Max(cfg.defaultStopPct, 0.0) / 100.0;
    if side.Short? then entry * (1.0 + pct) else entry * (1.0 - pct)
  }

  /** The fees of entering and leaving at the entry price. */
  function RoundTripFees(entry: Price, quantity: real, rate: real): real { 2.0 * entry * quantity * rate }

  /** Entry and exit fees alone may not exceed the budget. */
  function FeeSafeQuantity(entry: Price, quantity: real, budget: real, rate: real): (q: real)
    requires 0.0 < quantity && 0.0 < budget && 0.0 <= rate
    ensures 0.0 < q <= quantity
  {
    if budget <= RoundTripFees(entry, quantity, rate) then
      assert 0.0 < rate;
      assert 0.0 < 2.0 * entry * rate;
      Min(quantity, budget / (2.0 * entry * rate))
    else quantity
  }

  /** Pulls the stop in until the loss on price alone fits what the fees leave. */
  function CapDistance(side: Side, entry: Price, stop: real, quantity: real, rate: real, available: real): Protected
    requires 0.0 < quantity && 0.0 <= rate < 1.0
  {
    if available <= 0.0 then Protected(entry, quantity)
    else
      var furthest := available / quantity / (if side.Short? then 1.0 + rate else 1.0 - rate);
      if Abs(entry - stop) <= furthest then Protected(stop, quantity)
      else Protected(if side.Short? then entry + furthest else Max(entry - furthest, 0.0), quantity)
  }

  function CapWithin(side: Side, entry: Price, stop: real, quantity: real, rate: real, budget: real): Protected
    requires 0.0 < quantity && 0.0 <= rate < 1.0 && 0.0 < budget
  {
    var q := FeeSafeQuantity(entry, quantity, budget, rate);
    CapDistance(side, entry, stop, q, rate, budget - RoundTripFees(entry, q, rate))
  }

  /** Shrinks the quantity, then the stop distance, until the loss at the stop fits the budget. */
  function CapSynthetic(side: Side, entry: Price, stop: real, quantity: real, balance: real,
                        feeRatePct: FeePct, maxLossPct: real): Protected
  {
    var budget := RiskBudget(balance, maxLossPct);
    if quantity <= 0.0 || balance <= 0.0 || budget <= 0.0 then Protected(stop, quantity)
    else CapWithin(side, entry, stop, quantity, FeeRate(feeRatePct), budget)
  }

  function CapExplicit(side: Side, entry: Price, stop: real, quantity: real, balance: real,
                       feeRatePct: FeePct, maxLossPct: real): real
  {
    var most := QuantizeDown(MaxQuantityForStop(side, entry, stop, balance, feeRatePct, maxLossPct));
    if most <= 0.0 then 0.0 else Min(quantity, most)
  }

  predicate InitialStopValid(side: Side, entry: Price, stop: real)
  {
    0.0 < stop && if side.Short? then entry <= stop else stop <= entry
  }

  /** The stop and the final quantity, or None when the order is refused. */
  function Protect(s: Signal, entry: Price, quantity: real, balance: real, cfg: Config): Option<Protected>
  {
    match s.stopLoss
    case None =>
      var r := CapSynthetic(s.side, entry, DefaultStop(s.side, entry, cfg), quantity, balance,
                            cfg.feeRatePct, cfg.syntheticMaxLossPct);
      if r.quantity <= 0.0 then None else Some(r)
    case Some(stop) =>
      if !InitialStopValid(s.side, entry, stop) || stop == entry then None
      else if cfg.maxStopLossPct.None? then Some(Protected(stop, quantity))
      else
        var q := CapExplicit(s.side, entry, stop, quantity, balance, cfg.feeRatePct, cfg.maxStopLossPct.value);
        if q <= 0.0 then None else Some(Protected(stop, q))
  }

  // ---- targets ----

  /** Beyond entry on the profitable side. */
  predicate Beyond(side: Side, entry: real, tp: real) { if side.Short? then tp < entry else entry < tp }

  predicate Acceptable(side: Side, entry: real, stop: real, tp: real)
  {
    && 0.0 < tp
    && Beyond(side, entry, tp)
    && (0.0 < Abs(entry - stop) ==> Abs(entry - tp) <= Abs(entry - stop) * 50.0)
  }

  /** A target lies on the profitable side, and at most fifty times as far from entry as the stop, unless the stop is
      at entry itself. */
  lemma AcceptableMeans(side: Side, entry: real, stop: real, tp: real)
    ensures Acceptable(side, entry, stop, tp) <==>
              var gain := if side.Short? then entry - tp else tp - entry;
              && 0.0 < tp && 0.0 < gain
              && (stop < entry ==> gain <= 50.0 * (entry - stop)) && (entry < stop ==> gain <= 50.0 * (stop - entry))
  {
  }

  function KeepNew(side: Side, entry: real, stop: real, tps: seq<real>, kept: seq<real>): seq<real>
    decreases |tps|
  {
    if tps == [] then kept
    else KeepNew(side, entry, stop, tps[1..],
                 if Acceptable(side, entry, stop, tps[0]) && tps[0] !in kept then kept + [tps[0]] else kept)
  }

  /** Nearest target first. */
  function SortTargets(side: Side, tps: seq<real>): seq<real>
  {
    if side.Short? then StableSort(tps, (x: real) => -x) else StableSort(tps, (x: real) => x)
  }

  function Sanitize(side: Side, entry: real, stop: real, tps: seq<real>): seq<real>
  {
    SortTargets(side, KeepNew(side, entry, stop, tps, []))
  }

  method SanitizeTakeProfits(side: Side, entry: real, stop: real, tps: seq<real>) returns (r: seq<real>)
    ensures r == Sanitize(side, entry, stop, tps)
  {
    var sanitized: seq<real> := [];
    var seen: set<real> := {};
    for i := 0 to |tps|
      invariant forall x :: x in seen <==> x in sanitized
      invariant KeepNew(side, entry, stop, tps, []) == KeepNew(side, entry, stop, tps[i..], sanitized)
    {
      var tp := tps[i];
      assert tps[i..][1..] == tps[i + 1..];
      if Acceptable(side, entry, stop, tp) && tp !in seen {
        seen := seen + {tp};
        sanitized := sanitized + [tp];
      }
    }
    r := SortTargets(side, sanitized);
  }

  /** Strictly further from entry at every step, and beyond it. */
  ghost predicate Ladder(side: Side, entry: real, tps: seq<real>)
  {
    && (forall i :: 0 <= i < |tps| ==> Beyond(side, entry, tps[i]))
    && (forall i, j :: 0 <= i < j < |tps| ==> Beyond(side, tps[i], tps[j]))
  }

  lemma {:induction false} KeepNewKeeps(side: Side, entry: real, stop: real, tps: seq<real>, kept: seq<real>)
    requires forall i, j :: 0 <= i < j < |kept| ==> kept[i] != kept[j]
    requires forall x :: x in kept ==> Acceptable(side, entry, stop, x)
    ensures var r := KeepNew(side, entry, stop, tps, kept);
            && (forall i, j :: 0 <= i < j < |r| ==> r[i] != r[j])
            && (forall x :: x in r <==> x in kept || (x in tps && Acceptable(side, entry, stop, x)))
    decreases |tps|
  {
    if tps != [] {
      KeepNewKeeps(side, entry, stop, tps[1..],
                   if Acceptable(side, entry, stop, tps[0]) && tps[0] !in kept then kept + [tps[0]] else kept);
      assert tps == [tps[0]] + tps[1..];
    }
  }

  lemma {:induction false} DistinctByMultiset(s: seq<real>, r: seq<real>)
    requires multiset(s) == multiset(r)
    requires forall i, j :: 0 <= i < j < |s| ==> s[i] != s[j]
    ensures forall i, j :: 0 <= i < j < |r| ==> r[i] != r[j]
  {
    forall i, j | 0 <= i < j < |r|
      ensures r[i] != r[j]
    {
      if r[i] == r[j] {
        TwiceInMultiset(r, i, j);
        assert multiset(s)[r[i]] >= 2;
        OnceInMultiset(s, r[i]);
      }
    }
  }

  lemma TwiceInMultiset(r: seq<real>, i: nat, j: nat)
    requires i < j < |r| && r[i] == r[j]
    ensures multiset(r)[r[i]] >= 2
  {
    assert r == r[..i] + [r[i]] + r[i + 1..j] + [r[j]] + r[j + 1..];
  }

  lemma {:induction false} OnceInMultiset(s: seq<real>, x: real)
    requires forall i, j :: 0 <= i < j < |s| ==> s[i] != s[j]
    ensures multiset(s)[x] <= 1
  {
    if s != [] {
      OnceInMultiset(s[1..], x);
      assert s == [s[0]] + s[1..];
      assert s[0] !in multiset(s[1..]) by {
        assert forall k :: 0 <= k < |s[1..]| ==> s[1..][k] == s[k + 1];
      }
    }
  }

  /** The sanitised list holds exactly the acceptable targets, each once, nearest first. */
  lemma {:induction false} SanitizeIsLadder(side: Side, entry: real, stop: real, tps: seq<real>)
    ensures Ladder(side, entry, Sanitize(side, entry, stop, tps))
    ensures forall x :: x in Sanitize(side, entry, stop, tps) <==>
                        x in tps && Acceptable(side, entry, stop, x)
  {
    var kept := KeepNew(side, entry, stop, tps, []);
    KeepNewKeeps(side, entry, stop, tps, []);
    var r := Sanitize(side, entry, stop, tps);
    var up := (x: real) => x;
    var down := (x: real) => -x;
    StableSortSorts(kept, if side.Short? then down else up);
    DistinctByMultiset(kept, r);
    forall x
      ensures x in r <==> x in kept
    {
      assert x in multiset(r) <==> x in multiset(kept);
    }
    forall i | 0 <= i < |r|
      ensures Beyond(side, entry, r[i])
    {
      assert r[i] in r;
    }
    forall i, j | 0 <= i < j < |r|
      ensures Beyond(side, r[i], r[j])
    {
      assert if side.Short? then down(r[i]) <= down(r[j]) else up(r[i]) <= up(r[j]);
    }
  }
}
