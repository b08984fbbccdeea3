/** Drawdown and score: what one pass over the closed trades computes, and what it means. */
module Scoring {
  import opened Core
  import opened Market
  import opened Positions
  import opened Replay
  import opened Ledger

  // ---- drawdown ----

  /** Equity after the first n trades, counted from zero. */
  function Equity(pnls: seq<real>, n: nat): real
    requires n <= |pnls|
  {
    if n == 0 then 0.0 else Equity(pnls, n - 1) + pnls[n - 1]
  }

  function Curve(pnls: seq<real>): seq<real> { seq(|pnls| + 1, n requires 0 <= n <= |pnls| => Equity(pnls, n)) }

  /** The largest fall from an earlier point to a later one; a point falls by nothing to itself. */
  ghost predicate IsLargestFall(curve: seq<real>, d: real)
  {
    && (forall i, j :: 0 <= i <= j < |curve| ==> curve[i] - curve[j] <= d)
    && (exists i, j :: 0 <= i <= j < |curve| && curve[i] - curve[j] == d)
  }

  lemma LargestFallIsUnique(curve: seq<real>, d: real, e: real)
    requires IsLargestFall(curve, d) && IsLargestFall(curve, e)
    ensures d == e && 0.0 <= d
  {
    var i, j :| 0 <= i <= j < |curve| && curve[i] - curve[j] == d;
    var k, l :| 0 <= k <= l < |curve| && curve[k] - curve[l] == e;
    assert curve[0] - curve[0] <= d;
  }

  /** A trade without an exit time sorts behind every other: 9999-12-31 in seconds. */
  const LAST_DAY := 253402214400

  const EXIT_TIME: Trade -> real := (t: Trade) => (if t.exitTime.Some? then t.exitTime.value else LAST_DAY) as real

  function Pnls(trades: seq<Trade>): seq<real> { seq(|trades|, i requires 0 <= i < |trades| => trades[i].pnl) }

  ghost predicate IsPeak(curve: seq<real>, n: nat, peak: real)
    requires n < |curve|
  {
    (forall i :: 0 <= i <= n ==> curve[i] <= peak) && exists i :: 0 <= i <= n && curve[i] == peak
  }

  lemma PeakSteps(curve: seq<real>, n: nat, peak: real)
    requires n + 1 < |curve| && IsPeak(curve, n, peak)
    ensures IsPeak(curve, n + 1, Max(peak, curve[n + 1]))
  {
    var i :| 0 <= i <= n && curve[i] == peak;
    assert curve[if peak < curve[n + 1] then n + 1 else i] == Max(peak, curve[n + 1]);
  }

  lemma FallSteps(curve: seq<real>, n: nat, peak: real, d: real)
    requires n + 1 < |curve| && IsPeak(curve, n + 1, peak) && IsLargestFall(curve[..n + 1], d)
    ensures IsLargestFall(curve[..n + 2], Max(d, peak - curve[n + 1]))
  {
    var fall := Max(d, peak - curve[n + 1]);
    forall i, j | 0 <= i <= j < n + 2
      ensures curve[i] - curve[j] <= fall
    {
      if j <= n { assert curve[..n + 1][i] - curve[..n + 1][j] <= d; }
    }
    if d < peak - curve[n + 1] {
      var i :| 0 <= i <= n + 1 && curve[i] == peak;
      assert curve[..n + 2][i] - curve[..n + 2][n + 1] == fall;
    } else {
      var i, j :| 0 <= i <= j < n + 1 && curve[..n + 1][i] - curve[..n + 1][j] == d;
      assert curve[..n + 2][i] - curve[..n + 2][j] == fall;
    }
  }

  lemma FallStarts(curve: seq<real>)
    requires curve != []
    ensures IsPeak(curve, 0, curve[0]) && IsLargestFall(curve[..1], 0.0)
  {
    assert curve[..1][0] - curve[..1][0] == 0.0;
  }

  lemma CurveSteps(pnls: seq<real>, n: nat)
    requires n < |pnls|
    ensures Curve(pnls)[n + 1] == Curve(pnls)[n] + pnls[n]
  {
  }

  /** One pass with a running peak finds the largest fall of the whole curve, its start included. */
  method MaxDrawdown(trades: seq<Trade>) returns (maxDrawdown: real)
    ensures IsLargestFall(Curve(Pnls(StableSort(trades, EXIT_TIME))), maxDrawdown) && 0.0 <= maxDrawdown
  {
    hide IsPeak, IsLargestFall;
    var ordered := StableSort(trades, EXIT_TIME);
    ghost var pnls := Pnls(ordered);
    ghost var curve := Curve(pnls);
    var equity, peak := 0.0, 0.0;
    maxDrawdown := 0.0;
    FallStarts(curve);
    for n := 0 to |ordered|
      invariant equity == curve[n] && IsPeak(curve, n, peak)
      invariant 0.0 <= maxDrawdown && IsLargestFall(curve[..n + 1], maxDrawdown)
    {
      CurveSteps(pnls, n);
      equity := equity + ordered[n].pnl;
      PeakSteps(curve, n, peak);
      peak := Max(peak, equity);
      FallSteps(curve, n, peak, maxDrawdown);
      var drawdown := peak - equity;
      maxDrawdown := Max(maxDrawdown, drawdown);
    }
    assert curve[..|ordered| + 1] == curve;
  }

  /** The points of the runner's equity curve: the equity after each trade, from the starting capital. */
  function Points(start: real, pnls: seq<real>): seq<real>
  {
    seq(|pnls|, i requires 0 <= i < |pnls| => start + Equity(pnls, i + 1))
  }

  /** Some point up to this one is in the black. */
  ghost predicate InTheBlack(points: seq<real>, j: nat)
    requires j < |points|
  {
    exists k :: 0 <= k <= j && 0.0 < points[k]
  }

  /** The runner's drawdown: only falls between points, and only once some point was positive. */
  ghost predicate IsRunnerDrawdown(points: seq<real>, d: real)
  {
    && 0.0 <= d
    && (forall i, j :: 0 <= i <= j < |points| && InTheBlack(points, j) ==> points[i] - points[j] <= d)
    && (d > 0.0 ==> exists i, j :: 0 <= i <= j < |points| && InTheBlack(points, j) && points[i] - points[j] == d)
  }

  method EquityCurve(start: real, pnls: seq<real>) returns (points: seq<real>)
    ensures points == Points(start, pnls)
  {
    var equity := start;
    points := [];
    for i := 0 to |pnls|
      invariant equity == start + Equity(pnls, i)
      invariant points == Points(start, pnls)[..i]
    {
      equity := equity + pnls[i];
      points := points + [equity];
      assert Points(start, pnls)[..i + 1] == Points(start, pnls)[..i] + [Points(start, pnls)[i]];
    }
  }

  method EquityMaxDrawdown(points: seq<real>) returns (maxDrawdown: real)
    ensures IsRunnerDrawdown(points, maxDrawdown)
  {
    var peak: Option<real> := None;
    maxDrawdown := 0.0;
    ghost var top := 0;
    for n := 0 to |points|
      invariant peak.None? <==> n == 0
      invariant peak.Some? ==> 0 <= top < n && peak.value == points[top]
      invariant forall i :: 0 <= i < n ==> points[i] <= peak.value
      invariant 0.0 <= maxDrawdown
      invariant forall i, j :: 0 <= i <= j < n && InTheBlack(points, j) ==> points[i] - points[j] <= maxDrawdown
      invariant maxDrawdown > 0.0
        ==> exists i, j :: 0 <= i <= j < n && InTheBlack(points, j) && points[i] - points[j] == maxDrawdown
    {
      var equity := points[n];
      if peak.None? || peak.value < equity {
        peak := Some(equity);
        top := n;
      }
      if peak.value <= 0.0 {
        continue;
      }
      assert InTheBlack(points, n);
      var drawdown := peak.value - equity;
      if maxDrawdown < drawdown {
        maxDrawdown := drawdown;
        assert points[top] - points[n] == maxDrawdown;
      }
    }
  }

  /** The points run beside the curve, without its start. */
  ghost predicate Beside(curve: seq<real>, points: seq<real>, start: real)
  {
    |curve| == |points| + 1 && curve[0] == 0.0 && forall i :: 0 <= i < |points| ==> points[i] == start + curve[i + 1]
  }

  lemma PointsRunBeside(start: real, pnls: seq<real>)
    ensures Beside(Curve(pnls), Points(start, pnls), start)
  {
  }

  /** The scorer's drawdown is never below the runner's on the same profits, whatever the starting capital. */
  lemma RunnerNeverExceedsScorer(start: real, pnls: seq<real>, scorer: real, runner: real)
    requires IsLargestFall(Curve(pnls), scorer) && IsRunnerDrawdown(Points(start, pnls), runner)
    ensures runner <= scorer
  {
    hide Curve, Points, Equity, InTheBlack;
    var curve, points := Curve(pnls), Points(start, pnls);
    PointsRunBeside(start, pnls);
    assert curve[0] - curve[0] <= scorer;
    if runner > 0.0 {
      var i, j :| 0 <= i <= j < |points| && InTheBlack(points, j) && points[i] - points[j] == runner;
      assert points[i] - points[j] == curve[i + 1] - curve[j + 1];
    }
  }

  /** Some fall between points after the start is as deep. */
  ghost predicate MatchedLater(curve: seq<real>, fall: real)
  {
    exists i, l :: 1 <= i <= l < |curve| && fall <= curve[i] - curve[l]
  }

  /** The largest fall of all against the largest that does not start at the start. */
  lemma FallsAgree(curve: seq<real>, all: real, later: real)
    requires curve != [] && curve[0] == 0.0 && later <= all && IsLargestFall(curve, all)
    requires forall i, l :: 1 <= i <= l < |curve| ==> curve[i] - curve[l] <= later
    requires exists i, l :: 1 <= i <= l < |curve| && curve[i] - curve[l] == later
    ensures all == later <==> forall j :: 0 <= j < |curve| ==> MatchedLater(curve, -curve[j])
  {
    hide MatchedLater, IsLargestFall;
    if all == later {
      forall j | 0 <= j < |curve|
        ensures MatchedLater(curve, -curve[j])
      {
        FallFromStart(curve, all, j);
        MatchedUpTo(curve, -curve[j], later);
      }
    }
    if forall j :: 0 <= j < |curve| ==> MatchedLater(curve, -curve[j]) {
      var i, j := DeepestFall(curve, all);
      MatchedUpTo(curve, -curve[j], later);
    }
  }

  lemma FallFromStart(curve: seq<real>, all: real, j: nat)
    requires j < |curve| && curve[0] == 0.0 && IsLargestFall(curve, all)
    ensures -curve[j] <= all
  {
    assert curve[0] - curve[j] <= all;
  }

  lemma DeepestFall(curve: seq<real>, all: real) returns (i: nat, j: nat)
    requires curve != [] && curve[0] == 0.0 && IsLargestFall(curve, all)
    ensures i <= j < |curve| && curve[i] - curve[j] == all
  {
    i, j :| 0 <= i <= j < |curve| && curve[i] - curve[j] == all;
  }

  lemma MatchedUpTo(curve: seq<real>, fall: real, later: real)
    requires forall i, l :: 1 <= i <= l < |curve| ==> curve[i] - curve[l] <= later
    requires exists i, l :: 1 <= i <= l < |curve| && curve[i] - curve[l] == later
    ensures MatchedLater(curve, fall) <==> fall <= later
  {
    var i, l :| 1 <= i <= l < |curve| && curve[i] - curve[l] == later;
    if fall <= later {
      assert fall <= curve[i] - curve[l];
    }
    if MatchedLater(curve, fall) {
      var f, g :| 1 <= f <= g < |curve| && fall <= curve[f] - curve[g];
    }
  }

  /** From a positive first point on, the runner's drawdown is the largest fall that does not start at the start. */
  lemma LaterFalls(curve: seq<real>, points: seq<real>, start: real, runner: real)
    requires Beside(curve, points, start) && points != [] && 0.0 < points[0] && IsRunnerDrawdown(points, runner)
    ensures forall i, l :: 1 <= i <= l < |curve| ==> curve[i] - curve[l] <= runner
    ensures exists i, l :: 1 <= i <= l < |curve| && curve[i] - curve[l] == runner
  {
    forall i, l | 1 <= i <= l < |curve|
      ensures curve[i] - curve[l] <= runner
    {
      assert InTheBlack(points, l - 1);
      assert points[i - 1] - points[l - 1] <= runner;
    }
    if runner > 0.0 {
      var i, l :| 0 <= i <= l < |points| && InTheBlack(points, l) && points[i] - points[l] == runner;
      assert curve[i + 1] - curve[l + 1] == runner;
    } else {
      assert curve[1] - curve[1] == runner;
    }
  }

  /** Once the first point is positive, they agree exactly when every fall from the starting capital is matched by
      one as deep between later points. */
  lemma DrawdownsAgreeExactly(start: real, pnls: seq<real>, scorer: real, runner: real)
    requires IsLargestFall(Curve(pnls), scorer) && IsRunnerDrawdown(Points(start, pnls), runner)
    requires pnls != [] && 0.0 < Points(start, pnls)[0]
    ensures scorer == runner <==> forall j :: 0 <= j < |Curve(pnls)| ==> MatchedLater(Curve(pnls), -Curve(pnls)[j])
  {
    hide IsLargestFall, IsRunnerDrawdown, MatchedLater;
    RunnerNeverExceedsScorer(start, pnls, scorer, runner);
    PointsRunBeside(start, pnls);
    LaterFalls(Curve(pnls), Points(start, pnls), start, runner);
    FallsAgree(Curve(pnls), scorer, runner);
  }

  /** A losing first trade: the scorer sees the fall from the start, the runner does not. */
  lemma RunnerMissesFirstLoss(start: real, scorer: real, runner: real)
    requires IsLargestFall(Curve([-10.0]), scorer) && IsRunnerDrawdown(Points(start, [-10.0]), runner)
    ensures runner < scorer
  {
    var curve := Curve([-10.0]);
    assert Equity([-10.0], 1) == -10.0;
    assert curve[0] - curve[1] <= scorer;
    assert |Points(start, [-10.0])| == 1;
  }

  // ---- the fill rate ----

  function Filled(trades: seq<Trade>): nat
  {
    if trades == [] then 0 else Filled(trades[..|trades| - 1]) + if trades[|trades| - 1].status.NotFilled? then 0 else 1
  }

  function ParsedSignals(events: seq<Event>, k: nat): nat
    requires k <= |events|
  {
    if k == 0 then 0 else ParsedSignals(events, k - 1) + if events[k - 1].action.OPEN? then 1 else 0
  }

  function FillRate(filled: nat, parsedSignals: nat): real
  {
    if parsedSignals > 0 then filled as real / parsedSignals as real else 0.0
  }

  /** An event's action is that of its parsed signal, as every event is built. */
  ghost predicate ActionsMatch(events: seq<Event>)
  {
    forall e :: e in events ==> e.action == e.parsed.action
  }

  lemma {:induction false} FilledAtMostAll(trades: seq<Trade>)
    ensures Filled(trades) <= |trades|
  {
    if trades != [] { FilledAtMostAll(trades[..|trades| - 1]); }
  }

  lemma {:induction false} OpenedAtMostParsed(events: seq<Event>, k: nat)
    requires ActionsMatch(events) && k <= |events|
    ensures |OpenedBag(events, k)| <= ParsedSignals(events, k)
  {
    if k > 0 {
      OpenedAtMostParsed(events, k - 1);
      assert events[k - 1] in events;
    }
  }

  lemma FilledAtMostParsed(events: seq<Event>, candles: seq<Candle>, cfg: Config, policy: FillPolicy)
    requires DistinctOpens(events) && ActionsMatch(events)
    ensures Filled(RunSorted(events, candles, cfg, policy).trades) <= ParsedSignals(events, |events|)
  {
    hide RunSorted, TradeBag, OpenedBag, Filled;
    var trades := RunSorted(events, candles, cfg, policy).trades;
    LedgerConserved(events, candles, cfg, policy);
    FilledAtMostAll(trades);
    TradeBagSize(trades);
    OpenedAtMostParsed(events, |events|);
  }

  /** Over a whole run no more trades are filled than signals were parsed. */
  lemma {:induction false} FillRateAtMostOne(events: seq<Event>, candles: seq<Candle>, cfg: Config, policy: FillPolicy)
    requires DistinctOpens(events) && ActionsMatch(events)
    ensures var filled := Filled(RunSorted(events, candles, cfg, policy).trades);
            0.0 <= FillRate(filled, ParsedSignals(events, |events|)) <= 1.0
  {
    hide RunSorted, Filled, ParsedSignals;
    FilledAtMostParsed(events, candles, cfg, policy);
    RatioAtMostOne(Filled(RunSorted(events, candles, cfg, policy).trades), ParsedSignals(events, |events|));
  }

  lemma RatioAtMostOne(filled: nat, parsed: nat)
    requires filled <= parsed
    ensures 0.0 <= FillRate(filled, parsed) <= 1.0
  {
  }

  // ---- the score ----

  function ScaleClamped(value: real, ceiling: real): (r: real)
    ensures 0.0 <= r <= 100.0
  {
    if ceiling <= 0.0 then 0.0 else Max(0.0, Min(value / ceiling, 1.0)) * 100.0
  }

  datatype Metrics = Metrics(totalPnl: real, maxDrawdown: real, winRate: real, profitFactor: Option<real>,
                             optimisticPnl: real, conservativePnl: real, parsedSignals: nat)

  function Consistency(m: Metrics): real
  {
    var reference := Max(Max(Abs(m.optimisticPnl), Abs(m.conservativePnl)), 1.0);
    1.0 - Min(Abs(m.optimisticPnl - m.conservativePnl) / reference, 1.0)
  }

  function Confidence(filled: nat): real { Min(filled as real / 12.0, 1.0) }

  function Weighted(m: Metrics, filled: nat, wins: nat, losses: nat, initialBalance: real): real
  {
    var initial := if 0.0 < initialBalance then initialBalance else 1.0;
    Blend(ScaleClamped(m.totalPnl / initial, 0.30), m.winRate * 100.0, FactorPart(m, wins, losses),
          (1.0 - Min(m.maxDrawdown / initial / 0.20, 1.0)) * 100.0, FillRate(filled, m.parsedSignals) * 100.0,
          Consistency(m) * 100.0, Confidence(filled) * 100.0)
  }

  function Blend(profit: real, wins: real, factor: real, control: real, fill: real, consistency: real,
                 sample: real): real
  {
    profit * 0.24 + wins * 0.18 + factor * 0.17 + control * 0.15 + fill * 0.10 + consistency * 0.10 + sample * 0.06
  }

  /** The weights are shares of one. */
  lemma BlendStaysInRange(profit: real, wins: real, factor: real, control: real, fill: real, consistency: real,
                          sample: real)
    requires 0.0 <= profit <= 100.0 && 0.0 <= wins <= 100.0 && 0.0 <= factor <= 100.0 && 0.0 <= control <= 100.0
    requires 0.0 <= fill <= 100.0 && 0.0 <= consistency <= 100.0 && 0.0 <= sample <= 100.0
    ensures 0.0 <= Blend(profit, wins, factor, control, fill, consistency, sample) <= 100.0
  {
  }

  function FinalScore(m: Metrics, filled: nat, wins: nat, losses: nat, initialBalance: real): real
  {
    var scaled := Weighted(m, filled, wins, losses, initialBalance) * (0.70 + Confidence(filled) * 0.30);
    Max(0.0, Min(scaled, 100.0))
  }

  lemma DividedByReference(gap: real, reference: real)
    requires 0.0 <= gap && 1.0 <= reference
    ensures 0.0 <= gap / reference
  {
  }

  lemma ConsistencyIsShare(m: Metrics)
    ensures 0.0 <= Consistency(m) <= 1.0
  {
    DividedByReference(Abs(m.optimisticPnl - m.conservativePnl),
                       Max(Max(Abs(m.optimisticPnl), Abs(m.conservativePnl)), 1.0));
  }

  lemma ControlIsShare(drawdown: real, initial: real)
    requires 0.0 <= drawdown && 0.0 < initial
    ensures 0.0 <= 1.0 - Min(drawdown / initial / 0.20, 1.0) <= 1.0
  {
    assert 0.0 <= drawdown / initial;
  }

  lemma ScaledStaysInRange(weighted: real, confidence: real)
    requires 0.0 <= weighted <= 100.0 && 0.0 <= confidence <= 1.0
    ensures 0.0 <= weighted * (0.70 + confidence * 0.30) <= 100.0
  {
    var multiplier := 0.70 + confidence * 0.30;
    assert 0.0 <= multiplier <= 1.0;
    assert weighted * multiplier <= weighted * 1.0;
  }

  /** Parts that are all alike blend to what they are. */
  lemma BlendOfEqual(x: real)
    ensures Blend(x, x, x, x, x, x, x) == x
  {
  }

  lemma QuotientRises(a: real, b: real, c: real)
    requires 0.0 < c && a <= b
    ensures a / c <= b / c
  {
  }

  lemma ScaleRises(a: real, b: real, ceiling: real)
    requires a <= b
    ensures ScaleClamped(a, ceiling) <= ScaleClamped(b, ceiling)
  {
    if 0.0 < ceiling { QuotientRises(a, b, ceiling); }
  }

  lemma FillRises(f: nat, n: nat, g: nat, k: nat)
    requires f <= g && k <= n && g <= k
    ensures FillRate(f, n) <= FillRate(g, k)
  {
    if 0 < k {
      var x, y := f as real / n as real, g as real / k as real;
      assert x * n as real == f as real && y * k as real == g as real;
      assert 0.0 <= y;
      assert y * k as real <= y * n as real;
      QuotientRises(f as real, y * n as real, n as real);
      assert y * n as real / n as real == y;
    }
  }

  lemma ControlRises(a: real, b: real, initial: real)
    requires b <= a && 0.0 < initial
    ensures 1.0 - Min(a / initial / 0.20, 1.0) <= 1.0 - Min(b / initial / 0.20, 1.0)
  {
    QuotientRises(b, a, initial);
  }

  /** At least as good in every respect, with the same result under both policies. */
  predicate NoWorseThan(m: Metrics, n: Metrics, filled: nat, more: nat)
  {
    && m.totalPnl <= n.totalPnl && m.winRate <= n.winRate && n.maxDrawdown <= m.maxDrawdown
    && n.optimisticPnl == m.optimisticPnl && n.conservativePnl == m.conservativePnl
    && filled <= more && n.parsedSignals <= m.parsedSignals
    && match m.profitFactor
       case None => n.profitFactor.None?
       case Some(f) => n.profitFactor.Some? && f <= n.profitFactor.value
  }

  lemma WeightedRises(m: Metrics, n: Metrics, filled: nat, more: nat, wins: nat, losses: nat, initialBalance: real)
    requires NoWorseThan(m, n, filled, more) && more <= n.parsedSignals
    ensures Weighted(m, filled, wins, losses, initialBalance) <= Weighted(n, more, wins, losses, initialBalance)
  {
    hide ScaleClamped, FillRate;
    var initial := if 0.0 < initialBalance then initialBalance else 1.0;
    QuotientRises(m.totalPnl, n.totalPnl, initial);
    ScaleRises(m.totalPnl / initial, n.totalPnl / initial, 0.30);
    if m.profitFactor.Some? { ScaleRises(m.profitFactor.value, n.profitFactor.value, 3.0); }
    ControlRises(m.maxDrawdown, n.maxDrawdown, initial);
    FillRises(filled, m.parsedSignals, more, n.parsedSignals);
    assert Consistency(m) == Consistency(n);
    hide Consistency;
    BlendRises(m, n, filled, more);
  }

  /** More filled trades can only raise the confidence. */
  lemma BlendRises(m: Metrics, n: Metrics, filled: nat, more: nat)
    requires filled <= more
    ensures Confidence(filled) <= Confidence(more) && 0.0 <= Confidence(filled)
  {
  }

  lemma ProductsRise(a: real, b: real, f: real, g: real)
    requires 0.0 <= a <= b && 0.0 <= f <= g
    ensures a * f <= b * g
  {
    assert a * f <= b * f;
    assert b * f <= b * g;
  }

  /** The score never falls when profit, win rate, profit factor or the share of signals filled rises, nor when the
      drawdown shrinks. */
  lemma {:induction false} ScoreRises(m: Metrics, n: Metrics, filled: nat, more: nat, wins: nat, losses: nat,
                                      initialBalance: real)
    requires NoWorseThan(m, n, filled, more) && more <= n.parsedSignals
    requires 0.0 <= m.winRate && n.winRate <= 1.0 && 0.0 <= n.maxDrawdown
    ensures FinalScore(m, filled, wins, losses, initialBalance) <= FinalScore(n, more, wins, losses, initialBalance)
  {
    hide Weighted, Consistency, Confidence;
    WeightedRises(m, n, filled, more, wins, losses, initialBalance);
    WeightedInRange(m, filled, wins, losses, initialBalance);
    BlendRises(m, n, filled, more);
    ProductsRise(Weighted(m, filled, wins, losses, initialBalance), Weighted(n, more, wins, losses, initialBalance),
                 0.70 + Confidence(filled) * 0.30, 0.70 + Confidence(more) * 0.30);
  }

  /** With ratios for rates and a drawdown for a drawdown, the outer clamp never bites. */
  lemma {:induction false} ClampNeverBites(m: Metrics, filled: nat, wins: nat, losses: nat, initialBalance: real)
    requires 0.0 <= m.winRate <= 1.0 && 0.0 <= m.maxDrawdown && filled <= m.parsedSignals
    ensures FinalScore(m, filled, wins, losses, initialBalance)
         == Weighted(m, filled, wins, losses, initialBalance) * (0.70 + Confidence(filled) * 0.30)
  {
    hide Consistency, ScaleClamped, FillRate, Blend, Weighted;
    WeightedInRange(m, filled, wins, losses, initialBalance);
    ScaledStaysInRange(Weighted(m, filled, wins, losses, initialBalance), Confidence(filled));
  }

  function Wins(trades: seq<Trade>): nat
  {
    if trades == [] then 0
    else
      var t := trades[|trades| - 1];
      Wins(trades[..|trades| - 1]) + if !t.status.NotFilled? && 0.0 < t.pnl then 1 else 0
  }

  function Losses(trades: seq<Trade>): nat
  {
    if trades == [] then 0
    else
      var t := trades[|trades| - 1];
      Losses(trades[..|trades| - 1]) + if !t.status.NotFilled? && t.pnl < 0.0 then 1 else 0
  }

  function WinRate(trades: seq<Trade>): real
  {
    if Filled(trades) == 0 then 0.0 else Wins(trades) as real / Filled(trades) as real
  }

  /** What was won, or lost, by the filled trades on one side. */
  function Gross(trades: seq<Trade>, sign: real): real
  {
    if trades == [] then 0.0
    else
      var t := trades[|trades| - 1];
      Gross(trades[..|trades| - 1], sign)
      + if !t.status.NotFilled? && 0.0 < sign * t.pnl then sign * t.pnl else 0.0
  }

  function ProfitFactor(trades: seq<Trade>): Option<real>
  {
    if 0.0 < Gross(trades, -1.0) then Some(Gross(trades, 1.0) / Gross(trades, -1.0)) else None
  }

  /** The metrics of a channel, from its events and trades and the results under both policies. */
  function MetricsOf(events: seq<Event>, trades: seq<Trade>, maxDrawdown: real, totalPnl: real, optimisticPnl: real,
                     conservativePnl: real): Metrics
  {
    Metrics(totalPnl, maxDrawdown, WinRate(trades), ProfitFactor(trades), optimisticPnl, conservativePnl,
            ParsedSignals(events, |events|))
  }

  lemma {:induction false} WinsAmongFilled(trades: seq<Trade>)
    ensures Wins(trades) + Losses(trades) <= Filled(trades)
  {
    if trades != [] { WinsAmongFilled(trades[..|trades| - 1]); }
  }

  lemma WinRateIsShare(trades: seq<Trade>)
    ensures 0.0 <= WinRate(trades) <= 1.0
  {
    WinsAmongFilled(trades);
    if Filled(trades) != 0 { RatioAtMostOne(Wins(trades), Filled(trades)); }
  }

  /** The weights of the parts, in hundredths: what each adds when it goes from nothing to full marks. */
  lemma BlendByParts(p: real, w: real, f: real, c: real, r: real, k: real, s: real)
    ensures Blend(100.0, w, f, c, r, k, s) - Blend(0.0, w, f, c, r, k, s) == 24.0
    ensures Blend(p, 100.0, f, c, r, k, s) - Blend(p, 0.0, f, c, r, k, s) == 18.0
    ensures Blend(p, w, 100.0, c, r, k, s) - Blend(p, w, 0.0, c, r, k, s) == 17.0
    ensures Blend(p, w, f, 100.0, r, k, s) - Blend(p, w, f, 0.0, r, k, s) == 15.0
    ensures Blend(p, w, f, c, 100.0, k, s) - Blend(p, w, f, c, 0.0, k, s) == 10.0
    ensures Blend(p, w, f, c, r, 100.0, s) - Blend(p, w, f, c, r, 0.0, s) == 10.0
    ensures Blend(p, w, f, c, r, k, 100.0) - Blend(p, w, f, c, r, k, 0.0) == 6.0
  {
  }

  /** What a fully clamped scale says. */
  lemma ScaleEnds(value: real, ceiling: real)
    requires 0.0 < ceiling
    ensures ScaleClamped(value, ceiling) == 100.0 <==> ceiling <= value
    ensures ScaleClamped(value, ceiling) == 0.0 <==> value <= 0.0
  {
    var r := value / ceiling;
    assert r * ceiling == value;
    if ceiling <= value { QuotientRises(ceiling, value, ceiling); } else { BelowOne(r, ceiling); }
    SignOfQuotient(value, ceiling);
  }

  lemma SignOfQuotient(a: real, b: real)
    requires 0.0 < b
    ensures (a / b <= 0.0 <==> a <= 0.0) && (a / b == 0.0 <==> a == 0.0)
  {
    var r := a / b;
    assert r * b == a;
    if a <= 0.0 { QuotientRises(a, 0.0, b); } else { QuotientPositive(a, b); }
  }

  lemma QuotientPositive(a: real, b: real)
    requires 0.0 < a && 0.0 < b
    ensures 0.0 < a / b
  {
  }

  lemma ReturnEnds(pnl: real, initial: real)
    requires 0.0 < initial
    ensures ScaleClamped(pnl / initial, 0.30) == 100.0 <==> 0.30 * initial <= pnl
    ensures ScaleClamped(pnl / initial, 0.30) == 0.0 <==> pnl <= 0.0
  {
    hide ScaleClamped;
    ScaleEnds(pnl / initial, 0.30);
    SignOfQuotient(pnl, initial);
    CompareQuotient(0.30, pnl, initial);
  }

  lemma CompareQuotient(c: real, a: real, b: real)
    requires 0.0 < b
    ensures c <= a / b <==> c * b <= a
  {
    var r := a / b;
    assert r * b == a;
    if c <= r { ProductRises(c, r, b); } else { ProductFalls(r, c, b); }
  }

  lemma ProductRises(x: real, y: real, f: real)
    requires 0.0 < f && x <= y
    ensures x * f <= y * f
  {
  }

  lemma ProductFalls(x: real, y: real, f: real)
    requires 0.0 < f && x < y
    ensures x * f < y * f
  {
  }

  lemma ControlEnds(drawdown: real, initial: real)
    requires 0.0 < initial && 0.0 <= drawdown
    ensures var control := (1.0 - Min(drawdown / initial / 0.20, 1.0)) * 100.0;
            && 0.0 <= control <= 100.0
            && (control == 100.0 <==> drawdown == 0.0) && (control == 0.0 <==> 0.20 * initial <= drawdown)
  {
    SignOfQuotient(drawdown, initial);
    CompareQuotient(0.20, drawdown, initial);
    var r := drawdown / initial;
    assert r / 0.20 == r * 5.0;
  }

  lemma FillEnds(filled: nat, parsed: nat)
    requires filled <= parsed
    ensures 0.0 <= FillRate(filled, parsed) <= 1.0
    ensures FillRate(filled, parsed) == 1.0 <==> 0 < filled == parsed
    ensures FillRate(filled, parsed) == 0.0 <==> filled == 0
  {
    RatioAtMostOne(filled, parsed);
    if 0 < parsed {
      var r := filled as real / parsed as real;
      assert r * parsed as real == filled as real;
      SignOfQuotient(filled as real, parsed as real);
    }
  }

  /** The part for the profit factor has full marks from three up, or where nothing was lost and something won. */
  function FactorPart(m: Metrics, wins: nat, losses: nat): real
  {
    match m.profitFactor
    case Some(f) => ScaleClamped(f, 3.0)
    case None => if wins > 0 && losses == 0 then 100.0 else 0.0
  }

  predicate Invested(initialBalance: real, initial: real)
  {
    initial == if 0.0 < initialBalance then initialBalance else 1.0
  }

  lemma MultiplierEnds(weighted: real, confidence: real)
    requires 0.0 <= weighted <= 100.0 && 0.0 <= confidence <= 1.0
    ensures var score := weighted * (0.70 + confidence * 0.30);
            && 0.0 <= score <= 100.0
            && (score == 100.0 <==> weighted == 100.0 && confidence == 1.0) && (score == 0.0 <==> weighted == 0.0)
  {
    var f := 0.70 + confidence * 0.30;
    ScaledStaysInRange(weighted, confidence);
    if 0.0 < weighted { ProductFalls(0.0, weighted, f); }
    if weighted < 100.0 { ProductFalls(weighted, 100.0, f); }
    if weighted == 100.0 { assert weighted * f == 100.0 * f; }
  }

  /** Full marks go to a channel, and only to one, that made at least thirty percent, won every filled trade, made at
      least three times what it lost, never fell, filled every signal and at least twelve, and came to the same under
      both policies. */
  lemma {:induction false} PerfectExactly(m: Metrics, filled: nat, wins: nat, losses: nat, initialBalance: real,
                                          initial: real)
    requires 0.0 <= m.winRate <= 1.0 && 0.0 <= m.maxDrawdown && filled <= m.parsedSignals
    requires Invested(initialBalance, initial)
    ensures FinalScore(m, filled, wins, losses, initialBalance) == 100.0 <==>
              && 0.30 * initial <= m.totalPnl && m.winRate == 1.0 && m.maxDrawdown == 0.0
              && (match m.profitFactor case Some(f) => 3.0 <= f case None => wins > 0 && losses == 0)
              && 12 <= filled == m.parsedSignals && m.optimisticPnl == m.conservativePnl
  {
    hide ScaleClamped, FillRate, Consistency, Confidence, Weighted;
    PartsEnd(m, filled, wins, losses, initialBalance, initial);
    MultiplierEnds(Weighted(m, filled, wins, losses, initialBalance), Confidence(filled));
    ConfidenceMeans(filled);
  }

  /** Nothing goes to a channel, and only to one, that made nothing, won nothing, fell by at least a fifth, filled
      nothing, and came to opposite results under the policies. */
  lemma {:induction false} NothingExactly(m: Metrics, filled: nat, wins: nat, losses: nat, initialBalance: real,
                                          initial: real)
    requires 0.0 <= m.winRate <= 1.0 && 0.0 <= m.maxDrawdown && filled <= m.parsedSignals
    requires Invested(initialBalance, initial)
    ensures FinalScore(m, filled, wins, losses, initialBalance) == 0.0 <==>
              && m.totalPnl <= 0.0 && m.winRate == 0.0 && 0.20 * initial <= m.maxDrawdown
              && (match m.profitFactor case Some(f) => f <= 0.0 case None => wins == 0 || losses != 0)
              && filled == 0 && Consistency(m) == 0.0
  {
    hide ScaleClamped, FillRate, Consistency, Confidence, Weighted;
    PartsEnd(m, filled, wins, losses, initialBalance, initial);
    MultiplierEnds(Weighted(m, filled, wins, losses, initialBalance), Confidence(filled));
  }

  lemma PartsEnd(m: Metrics, filled: nat, wins: nat, losses: nat, initialBalance: real, initial: real)
    requires 0.0 <= m.winRate <= 1.0 && 0.0 <= m.maxDrawdown && filled <= m.parsedSignals
    requires Invested(initialBalance, initial)
    ensures 0.0 <= Weighted(m, filled, wins, losses, initialBalance) <= 100.0 && 0.0 <= Confidence(filled) <= 1.0
    ensures Weighted(m, filled, wins, losses, initialBalance) == 100.0 <==>
              && 0.30 * initial <= m.totalPnl && m.winRate == 1.0 && m.maxDrawdown == 0.0
              && (match m.profitFactor case Some(f) => 3.0 <= f case None => wins > 0 && losses == 0)
              && 0 < filled == m.parsedSignals && m.optimisticPnl == m.conservativePnl && Confidence(filled) == 1.0
    ensures Weighted(m, filled, wins, losses, initialBalance) == 0.0 <==>
              && m.totalPnl <= 0.0 && m.winRate == 0.0 && 0.20 * initial <= m.maxDrawdown
              && (match m.profitFactor case Some(f) => f <= 0.0 case None => wins == 0 || losses != 0)
              && filled == 0 && Consistency(m) == 0.0
  {
    hide ScaleClamped, FillRate, Consistency;
    ReturnEnds(m.totalPnl, initial);
    if m.profitFactor.Some? { ScaleEnds(m.profitFactor.value, 3.0); }
    ControlEnds(m.maxDrawdown, initial);
    FillEnds(filled, m.parsedSignals);
    ConsistencyMeans(m);
    ConfidenceMeans(filled);
    BlendEnds(ScaleClamped(m.totalPnl / initial, 0.30), m.winRate * 100.0, FactorPart(m, wins, losses),
              (1.0 - Min(m.maxDrawdown / initial / 0.20, 1.0)) * 100.0, FillRate(filled, m.parsedSignals) * 100.0,
              Consistency(m) * 100.0, Confidence(filled) * 100.0);
  }

  lemma BlendEnds(p: real, w: real, f: real, c: real, r: real, k: real, s: real)
    requires 0.0 <= p <= 100.0 && 0.0 <= w <= 100.0 && 0.0 <= f <= 100.0 && 0.0 <= c <= 100.0
    requires 0.0 <= r <= 100.0 && 0.0 <= k <= 100.0 && 0.0 <= s <= 100.0
    ensures 0.0 <= Blend(p, w, f, c, r, k, s) <= 100.0
    ensures Blend(p, w, f, c, r, k, s) == 100.0
        <==> p == 100.0 && w == 100.0 && f == 100.0 && c == 100.0 && r == 100.0 && k == 100.0 && s == 100.0
    ensures Blend(p, w, f, c, r, k, s) == 0.0
        <==> p == 0.0 && w == 0.0 && f == 0.0 && c == 0.0 && r == 0.0 && k == 0.0 && s == 0.0
  {
  }

  /** Drawdown looks at trades in the order of their exits, those without one last. */
  lemma InExitOrder(trades: seq<Trade>)
    ensures var s := StableSort(trades, EXIT_TIME);
            && multiset(s) == multiset(trades)
            && forall i, j :: 0 <= i < j < |s| ==>
                 && (s[i].exitTime.Some? && s[j].exitTime.Some? ==> s[i].exitTime.value <= s[j].exitTime.value)
                 && (s[i].exitTime.None? && s[j].exitTime.Some? ==> LAST_DAY <= s[j].exitTime.value)
  {
    StableSortSorts(trades, EXIT_TIME);
    var s := StableSort(trades, EXIT_TIME);
    forall i, j | 0 <= i < j < |s|
      ensures EXIT_TIME(s[i]) <= EXIT_TIME(s[j])
    {
    }
  }

  const FILLED: Trade -> bool := (t: Trade) => t.status != NotFilled
  const WON: Trade -> bool := (t: Trade) => t.status != NotFilled && 0.0 < t.pnl
  const LOST: Trade -> bool := (t: Trade) => t.status != NotFilled && t.pnl < 0.0

  /** How many places of a list pass a test. */
  function Number(trades: seq<Trade>, test: Trade -> bool): nat
  {
    |set i | 0 <= i < |trades| && test(trades[i])|
  }

  lemma NumberSteps(trades: seq<Trade>, test: Trade -> bool)
    requires trades != []
    ensures Number(trades, test)
         == Number(trades[..|trades| - 1], test) + if test(trades[|trades| - 1]) then 1 else 0
  {
    var n := |trades| - 1;
    var front := set i | 0 <= i < |trades[..n]| && test(trades[..n][i]);
    var all := set i | 0 <= i < |trades| && test(trades[i]);
    assert all == front + if test(trades[n]) then {n} else {};
  }

  /** Filled trades, and the winning and losing ones among them. */
  lemma {:induction false} CountsMean(trades: seq<Trade>)
    ensures Filled(trades) == Number(trades, FILLED)
    ensures Wins(trades) == Number(trades, WON)
    ensures Losses(trades) == Number(trades, LOST)
  {
    hide Number;
    if trades == [] {
      NumberOfNone(FILLED);
      NumberOfNone(WON);
      NumberOfNone(LOST);
    } else {
      CountsMean(trades[..|trades| - 1]);
      NumberSteps(trades, FILLED);
      NumberSteps(trades, WON);
      NumberSteps(trades, LOST);
    }
  }

  lemma NumberOfNone(test: Trade -> bool)
    ensures Number([], test) == 0
  {
  }

  /** What was won less what was lost is what the filled trades came to; so the profit factor is above one exactly
      when they made money. */
  lemma {:induction false} GrossBalances(trades: seq<Trade>)
    ensures 0.0 <= Gross(trades, 1.0) && 0.0 <= Gross(trades, -1.0)
    ensures Gross(trades, 1.0) - Gross(trades, -1.0) == FilledPnl(trades)
  {
    if trades != [] { GrossBalances(trades[..|trades| - 1]); }
  }

  function FilledPnl(trades: seq<Trade>): real
  {
    if trades == [] then 0.0
    else
      var t := trades[|trades| - 1];
      FilledPnl(trades[..|trades| - 1]) + if t.status.NotFilled? then 0.0 else t.pnl
  }

  lemma FactorAboveOne(trades: seq<Trade>)
    requires ProfitFactor(trades).Some?
    ensures 1.0 < ProfitFactor(trades).value <==> 0.0 < FilledPnl(trades)
  {
    hide Gross, FilledPnl;
    GrossBalances(trades);
    var won, lost := Gross(trades, 1.0), Gross(trades, -1.0);
    assert won / lost * lost == won;
    if won <= lost { QuotientRises(won, lost, lost); }
  }

  /** Full agreement of the policies, and only that, makes a channel consistent; a gap as large as the larger result
      leaves nothing. */
  lemma ConsistencyMeans(m: Metrics)
    ensures 0.0 <= Consistency(m) <= 1.0
    ensures Consistency(m) == 1.0 <==> m.optimisticPnl == m.conservativePnl
    ensures Consistency(m) == 0.0
        <==> Max(Max(Abs(m.optimisticPnl), Abs(m.conservativePnl)), 1.0) <= Abs(m.optimisticPnl - m.conservativePnl)
  {
    ConsistencyIsShare(m);
    CappedRatio(Abs(m.optimisticPnl - m.conservativePnl),
                Max(Max(Abs(m.optimisticPnl), Abs(m.conservativePnl)), 1.0));
  }

  lemma CappedRatio(a: real, b: real)
    requires 0.0 <= a && 0.0 < b
    ensures Min(a / b, 1.0) == 0.0 <==> a == 0.0
    ensures Min(a / b, 1.0) == 1.0 <==> b <= a
  {
    var r := a / b;
    assert r * b == a;
    if b <= a {
      QuotientRises(b, a, b);
    } else {
      BelowOne(r, b);
    }
  }

  lemma BelowOne(r: real, b: real)
    requires 0.0 < b && r * b < b
    ensures r < 1.0
  {
  }

  /** Twelve filled trades make a full sample; fewer make their twelfths of one. */
  lemma ConfidenceMeans(filled: nat)
    ensures 12.0 * Confidence(filled) == if filled < 12 then filled as real else 12.0
  {
  }

  /** The score of a run is the weighted mean of its parts: its rates are shares, its drawdown is a fall, and it
      fills no more than was parsed, so the outer clamp changes nothing. */
  lemma {:induction false} RunScoreIsWeightedMean(
    events: seq<Event>, candles: seq<Candle>, cfg: Config, policy: FillPolicy, maxDrawdown: real, totalPnl: real,
    optimisticPnl: real, conservativePnl: real)
    requires DistinctOpens(events) && ActionsMatch(events)
    requires var trades := RunSorted(events, candles, cfg, policy).trades;
             IsLargestFall(Curve(Pnls(StableSort(trades, EXIT_TIME))), maxDrawdown)
    ensures var trades := RunSorted(events, candles, cfg, policy).trades;
            var m := MetricsOf(events, trades, maxDrawdown, totalPnl, optimisticPnl, conservativePnl);
            FinalScore(m, Filled(trades), Wins(trades), Losses(trades), cfg.initialBalance)
              == Weighted(m, Filled(trades), Wins(trades), Losses(trades), cfg.initialBalance)
                 * (0.70 + Confidence(Filled(trades)) * 0.30)
  {
    hide RunSorted, Weighted, FinalScore, IsLargestFall, Curve, Filled, Wins, Losses, WinRate, ParsedSignals;
    var trades := RunSorted(events, candles, cfg, policy).trades;
    LargestFallIsUnique(Curve(Pnls(StableSort(trades, EXIT_TIME))), maxDrawdown, maxDrawdown);
    WinRateIsShare(trades);
    FilledAtMostParsed(events, candles, cfg, policy);
    ClampNeverBites(MetricsOf(events, trades, maxDrawdown, totalPnl, optimisticPnl, conservativePnl), Filled(trades),
                    Wins(trades), Losses(trades), cfg.initialBalance);
  }

  lemma WeightedInRange(m: Metrics, filled: nat, wins: nat, losses: nat, initialBalance: real)
    requires 0.0 <= m.winRate <= 1.0 && 0.0 <= m.maxDrawdown && filled <= m.parsedSignals
    ensures 0.0 <= Weighted(m, filled, wins, losses, initialBalance) <= 100.0
  {
    hide Consistency, ScaleClamped, FillRate, Blend;
    var initial := if 0.0 < initialBalance then initialBalance else 1.0;
    ConsistencyIsShare(m);
    ControlIsShare(m.maxDrawdown, initial);
    RatioAtMostOne(filled, m.parsedSignals);
    var factor := match m.profitFactor
                  case Some(f) => ScaleClamped(f, 3.0)
                  case None => if wins > 0 && losses == 0 then 100.0 else 0.0;
    BlendStaysInRange(ScaleClamped(m.totalPnl / initial, 0.30), m.winRate * 100.0, factor,
                      (1.0 - Min(m.maxDrawdown / initial / 0.20, 1.0)) * 100.0,
                      FillRate(filled, m.parsedSignals) * 100.0, Consistency(m) * 100.0, Confidence(filled) * 100.0);
  }
}
