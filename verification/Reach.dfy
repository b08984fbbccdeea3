/** What a candle's range says about the positions that met it. */
module Reach {
  import opened Core
  import opened Market
  import opened Positions
  import opened Sizing
  import opened Replay
  import opened Accounting
  import opened Journeys

  /** The whole range of the candle lies short of the price on the way to profit. */
  predicate RangeShortOf(side: Side, c: Candle, target: real)
  {
    if side.Short? then target < c.low else c.high < target
  }

  /** The whole range of the candle lies on the profitable side of the price. */
  predicate RangePast(side: Side, c: Candle, stop: real)
  {
    if side.Short? then c.high < stop else stop < c.low
  }

  /** The candle's range lies strictly between the stop and every target still pending. */
  ghost predicate Between(p: Position, c: Candle)
  {
    RangePast(p.side, c, p.stopLoss) && forall i :: 0 <= i < |Pending(p)| ==> RangeShortOf(p.side, c, Pending(p)[i])
  }

  lemma {:induction false} MissedAreBeyond(p: Position, c: Candle, tps: seq<real>, k: nat)
    requires forall i, j :: 0 <= i < j < |tps| ==> Beyond(p.side, tps[i], tps[j])
    requires k == |HitTargets(p, c, tps)|
    ensures k <= |tps|
    ensures forall i :: k <= i < |tps| ==> RangeShortOf(p.side, c, tps[i])
    ensures forall i :: 0 <= i < k ==> !RangeShortOf(p.side, c, tps[i])
    decreases |tps|
  {
    if tps != [] {
      if HitTarget(p, c, tps[0]) {
        MissedAreBeyond(p, c, tps[1..], k - 1);
        forall i | 0 <= i < |tps|
          ensures RangeShortOf(p.side, c, tps[i]) <==> k <= i
        {
          if 0 < i { assert tps[i] == tps[1..][i - 1]; }
        }
      } else {
        NoHitBeyond(p, c, tps[1..]);
      }
    }
  }

  /** Every target is reached, and some were pending. */
  ghost predicate ReachesAll(p: Position, c: Candle)
  {
    Pending(p) != [] && forall i :: 0 <= i < |Pending(p)| ==> !RangeShortOf(p.side, c, Pending(p)[i])
  }

  /** The candle reaches the stop, or every target that is pending. */
  ghost predicate Ends(p: Position, c: Candle) { !RangePast(p.side, c, p.stopLoss) || ReachesAll(p, c) }

  /** Only the targets move: some more of them have been taken. */
  ghost predicate Further(p: Position, q: Position)
  {
    && q.stopLoss == p.stopLoss && q.takeProfits == p.takeProfits && q.side == p.side
    && p.targetsHit <= q.targetsHit <= |p.takeProfits|
  }

  /** How many targets the candle takes, and what its range says of them and of the stop. */
  lemma TargetsReached(p: Position, c: Candle) returns (k: nat)
    requires OnLadder(p)
    ensures k <= |Pending(p)| && HitTargets(p, c, Pending(p)) == Pending(p)[..k]
    ensures forall i :: 0 <= i < k ==> !RangeShortOf(p.side, c, Pending(p)[i])
    ensures forall i :: k <= i < |Pending(p)| ==> RangeShortOf(p.side, c, Pending(p)[i])
    ensures (ReachesOne(p, c) <==> 0 < k) && (ReachesAll(p, c) <==> 0 < k == |Pending(p)|)
    ensures HitStop(p, c) <==> !RangePast(p.side, c, p.stopLoss)
  {
    k := CandleTakesNearest(p, c);
    PendingClimbs(p);
    MissedAreBeyond(p, c, Pending(p), k);
    var pending := Pending(p);
    if k < |pending| { assert RangeShortOf(p.side, c, pending[k]); }
    if 0 < k { assert !RangeShortOf(p.side, c, pending[0]); }
  }

  /** The candle by cases: targets first, then the stop; a conservative clash takes the stop alone. */
  lemma CandleByCases(p: Position, c: Candle, policy: FillPolicy, k: nat)
    requires k <= |Pending(p)| && HitTargets(p, c, Pending(p)) == Pending(p)[..k]
    ensures var q, r := TakeTargets(p, c.closeTime, Pending(p)[..k]), ApplyCandle(p, c, policy);
            && (k == 0 ==> q == p)
            && r == if HitStop(p, c) && 0 < k && policy.CONSERVATIVE? then StopOut(p, c, true)
                    else if 0 < k && q.remaining <= 0.0 then Outcome(q, Some(TpStatus(q, HitStop(p, c))))
                    else if HitStop(p, c) && 0.0 < q.remaining then StopOut(q, c, 0 < k)
                    else Outcome(q, None)
  {
    hide HitStop, CloseFraction, TakeTarget, Pending, SlStatus, TpStatus;
    var hits := Pending(p)[..k];
    assert |hits| == k && (k == 0 ==> hits == []);
    assert k == 0 ==> TakeTargets(p, c.closeTime, []) == p;
  }

  /** A relevant candle leaves a position open only if its range stays strictly off the stop and off every target
      still pending; and it ends the position exactly when it reaches the stop, or every target that was pending. */
  lemma CandleReaches(p: Position, c: Candle, policy: FillPolicy, cfg: Config)
    requires Sound(p, cfg) && Relevant(p, c)
    ensures Face(p, c, policy).Over? <==> Ends(p, c)
    ensures Face(p, c, policy).Alive? ==>
              var q := Face(p, c, policy).position;
              && Between(q, c) && Further(p, q)
              && (forall i :: p.targetsHit <= i < q.targetsHit ==> !RangeShortOf(p.side, c, p.takeProfits[i]))
  {
    hide Accounts, CloseFraction, TakeTargets, HitTargets, HitStop, Finalize, ApplyCandle, ReachesAll, RangePast,
      RangeShortOf, ReachesOne;
    var k := TargetsReached(p, c);
    TakeNearest(p, c.closeTime, k);
    CandleByCases(p, c, policy, k);
    AccountsBound(TakeTargets(p, c.closeTime, Pending(p)[..k]));
    forall i | p.targetsHit <= i < p.targetsHit + k
      ensures !RangeShortOf(p.side, c, p.takeProfits[i])
    {
      assert p.takeProfits[i] == Pending(p)[i - p.targetsHit];
    }
  }

  lemma PendingClimbs(p: Position)
    requires OnLadder(p)
    ensures forall i, j :: 0 <= i < j < |Pending(p)| ==> Beyond(p.side, Pending(p)[i], Pending(p)[j])
  {
  }

  predicate AtStop(s: Status) { s in {SlHit, SlHitSameCandle, PartialTpThenSl, PartialCloseThenSl} }

  predicate AtTargets(s: Status) { s in {TpHit, TpHitSameCandle, PartialTpComplete, PartialCloseThenTp} }

  /** The nearest target that is pending is reached. */
  predicate ReachesOne(p: Position, c: Candle) { Pending(p) != [] && !RangeShortOf(p.side, c, Pending(p)[0]) }

  /** A trade made by a candle is dated by its close, and its status tells how it came about: at the stop unless the
      stop was not reached or an optimist reached all targets as well; after a partial close by hand; after other
      targets; in the candle that reached both. */
  lemma StatusTells(p: Position, c: Candle, policy: FillPolicy, cfg: Config)
    requires Sound(p, cfg) && Face(p, c, policy).Over?
    ensures var t, stopped := Face(p, c, policy).trade, !RangePast(p.side, c, p.stopLoss);
            && t.exitTime == Some(c.closeTime) && t.entryTime == Some(p.entryTime)
            && t.entryPrice == Some(p.entryPrice) && t.quantity == p.original
            && AtStop(t.status) == !AtTargets(t.status)
            && (AtStop(t.status) <==> stopped && (policy.CONSERVATIVE? || !ReachesAll(p, c)))
            && (t.status in {PartialCloseThenSl, PartialCloseThenTp} <==> p.manualPartialExit)
            && (t.status == PartialTpThenSl
                <==> AtStop(t.status) && !p.manualPartialExit
                     && (0 < p.targetsHit || (policy.OPTIMISTIC? && ReachesOne(p, c))))
            && (t.status == SlHitSameCandle
                <==> AtStop(t.status) && !p.manualPartialExit && p.targetsHit == 0
                     && policy.CONSERVATIVE? && ReachesOne(p, c))
            && (t.status == PartialTpComplete
                <==> AtTargets(t.status) && !p.manualPartialExit && 1 < |p.takeProfits|)
            && (t.status == TpHitSameCandle
                <==> AtTargets(t.status) && !p.manualPartialExit && |p.takeProfits| == 1 && stopped)
  {
    hide Accounts, TakeTargets, HitTargets, HitStop, Ladder, CloseFraction, ApplyCandle, ReachesAll, ReachesOne,
      RangePast, OnLadder, Pending;
    var k := TargetsReached(p, c);
    TakeNearest(p, c.closeTime, k);
    CandleByCases(p, c, policy, k);
    var q := TakeTargets(p, c.closeTime, Pending(p)[..k]);
    TargetsKeepFlag(p, c.closeTime, Pending(p)[..k]);
    AccountsBound(p);
    AccountsBound(q);
    HowManyPending(p);
    SellingDates(p, c.closeTime, p.stopLoss);
    SellingDates(q, c.closeTime, q.stopLoss);
  }

  lemma HowManyPending(p: Position)
    requires OnLadder(p)
    ensures |p.takeProfits| == p.targetsHit + |Pending(p)|
  {
  }

  lemma SellingDates(p: Position, at: int, price: real)
    ensures var q := CloseFraction(p, at, price, 1.0);
            && SameDeal(p, q) && q.targetsHit == p.targetsHit && q.manualPartialExit == p.manualPartialExit
            && (0.0 < p.remaining ==> q.exitTime == Some(at))
  {
    hide ClosedQuantity, Pnl, ExitFee;
  }

  lemma {:induction false} TargetsKeepFlag(p: Position, at: int, tps: seq<real>)
    ensures var q := TakeTargets(p, at, tps);
            q.manualPartialExit == p.manualPartialExit && (q == p || q.exitTime == Some(at))
    decreases |tps|
  {
    hide CloseFraction, Pending;
    if tps != [] && 0.0 < p.remaining {
      TargetDates(p, at, tps[0]);
      TargetsKeepFlag(TakeTarget(p, at, tps[0]), at, tps[1..]);
    }
  }

  lemma TargetDates(p: Position, at: int, tp: real)
    requires 0.0 < p.remaining
    ensures var q := TakeTarget(p, at, tp);
            q.manualPartialExit == p.manualPartialExit && q.exitTime == Some(at)
  {
    hide ClosedQuantity, Pnl, ExitFee;
  }

  lemma StaysBetween(p: Position, q: Position, c: Candle)
    requires Between(p, c) && Further(p, q)
    ensures Between(q, c)
  {
    forall i | 0 <= i < |Pending(q)|
      ensures RangeShortOf(q.side, c, Pending(q)[i])
    {
      assert Pending(q)[i] == Pending(p)[q.targetsHit - p.targetsHit + i];
    }
  }

  /** Every candle of the position's market met so far stayed strictly between its stop and its pending targets. */
  ghost predicate AllBetween(p: Position, candles: seq<Candle>, i: nat, j: nat)
  {
    forall c :: i <= c < j && c < |candles| && Relevant(p, candles[c]) ==> Between(p, candles[c])
  }

  /** Candle c is where the journey ends: the position is alive before it, and it reaches the stop or all targets. */
  ghost predicate EndsAt(p: Position, candles: seq<Candle>, i: nat, c: nat, policy: FillPolicy)
    requires i <= c < |candles|
  {
    match Travel(p, candles, i, c, policy)
    case Over(_) => false
    case Alive(q) => Relevant(q, candles[c]) && Ends(q, candles[c]) && Further(p, q)
  }

  /** Along any candles: a position still open has seen none reach its stop or a target still pending; an ended one
      was ended by a candle that reached its stop or all its pending targets. */
  lemma {:induction false} JourneyReaches(p: Position, candles: seq<Candle>, i: nat, j: nat, policy: FillPolicy,
                                          cfg: Config)
    requires i <= j <= |candles| && Sound(p, cfg)
    ensures match Travel(p, candles, i, j, policy)
            case Alive(q) => Sound(q, cfg) && Further(p, q) && AllBetween(q, candles, i, j)
            case Over(t) => exists c :: i <= c < j && EndsAt(p, candles, i, c, policy)
    decreases j - i
  {
    hide Sound, Between, Ends, ApplyCandle, Finalize;
    FurtherItself(p, cfg);
    if i < j {
      var c := candles[i];
      if Relevant(p, c) {
        CandleReaches(p, c, policy, cfg);
        CandleKeepsSound(p, c, policy, cfg);
      }
      match Face(p, c, policy)
      case Over(t) => assert EndsAt(p, candles, i, i, policy);
      case Alive(q) =>
        JourneyReaches(q, candles, i + 1, j, policy, cfg);
        match Travel(q, candles, i + 1, j, policy)
        case Alive(r) => if Relevant(p, c) { StaysBetween(q, r, c); }
        case Over(t) =>
          var d :| i + 1 <= d < j && EndsAt(q, candles, i + 1, d, policy);
          assert EndsAt(p, candles, i, d, policy);
    }
  }

  lemma FurtherItself(p: Position, cfg: Config)
    requires Sound(p, cfg)
    ensures Further(p, p)
  {
  }
}
