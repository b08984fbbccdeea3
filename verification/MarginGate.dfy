/** With leverage modelled, no fill takes the portfolio's margin above the realised balance. */
module MarginGate {
  import opened Core
  import opened Market
  import opened Lookups
  import opened Positions
  import opened Sizing
  import opened Events
  import opened Replay
  import opened Accounting
  import opened Soundness
  import opened Journeys

  lemma SmallerOrder(entry: Price, a: real, b: real, leverage: real)
    requires a <= b
    ensures MarginFor(entry, a, leverage) <= MarginFor(entry, b, leverage)
  {
    var scale := Max(leverage, 1.0);
    assert entry * a <= entry * b;
    Shrink(entry * a, entry * b, scale);
  }

  lemma Shrink(x: real, y: real, scale: real)
    requires 0.0 < scale && x <= y
    ensures x / scale <= y / scale
  {
  }

  /** Clamping to the free margin uses exactly the free margin. */
  lemma ClampUsesFree(entry: Price, free: real, leverage: real)
    requires 1.0 <= leverage
    ensures MarginFor(entry, Bought(free, leverage, entry), leverage) == free
  {
    var notional := free * leverage;
    var quantity := notional / entry;
    assert entry * quantity == notional;
    assert notional / leverage == free;
  }

  /** The gate: what it lets through fits beside the margin already used. */
  lemma GateFits(open: seq<Position>, balance: real, leverage: real, entry: Price, quantity: real, cfg: Config)
    requires cfg.maxEffectiveLeverage.Some? && 1.0 <= leverage
    ensures var q := FitMargin(open, balance, leverage, entry, quantity, cfg);
            q.Some? ==> UsedMargin(open) + MarginFor(entry, q.value, leverage) <= balance
  {
    hide UsedMargin;
    ClampUsesFree(entry, Max(balance - UsedMargin(open), 0.0), leverage);
  }

  lemma OrderFits(e: Event, open: seq<Position>, balance: real, entry: Price, cfg: Config)
    requires cfg.maxEffectiveLeverage.Some?
    ensures var q := OrderQuantity(e, open, balance, entry, cfg);
            q.Some? ==> UsedMargin(open) + MarginFor(entry, q.value, EffectiveLeverage(e, cfg)) <= balance
  {
    hide UsedMargin, AllocatedAmount, AllocatedQuantity, FitMargin, EffectiveLeverage, MarginFor;
    var leverage := EffectiveLeverage(e, cfg);
    LeverageAtLeastOne(e, cfg);
    forall quantity
      ensures var q := FitMargin(open, balance, leverage, entry, quantity, cfg);
              q.Some? ==> UsedMargin(open) + MarginFor(entry, q.value, leverage) <= balance
    {
      GateFits(open, balance, leverage, entry, quantity, cfg);
    }
  }

  /** Later caps only shrink the quantity. */
  lemma CapsShrink(s: Signal, entry: Price, quantity: real, balance: real, cfg: Config)
    ensures var p := Protect(s, entry, quantity, balance, cfg);
            p.Some? ==> p.value.quantity <= quantity
  {
    hide MaxQuantityForStop, QuantizeDown, DefaultStop, RoundTripFees;
  }

  lemma {:induction false} UsedAppend(a: seq<Position>, b: seq<Position>)
    ensures UsedMargin(a + b) == UsedMargin(a) + UsedMargin(b)
  {
    hide Margin;
    if a == [] {
      assert a + b == b;
    } else {
      assert (a + b)[1..] == a[1..] + b;
      UsedAppend(a[1..], b);
    }
  }

  lemma UsedOne(p: Position)
    ensures UsedMargin([p]) == Margin(p)
  {
    hide Margin;
    assert UsedMargin([p][1..]) == 0.0;
  }

  lemma MarginPositive(p: Position, cfg: Config)
    requires Sound(p, cfg)
    ensures 0.0 <= Margin(p)
  {
    hide OnLadder;
    assert 0.0 <= p.entryPrice * p.original;
    Shrink(0.0, p.entryPrice * p.original, Max(p.effectiveLeverage, 1.0));
  }

  /** A new position, or one that takes the place of another, adds at most its own margin. */
  lemma PutUses(open: seq<Position>, p: Position, cfg: Config)
    requires AllSound(open, cfg)
    ensures UsedMargin(Put(open, p)) <= UsedMargin(open) + Margin(p)
  {
    hide Margin, Sound, UsedMargin, IndexOf, Holds;
    UsedOne(p);
    if Holds(open, p.signalId) {
      var i := IndexOf(open, p.signalId);
      MarginPositive(open[i], cfg);
      var before, after := open[..i], open[i + 1..];
      assert open == before + ([open[i]] + after);
      assert open[i := p] == before + ([p] + after);
      UsedAppend(before, [open[i]] + after);
      UsedAppend(before, [p] + after);
      UsedAppend([open[i]], after);
      UsedAppend([p], after);
      UsedOne(open[i]);
      assert Put(open, p) == open[i := p];
    } else {
      UsedAppend(open, [p]);
    }
  }

  /** The decision to fill respects the gate through every later cap. */
  lemma {:induction false} FillFits(e: Event, market: MarketKey, open: seq<Position>, balance: real,
        candles: seq<Candle>, cfg: Config)
    requires cfg.maxEffectiveLeverage.Some?
    ensures var d := Decide(e, market, open, balance, candles, cfg);
            d.Filled? ==> UsedMargin(open) + Margin(d.position) <= balance
  {
    hide FindEntry, Protect, Sanitize, UsedMargin, OrderQuantity, EffectiveLeverage;
    match Decide(e, market, open, balance, candles, cfg)
    case Refused =>
    case Filled(p) =>
      var fill := FindEntry(e.parsed, market, e.timestamp, candles).value;
      var leverage := EffectiveLeverage(e, cfg);
      var quantity := OrderQuantity(e, open, balance, fill.price, cfg).value;
      var q := Protect(e.parsed, fill.price, quantity, balance, cfg).value;
      OrderFits(e, open, balance, fill.price, cfg);
      CapsShrink(e.parsed, fill.price, quantity, balance, cfg);
      SmallerOrder(fill.price, q.quantity, quantity, leverage);
      assert Margin(p) == MarginFor(fill.price, q.quantity, leverage);
  }

  /** Right after every OPEN that fills, in any run with any mix of updates in between, the margin of all
      open positions at their current leverage is at most the realised balance. */
  lemma {:induction false} MarginWithinBalance(events: seq<Event>, k: nat, candles: seq<Candle>, cfg: Config,
        policy: FillPolicy)
    requires k < |events| && Opens(events[k]) && OpenedBy(events, k, candles, cfg, policy).Filled?
    requires cfg.maxEffectiveLeverage.Some?
    ensures var b := BookAfter(events, k + 1, candles, cfg, policy);
            UsedMargin(b.open) <= b.balance
  {
    hide SweepBook, Decide, UsedMargin, Sound, Put;
    var e := events[k];
    var before := BookAfter(events, k, candles, cfg, policy);
    var s := SweepBook(before, candles, Some(e.timestamp), policy);
    ReachableSound(events, k, candles, cfg, policy);
    SweepBookSound(before, candles, Some(e.timestamp), policy, cfg);
    FillFits(e, e.parsed.symbol.value, s.open, s.balance, candles, cfg);
    var p := OpenedBy(events, k, candles, cfg, policy).position;
    PutUses(s.open, p, cfg);
    assert BookAfter(events, k + 1, candles, cfg, policy) == EventBook(s, e, candles, cfg);
    assert TotalPnl([]) == 0.0;
  }
}
