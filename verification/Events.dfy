/** What one channel event does to the open positions. */
module Events {
  import opened Core
  import opened Market
  import opened Lookups
  import opened Positions
  import opened Sizing

  // ---- opening ----

  datatype Decision = Refused | Filled(position: Position)

  function NotFilledTrade(e: Event, market: MarketKey): Trade
  {
    Trade(e.signalId, market, e.parsed.side, None, None, None, None, 0.0, 0.0, 0.0, 0.0, NotFilled)
  }

  function DeclaredLeverage(e: Event): Option<Positive>
  {
    if e.leverage.Some? then e.leverage else e.parsed.leverage
  }

  /** The balance share set aside for the order. */
  function AllocatedAmount(balance: real, leverage: real, cfg: Config): real
  {
    balance * AllocationPct(cfg, leverage) / 100.0
  }

  /** What the allocation buys at the leverage; rounded when explicit-stop sizing is on. */
  function AllocatedQuantity(amount: real, leverage: real, entry: Price, cfg: Config): real
  {
    if cfg.maxStopLossPct.Some? then QuantizeHalfEven(Bought(amount, leverage, entry))
    else Bought(amount, leverage, entry)
  }

  /** The quantity that allocation and the portfolio margin allow, or None when nothing does. */
  function OrderQuantity(e: Event, open: seq<Position>, balance: real, entry: Price, cfg: Config): Option<real>
  {
    var leverage := EffectiveLeverage(e, cfg);
    var amount := AllocatedAmount(balance, leverage, cfg);
    if balance <= 0.0 || amount <= 0.0 then None
    else FitMargin(open, balance, leverage, entry, AllocatedQuantity(amount, leverage, entry, cfg), cfg)
  }

  /** A tenth of one thousand buys one piece at one hundred. */
  lemma PlainOrder(e: Event)
    ensures OrderQuantity(e, [], 1000.0, 100.0, PLAIN) == Some(1.0)
  {
    assert EffectiveLeverage(e, PLAIN) == 1.0;
    assert AllocationPct(PLAIN, 1.0) == 10.0;
    assert AllocatedAmount(1000.0, 1.0, PLAIN) == 100.0;
    assert Bought(100.0, 1.0, 100.0) == 1.0;
  }

  function NewPosition(e: Event, market: MarketKey, fill: Fill, p: Protected, balance: real, cfg: Config): Position
  {
    var entryFee := if 0.0 < cfg.feeRatePct then fill.price * p.quantity * cfg.feeRatePct / 100.0 else 0.0;
    Position(e.signalId, market, e.parsed.side, fill.price, p.stop,
             Sanitize(e.parsed.side, fill.price, p.stop, e.parsed.takeProfits),
             p.quantity, p.quantity, fill.time, 0.0, entryFee, None, None, 0, false, balance,
             DeclaredLeverage(e), EffectiveLeverage(e, cfg), cfg.feeRatePct, 0.0)
  }

  function Decide(e: Event, market: MarketKey, open: seq<Position>, balance: real, candles: seq<Candle>,
                  cfg: Config): (d: Decision)
    ensures d.Filled? ==> d.position.signalId == e.signalId
  {
    match FindEntry(e.parsed, market, e.timestamp, candles)
    case None => Refused
    case Some(fill) =>
      match OrderQuantity(e, open, balance, fill.price, cfg)
      case None => Refused
      case Some(quantity) =>
        match Protect(e.parsed, fill.price, quantity, balance, cfg)
        case None => Refused
        case Some(p) => Filled(NewPosition(e, market, fill, p, balance, cfg))
  }

  // ---- updating ----

  predicate HandlesStop(a: Action) { a.UPDATE_SL? || a.UPDATE_TP? || a.UPDATE_ENTRY? }

  predicate HandlesTargets(a: Action) { a.UPDATE_TP? || a.UPDATE_ENTRY? }

  predicate HandlesLeverage(a: Action) { a.UPDATE_LEVERAGE? || a.UPDATE_ENTRY? }

  /** A requested stop is unsafe when the risk budget would pull it closer to entry. */
  predicate UnsafeStop(p: Position, stop: real, cfg: Config)
  {
    cfg.maxStopLossPct.Some? &&
    ClampStop(p.side, p.entryPrice, stop, p.remaining, p.balanceAtEntry, p.feeRatePct,
              cfg.maxStopLossPct.value) != stop
  }

  function NewStop(p: Position, e: Event, cfg: Config): real
  {
    if e.moveStopToEntry then p.entryPrice
    else if HandlesStop(e.parsed.action) && e.parsed.stopLoss.Some? && !UnsafeStop(p, e.parsed.stopLoss.value, cfg)
    then e.parsed.stopLoss.value
    else p.stopLoss
  }

  /** An unsafe stop inside a target update rejects the whole update. */
  predicate RejectsUpdate(p: Position, e: Event, cfg: Config)
  {
    && !e.moveStopToEntry && e.parsed.action.UPDATE_TP?
    && e.parsed.stopLoss.Some? && UnsafeStop(p, e.parsed.stopLoss.value, cfg)
  }

  function NewTargets(p: Position, stop: real, e: Event): seq<real>
  {
    var valid := Sanitize(p.side, p.entryPrice, stop, e.parsed.takeProfits);
    if HandlesTargets(e.parsed.action) && e.parsed.takeProfits != [] && valid != [] then
      p.takeProfits[..MinInt(p.targetsHit, |p.takeProfits|)] + valid
    else p.takeProfits
  }

  function UpdateLeverage(p: Position, e: Event, cfg: Config): Position
  {
    if HandlesLeverage(e.parsed.action) && e.parsed.leverage.Some? then
      var requested := e.parsed.leverage.value as real;
      var effective := if cfg.maxEffectiveLeverage.Some? then Min(requested, cfg.maxEffectiveLeverage.value)
                       else requested;
      p.(declaredLeverage := e.parsed.leverage, effectiveLeverage := Max(effective, 1.0))
    else p
  }

  function Update(p: Position, e: Event, cfg: Config): (q: Position)
    ensures SameDeal(p, q)
  {
    if RejectsUpdate(p, e, cfg) then p
    else
      var stop := NewStop(p, e, cfg);
      UpdateLeverage(p.(stopLoss := stop, takeProfits := NewTargets(p, stop, e)), e, cfg)
  }

  predicate IsUpdate(e: Event)
  {
    || e.parsed.action.UPDATE_SL? || e.parsed.action.UPDATE_TP?
    || e.parsed.action.UPDATE_LEVERAGE? || e.parsed.action.UPDATE_ENTRY?
    || e.moveStopToEntry
  }

  // ---- closing ----

  function ManualPrice(p: Position, time: int, candles: seq<Candle>): Price
  {
    match OpenAfter(time, candles, p.market) case Some(x) => x case None => p.entryPrice
  }

  function CloseStatus(p: Position): Status { if p.targetsHit == 0 then Closed else PartialTpThenClose }

  function CancelStatus(p: Position): Status { if p.targetsHit == 0 then Cancelled else PartialTpThenCancel }

  function CloseFully(p: Position, time: int, candles: seq<Candle>): Trade
  {
    Finalize(CloseFraction(p, time, ManualPrice(p, time, candles), 1.0), CloseStatus(p))
  }

  function CloseAll(open: seq<Position>, time: int, candles: seq<Candle>): seq<Trade>
  {
    if open == [] then [] else [CloseFully(open[0], time, candles)] + CloseAll(open[1..], time, candles)
  }

  function RequestedFraction(e: Event): real
  {
    if e.closeFraction.Some? && e.closeFraction.value != 0.0 then e.closeFraction.value else 1.0
  }

  function ManualClose(p: Position, e: Event, candles: seq<Candle>): Position
  {
    var f := RequestedFraction(e);
    var q := CloseFraction(p, e.timestamp, ManualPrice(p, e.timestamp, candles), f);
    if f < 1.0 then q.(manualPartialExit := true) else q
  }

  /** What an event does to the one position it refers to. */
  datatype Followup = Keep(position: Position) | End(trade: Trade)

  function Follow(p: Position, e: Event, candles: seq<Candle>, cfg: Config): (r: Followup)
    ensures r.Keep? ==> SameDeal(p, r.position)
    ensures r.End? ==> r.trade.signalId == p.signalId
  {
    if e.parsed.action.CANCEL? then
      End(CloseRemaining(p, e.timestamp, p.entryPrice, CancelStatus(p)))
    else if e.parsed.action.CLOSE? then
      var q := ManualClose(p, e, candles);
      if q.remaining <= 0.0 then End(Finalize(q, CloseStatus(q))) else Keep(q)
    else if IsUpdate(e) then Keep(Update(p, e, cfg))
    else Keep(p)
  }

  // ---- the open positions, in the insertion order of the dictionary ----

  predicate Holds(open: seq<Position>, id: string) { exists i :: 0 <= i < |open| && open[i].signalId == id }

  function IndexOf(open: seq<Position>, id: string): (i: nat)
    requires Holds(open, id)
    ensures i < |open| && open[i].signalId == id
    ensures forall j :: 0 <= j < i ==> open[j].signalId != id
  {
    if open[0].signalId == id then 0
    else
      assert Holds(open[1..], id) by {
        var k :| 0 <= k < |open| && open[k].signalId == id;
        assert open[1..][k - 1].signalId == id;
      }
      1 + IndexOf(open[1..], id)
  }

  /** Dictionary assignment: an existing key keeps its place. */
  function Put(open: seq<Position>, p: Position): seq<Position>
  {
    if Holds(open, p.signalId) then open[IndexOf(open, p.signalId) := p] else open + [p]
  }

  function Remove<T>(s: seq<T>, i: nat): seq<T>
    requires i < |s|
  {
    s[..i] + s[i + 1..]
  }

  /** The open positions and the trades that an event leaves behind. */
  datatype Effect = Effect(open: seq<Position>, trades: seq<Trade>)

  predicate Opens(e: Event) { e.parsed.action.OPEN? && e.parsed.symbol.Some? }

  predicate ClosesAll(e: Event) { e.parsed.action.CLOSE? && e.closeAll }

  function OpenEffect(e: Event, open: seq<Position>, balance: real, candles: seq<Candle>, cfg: Config): Effect
    requires Opens(e)
  {
    var market := e.parsed.symbol.value;
    match Decide(e, market, open, balance, candles, cfg)
    case Refused => Effect(open, [NotFilledTrade(e, market)])
    case Filled(p) => Effect(Put(open, p), [])
  }

  function FollowEffect(e: Event, open: seq<Position>, i: nat, candles: seq<Candle>, cfg: Config): Effect
    requires i < |open|
  {
    match Follow(open[i], e, candles, cfg)
    case Keep(p) => Effect(open[i := p], [])
    case End(t) => Effect(Remove(open, i), [t])
  }

  function ApplyEvent(e: Event, open: seq<Position>, balance: real, candles: seq<Candle>, cfg: Config): Effect
  {
    if Opens(e) then OpenEffect(e, open, balance, candles, cfg)
    else if ClosesAll(e) && open != [] then Effect([], CloseAll(open, e.timestamp, candles))
    else if e.relatedId.Some? && Holds(open, e.relatedId.value) then
      FollowEffect(e, open, IndexOf(open, e.relatedId.value), candles, cfg)
    else Effect(open, [])
  }
}
