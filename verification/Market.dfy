/** Candles, parsed signals, channel events and configuration: the inputs of the simulator. */
module Market {
  import opened Core

  datatype Side = Long | Short

  function Direction(side: Side): real { if side.Short? then -1.0 else 1.0 }

  type Price = r: real | 0.0 < r witness 1.0

  /** A symbol in canonical form; None for a symbol that has no canonical form. */
  type MarketKey = Option<string>

  predicate SameMarket(left: MarketKey, right: MarketKey) { left.Some? && left == right }

  datatype Bar = Bar(market: MarketKey, openTime: int, closeTime: int,
                     open: Price, high: Price, low: Price, close: Price)

  /** The geometry that the Candle model enforces on construction. */
  type Candle = b: Bar |
      && b.openTime < b.closeTime
      && b.low <= b.open <= b.high
      && b.low <= b.close <= b.high
    witness Bar(None, 0, 1, 1.0, 1.0, 1.0, 1.0)

  datatype EntryType = MARKET | LIMIT | RANGE | TRIGGER | UNKNOWN_ENTRY

  datatype Action = OPEN | CLOSE | UPDATE_SL | UPDATE_TP | UPDATE_ENTRY | UPDATE_LEVERAGE
                  | CANCEL | IGNORE | UNKNOWN

  type Positive = n: int | 0 < n witness 1

  datatype ParsedSignal = ParsedSignal(
    action: Action, symbol: Option<MarketKey>, side: Side, entryType: EntryType,
    entryLow: Option<real>, entryHigh: Option<real>, stopLoss: Option<real>,
    takeProfits: seq<real>, leverage: Option<Positive>)

  /** A range is ordered by the model validator; its midpoint must be a price. */
  type Signal = s: ParsedSignal |
      && (s.entryLow.Some? && s.entryHigh.Some? ==>
            s.entryLow.value <= s.entryHigh.value && 0.0 < s.entryLow.value + s.entryHigh.value)
    witness ParsedSignal(IGNORE, None, Long, MARKET, None, None, None, [], None)

  datatype Event = Event(
    timestamp: int, action: Action, signalId: string, parsed: Signal, relatedId: Option<string>,
    closeFraction: Option<real>, closeAll: bool, moveStopToEntry: bool, leverage: Option<Positive>)

  datatype FillPolicy = CONSERVATIVE | OPTIMISTIC

  /** A trading fee below 100% of notional; a negative setting counts as no fee. */
  type FeePct = r: real | r < 100.0 witness 0.0

  datatype Config = Config(
    initialBalance: real, riskPerTradePct: real, maxEffectiveLeverage: Option<real>,
    minAllocationPct: real, maxAllocationPct: real, defaultStopPct: real,
    syntheticMaxLossPct: real, maxStopLossPct: Option<real>, feeRatePct: FeePct,
    defaultSignalLeverage: real)

  /** One thousand to start with, a tenth of it for each order, and neither leverage, fees nor loss caps. */
  const PLAIN := Config(1000.0, 10.0, None, 0.0, 100.0, 10.0, 0.0, None, 0.0, 1.0)

  function FeeRate(feeRatePct: FeePct): (r: real)
    ensures 0.0 <= r < 1.0
  {
    Max(feeRatePct, 0.0) / 100.0
  }

  // ---- time order ----

  ghost predicate CandlesOrdered(candles: seq<Candle>)
  {
    forall i, j :: 0 <= i < j < |candles| ==> candles[i].openTime <= candles[j].openTime
  }

  ghost predicate EventsOrdered(events: seq<Event>)
  {
    forall i, j :: 0 <= i < j < |events| ==> events[i].timestamp <= events[j].timestamp
  }

  const OPEN_TIME: Candle -> real := (c: Candle) => c.openTime as real
  const TIMESTAMP: Event -> real := (e: Event) => e.timestamp as real

  function SortCandles(candles: seq<Candle>): seq<Candle> { StableSort(candles, OPEN_TIME) }

  function SortEvents(events: seq<Event>): seq<Event> { StableSort(events, TIMESTAMP) }

  lemma SortedInputs(candles: seq<Candle>, events: seq<Event>)
    ensures CandlesOrdered(SortCandles(candles)) && EventsOrdered(SortEvents(events))
    ensures multiset(SortCandles(candles)) == multiset(candles)
    ensures multiset(SortEvents(events)) == multiset(events)
    ensures CandlesOrdered(candles) ==> SortCandles(candles) == candles
    ensures EventsOrdered(events) ==> SortEvents(events) == events
  {
    StableSortSorts(candles, OPEN_TIME);
    StableSortSorts(events, TIMESTAMP);
    if CandlesOrdered(candles) { StableSortFixesSorted(candles, OPEN_TIME); }
    if EventsOrdered(events) { StableSortFixesSorted(events, TIMESTAMP); }
  }
}
