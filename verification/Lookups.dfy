/** Questions the simulator asks of the candle list: entry fills, next opens, last prices. */
module Lookups {
  import opened Core
  import opened Market

  datatype Fill = Fill(price: Price, time: int)

  /** Market-style entries take the open of the first candle at or after the signal. */
  predicate Immediate(s: Signal) { s.entryType.MARKET? || s.entryLow.None? }

  /** A candle fills the entry; limit-style entries may fill inside the candle the signal arrives in. */
  predicate Fills(s: Signal, time: int, c: Candle)
  {
    if Immediate(s) then time <= c.openTime
    else if s.entryHigh.Some? then
      time < c.closeTime && c.low <= s.entryHigh.value && s.entryLow.value <= c.high
    else time < c.closeTime && c.low <= s.entryLow.value <= c.high
  }

  /** A market order, or one without a price, is filled by any candle that opens from the signal on; an order with a
      price or a range by any candle that closes later and trades at such a price. */
  lemma FillsMeans(s: Signal, time: int, c: Candle)
    ensures Fills(s, time, c) <==>
              if s.entryType == MARKET || s.entryLow == None then time <= c.openTime
              else
                var low := s.entryLow.value;
                var high := if s.entryHigh == None then low else s.entryHigh.value;
                time < c.closeTime && exists x: real :: TradesAt(c, x) && low <= x <= high
  {
    if !Immediate(s) {
      var low := s.entryLow.value;
      assert TradesAt(c, c.low) && TradesAt(c, c.high);
      assert c.low <= low <= c.high ==> TradesAt(c, low);
    }
  }

  /** The price lies within the candle's range. */
  predicate TradesAt(c: Candle, price: real) { c.low <= price <= c.high }

  function FillPrice(s: Signal, time: int, c: Candle): Price
    requires Fills(s, time, c)
  {
    if Immediate(s) then c.open
    else if s.entryHigh.Some? then (s.entryLow.value + s.entryHigh.value) / 2.0
    else s.entryLow.value
  }

  /** The first candle from i on, of the signal's market, that fills the entry. */
  function EntryIndex(s: Signal, market: MarketKey, time: int, candles: seq<Candle>, i: nat): (k: Option<nat>)
    requires i <= |candles|
    ensures k.Some? ==> i <= k.value < |candles|
    ensures k.Some? ==> SameMarket(candles[k.value].market, market) && Fills(s, time, candles[k.value])
    ensures forall j :: i <= j < (if k.Some? then k.value else |candles|) ==>
              !(SameMarket(candles[j].market, market) && Fills(s, time, candles[j]))
    decreases |candles| - i
  {
    if i == |candles| then None
    else if SameMarket(candles[i].market, market) && Fills(s, time, candles[i]) then Some(i)
    else EntryIndex(s, market, time, candles, i + 1)
  }

  function FindEntry(s: Signal, market: MarketKey, time: int, candles: seq<Candle>): Option<Fill>
  {
    match EntryIndex(s, market, time, candles, 0)
    case None => None
    case Some(k) => Some(Fill(FillPrice(s, time, candles[k]), candles[k].openTime))
  }

  /** Candle k is the first of the market that fills the entry, and this is the fill it gives. */
  ghost predicate FillsFirst(s: Signal, market: MarketKey, time: int, candles: seq<Candle>, k: nat, f: Fill)
    requires k < |candles|
  {
    && SameMarket(candles[k].market, market) && Fills(s, time, candles[k]) && f.time == candles[k].openTime
    && (forall j :: 0 <= j < k && SameMarket(candles[j].market, market) ==> !Fills(s, time, candles[j]))
    && if Immediate(s) then f.price == candles[k].open && time <= f.time
       else if s.entryHigh.Some? then
         && s.entryLow.value <= f.price <= s.entryHigh.value
         && f.price - s.entryLow.value == s.entryHigh.value - f.price
       else f.price == s.entryLow.value && candles[k].low <= f.price <= candles[k].high
  }

  /** An entry fills at the first candle of the market that can fill it: at its open, at the one price asked for,
      or half way between the bounds; and it stays unfilled exactly when no candle can. */
  lemma EntryMeans(s: Signal, market: MarketKey, time: int, candles: seq<Candle>)
    ensures FindEntry(s, market, time, candles).None?
        <==> forall c :: c in candles && SameMarket(c.market, market) ==> !Fills(s, time, c)
    ensures match FindEntry(s, market, time, candles)
            case None => true
            case Some(f) => exists k :: 0 <= k < |candles| && FillsFirst(s, market, time, candles, k, f)
  {
    var i := EntryIndex(s, market, time, candles, 0);
    if i.Some? {
      assert candles[i.value] in candles;
      assert FillsFirst(s, market, time, candles, i.value, FindEntry(s, market, time, candles).value);
    }
  }

  /** The first candle from i on, of the market, that opens at or after a time. */
  function NextIndex(time: int, candles: seq<Candle>, market: MarketKey, i: nat): (k: Option<nat>)
    requires i <= |candles|
    ensures k.Some? ==> i <= k.value < |candles|
    ensures k.Some? ==> SameMarket(candles[k.value].market, market) && time <= candles[k.value].openTime
    ensures forall j :: i <= j < (if k.Some? then k.value else |candles|) ==>
              !(SameMarket(candles[j].market, market) && time <= candles[j].openTime)
    decreases |candles| - i
  {
    if i == |candles| then None
    else if SameMarket(candles[i].market, market) && time <= candles[i].openTime then Some(i)
    else NextIndex(time, candles, market, i + 1)
  }

  function OpenAfter(time: int, candles: seq<Candle>, market: MarketKey): Option<Price>
  {
    match NextIndex(time, candles, market, 0) case None => None case Some(k) => Some(candles[k].open)
  }

  /** The last candle of the market among the first n. */
  function LastIndex(candles: seq<Candle>, n: nat, market: MarketKey): (k: Option<nat>)
    requires n <= |candles|
    ensures k.Some? ==> k.value < n && SameMarket(candles[k.value].market, market)
    ensures forall j :: (if k.Some? then k.value + 1 else 0) <= j < n ==>
              !SameMarket(candles[j].market, market)
    decreases n
  {
    if n == 0 then None
    else if SameMarket(candles[n - 1].market, market) then Some(n - 1)
    else LastIndex(candles, n - 1, market)
  }

  function LastPrice(candles: seq<Candle>, market: MarketKey, fallback: Price): Price
  {
    match LastIndex(candles, |candles|, market) case None => fallback case Some(k) => candles[k].close
  }

  method FindEntryExecution(s: Signal, market: MarketKey, time: int, candles: seq<Candle>)
    returns (fill: Option<Fill>)
    ensures fill == FindEntry(s, market, time, candles)
  {
    for i := 0 to |candles|
      invariant EntryIndex(s, market, time, candles, 0) == EntryIndex(s, market, time, candles, i)
    {
      var c := candles[i];
      if SameMarket(c.market, market) && Fills(s, time, c) {
        return Some(Fill(FillPrice(s, time, c), c.openTime));
      }
    }
    fill := None;
  }

  method FirstCandleOpenAfter(time: int, candles: seq<Candle>, market: MarketKey) returns (r: Option<Price>)
    ensures r == OpenAfter(time, candles, market)
  {
    for i := 0 to |candles|
      invariant NextIndex(time, candles, market, 0) == NextIndex(time, candles, market, i)
    {
      if SameMarket(candles[i].market, market) && time <= candles[i].openTime {
        return Some(candles[i].open);
      }
    }
    r := None;
  }

  method FindLastPrice(candles: seq<Candle>, market: MarketKey, fallback: Price) returns (r: Price)
    ensures r == LastPrice(candles, market, fallback)
  {
    for i := |candles| downto 0
      invariant LastIndex(candles, |candles|, market) == LastIndex(candles, i, market)
    {
      if SameMarket(candles[i].market, market) {
        return candles[i].close;
      }
    }
    r := fallback;
  }
}
