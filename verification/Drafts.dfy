/** Parsed signals before execution, and how a follow-up is merged into one. */
module Drafts {
  import opened Core
  import opened Market
  import Symbols

  datatype AnySide = LONG | SHORT | BUY | SELL | UNKNOWN_SIDE

  datatype MarketType = SPOT | FUTURES | UNKNOWN_MARKET

  datatype Draft = Draft(
    action: Action, market: MarketType, symbol: Option<string>, side: AnySide, entryType: EntryType,
    entryLow: Option<real>, entryHigh: Option<real>, stopLoss: Option<real>, takeProfits: seq<real>,
    leverage: Option<Positive>, confidence: real, invalidReason: Option<string>,
    messageId: int, parserVersion: string)

  function Latest<T>(update: Option<T>, current: Option<T>): Option<T> { if update.Some? then update else current }

  function First<T>(current: Option<T>, update: Option<T>): Option<T> { if current.Some? then current else update }

  predicate IsBlank(c: char) { c == ' ' || c == '\t' || c == '\n' || c == '\r' }

  function StripLeft(s: string): string { if s != "" && IsBlank(s[0]) then StripLeft(s[1..]) else s }

  function Strip(s: string): string
    decreases |s|
  {
    if s != "" && IsBlank(s[|s| - 1]) then Strip(s[..|s| - 1]) else StripLeft(s)
  }

  /** Canonicalises a symbol, as every construction of a parsed signal does; a blank one is no symbol, and one
      without a canonical form is only trimmed. */
  function Normalized(symbol: Option<string>): Option<string>
  {
    match symbol
    case None => None
    case Some(raw) =>
      if Strip(raw) == "" then None
      else if Symbols.Canonical(raw).Some? then Symbols.Canonical(raw)
      else Some(Strip(raw))
  }

  function Ordered(d: Draft): Draft
  {
    if d.entryLow.Some? && d.entryHigh.Some? && d.entryHigh.value < d.entryLow.value
    then d.(entryLow := d.entryHigh, entryHigh := d.entryLow)
    else d
  }

  /** The validators that run whenever a parsed signal is built. */
  function Built(d: Draft): Draft { Ordered(d.(symbol := Normalized(d.symbol))) }

  /** merge_parsed_signals */
  function MergeDrafts(current: Draft, update: Draft): Draft
  {
    Built(Draft(
      if update.action.UNKNOWN? then current.action else update.action,
      if current.market.UNKNOWN_MARKET? then update.market else current.market,
      First(current.symbol, update.symbol),
      if current.side.UNKNOWN_SIDE? then update.side else current.side,
      if update.entryType.UNKNOWN_ENTRY? then current.entryType else update.entryType,
      Latest(update.entryLow, current.entryLow),
      Latest(update.entryHigh, current.entryHigh),
      Latest(update.stopLoss, current.stopLoss),
      if update.takeProfits != [] then update.takeProfits else current.takeProfits,
      Latest(update.leverage, current.leverage),
      if current.confidence < update.confidence then update.confidence else current.confidence,
      if update.invalidReason.Some? && update.invalidReason.value != "" then update.invalidReason
      else current.invalidReason,
      current.messageId, update.parserVersion))
  }

  /** Outside the fields that are merged for trading: a clear action replaces the old one, a reason given replaces the
      old one, and the text and the version are those of the first message and the last parser. */
  lemma MergeMeans(current: Draft, update: Draft)
    ensures var d := MergeDrafts(current, update);
            && d.action == (if update.action == UNKNOWN then current.action else update.action)
            && d.messageId == current.messageId && d.parserVersion == update.parserVersion
            && (d.invalidReason == current.invalidReason
                <==> update.invalidReason == None || update.invalidReason == Some("")
                     || update.invalidReason == current.invalidReason)
            && (d.invalidReason == current.invalidReason || d.invalidReason == update.invalidReason)
            && (d.confidence == current.confidence || d.confidence == update.confidence)
            && current.confidence <= d.confidence && update.confidence <= d.confidence
  {
    hide Normalized;
  }

  /** Two options name the same market. */
  predicate SameSymbol(left: Option<string>, right: string)
  {
    left.Some? && Symbols.SameSymbol(left.value, right)
  }
}
