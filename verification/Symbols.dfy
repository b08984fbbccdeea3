/** Symbol canonicalisation: every market lookup of the simulator goes through it. */
module Symbols {
  import opened Core
  import opened Market

  predicate IsUpperOrDigit(c: char) { 'A' <= c <= 'Z' || '0' <= c <= '9' }

  predicate IsAlnum(c: char) { IsUpperOrDigit(c) || 'a' <= c <= 'z' }

  function Upper(c: char): char
  {
    if 'a' <= c <= 'z' then (c as int - 'a' as int + 'A' as int) as char else c
  }

  /** Drops every character that is not an ASCII letter or digit, then upper-cases. */
  function Compact(raw: string): string
  {
    if raw == "" then ""
    else (if IsAlnum(raw[0]) then [Upper(raw[0])] else []) + Compact(raw[1..])
  }

  predicate StartsWith(s: string, t: string) { |t| <= |s| && s[..|t|] == t }

  predicate EndsWith(s: string, t: string) { |t| <= |s| && s[|s| - |t|..] == t }

  predicate IsAlpha(s: string) { forall i :: 0 <= i < |s| ==> 'A' <= s[i] <= 'Z' || 'a' <= s[i] <= 'z' }

  const USDT := "USDT"
  const USDC := "USDC"
  const QUOTES: seq<string> := ["USDT", "USDC", "BUSD", "USD", "BTC", "ETH"]

  predicate Wrapped(s: string, quote: string)
  {
    StartsWith(s, quote) && EndsWith(s, quote) && |quote| * 2 < |s|
  }

  predicate SwapMarked(s: string, quote: string)
  {
    EndsWith(s, "SWAP" + quote) && 4 + |quote| < |s|
  }

  predicate Quoted(s: string, quote: string) { EndsWith(s, quote) && |quote| < |s| }

  predicate KnownQuote(s: string) { exists q :: q in QUOTES && Quoted(s, q) }

  function Unwrap(s: string): string
  {
    if Wrapped(s, USDT) || Wrapped(s, USDC) then s[4..] else s
  }

  function Unswap(s: string): string
  {
    if SwapMarked(s, USDT) then s[..|s| - 8] + USDT
    else if SwapMarked(s, USDC) then s[..|s| - 8] + USDC
    else s
  }

  function Undollar(s: string): string
  {
    if EndsWith(s, "USDUSDT") && 7 < |s| then s[..|s| - 7] + USDT else s
  }

  function Retether(s: string): string
  {
    if EndsWith(s, "USD") && !EndsWith(s, USDT) && 3 < |s| then s[..|s| - 3] + USDT else s
  }

  function DefaultQuote(s: string): string
  {
    if KnownQuote(s) then s
    else if IsAlpha(s) && |s| <= 10 then s + USDT
    else s
  }

  /** What happens once a quote wrapper is gone. */
  function AfterUnwrap(s: string): string { DefaultQuote(Retether(Undollar(Unswap(s)))) }

  function Canonical(raw: string): Option<string>
  {
    var s := Compact(raw);
    if s == "" then None else Some(AfterUnwrap(Unwrap(s)))
  }

  /** Two spellings name one market: their canonical forms exist and agree. */
  predicate SameSymbol(left: string, right: string)
  {
    SameMarket(Canonical(left), Canonical(right))
  }

  /** The bucket a symbol is filed under while candles are replayed. */
  function BucketKey(symbol: string): string
  {
    match Canonical(symbol) case Some(c) => c case None => symbol
  }

  /** The regular expression and the upper-casing, character by character. */
  method CompactSymbol(raw: string) returns (r: string)
    ensures r == Compact(raw)
  {
    r := "";
    var i := |raw|;
    while 0 < i
      invariant 0 <= i <= |raw|
      invariant r == Compact(raw[i..])
    {
      i := i - 1;
      assert raw[i..][1..] == raw[i + 1..];
      r := (if IsAlnum(raw[i]) then [Upper(raw[i])] else []) + r;
    }
  }

  method StripQuoteWrapper(s: string) returns (r: string)
    ensures r == Unwrap(s)
  {
    r := s;
    var quotes := [USDT, USDC];
    var i := 0;
    while i < 2
      invariant 0 <= i <= 2 && r == s
      invariant 0 < i ==> !Wrapped(s, USDT)
      invariant 1 < i ==> !Wrapped(s, USDC)
    {
      var quote := quotes[i];
      if Wrapped(r, quote) {
        r := r[|quote|..];
        break;
      }
      i := i + 1;
    }
  }

  method StripSwapMarker(s: string) returns (r: string)
    ensures r == Unswap(s)
  {
    r := s;
    var quotes := [USDT, USDC];
    var i := 0;
    while i < 2
      invariant 0 <= i <= 2 && r == s
      invariant 0 < i ==> !SwapMarked(s, USDT)
      invariant 1 < i ==> !SwapMarked(s, USDC)
    {
      var quote := quotes[i];
      if SwapMarked(r, quote) {
        r := r[..|r| - 4 - |quote|] + quote;
        break;
      }
      i := i + 1;
    }
  }

  method HasKnownQuote(s: string) returns (known: bool)
    ensures known == KnownQuote(s)
  {
    known := false;
    for i := 0 to |QUOTES|
      invariant !known && forall k :: 0 <= k < i ==> !Quoted(s, QUOTES[k])
    {
      if Quoted(s, QUOTES[i]) {
        known := true;
        break;
      }
    }
  }

  method CanonicalMarketSymbol(raw: string) returns (r: Option<string>)
    ensures r == Canonical(raw)
  {
    var compact := CompactSymbol(raw);
    if compact == "" {
      return None;
    }
    compact := StripQuoteWrapper(compact);
    ghost var unwrapped := compact;
    compact := StripSwapMarker(compact);
    compact := Undollar(compact);
    compact := Retether(compact);
    var known := HasKnownQuote(compact);
    if !known && IsAlpha(compact) && |compact| <= 10 {
      compact := compact + USDT;
    }
    assert compact == AfterUnwrap(unwrapped);
    r := Some(compact);
  }

  /** The futures contract a canonical symbol with this quote trades as. */
  function ContractFor(symbol: string, quote: string): seq<string>
  {
    if EndsWith(symbol, quote) && |quote| < |symbol| then [symbol[..|symbol| - |quote|] + "-SWAP-" + quote] else []
  }

  function ContractCandidates(raw: string): seq<string>
  {
    match Canonical(raw)
    case None => []
    case Some(s) => ContractFor(s, USDT) + ContractFor(s, USDC)
  }

  /** The name an exchange is asked for: a contract if there is one, else the canonical symbol. */
  function MarketSymbol(raw: string): Option<string>
  {
    match Canonical(raw)
    case None => None
    case Some(s) => if ContractCandidates(raw) != [] then Some(ContractCandidates(raw)[0]) else Some(s)
  }

  method FuturesContractSymbolCandidates(raw: string) returns (candidates: seq<string>)
    ensures candidates == ContractCandidates(raw)
  {
    hide AfterUnwrap, Compact, Unwrap;
    candidates := [];
    var normalized := CanonicalMarketSymbol(raw);
    if normalized.None? {
      return;
    }
    var quotes := [USDT, USDC];
    for i := 0 to 2
      invariant candidates == (if 0 < i then ContractFor(normalized.value, USDT) else [])
                            + if 1 < i then ContractFor(normalized.value, USDC) else []
    {
      if EndsWith(normalized.value, quotes[i]) && |quotes[i]| < |normalized.value| {
        var candidate := normalized.value[..|normalized.value| - |quotes[i]|] + "-SWAP-" + quotes[i];
        if candidate !in candidates {
          candidates := candidates + [candidate];
        }
      }
    }
  }
}
