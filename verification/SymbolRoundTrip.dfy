/** A canonical symbol survives the trip through its futures contract name. */
module SymbolRoundTrip {
  import opened Core
  import opened Symbols

  predicate Clean(s: string) { forall i :: 0 <= i < |s| ==> IsUpperOrDigit(s[i]) }

  lemma {:induction false} CompactIsClean(raw: string)
    ensures Clean(Compact(raw))
    ensures Clean(raw) ==> Compact(raw) == raw
  {
    if raw != "" {
      CompactIsClean(raw[1..]);
      if Clean(raw) {
        assert Upper(raw[0]) == raw[0] && raw == [raw[0]] + raw[1..];
      }
    }
  }

  lemma CompactHead(c: char, s: string)
    ensures Compact("") == ""
    ensures Compact([c] + s) == (if IsAlnum(c) then [Upper(c)] else []) + Compact(s)
  {
    assert ([c] + s)[1..] == s;
  }

  lemma {:induction false} CompactConcat(a: string, b: string)
    ensures Compact(a + b) == Compact(a) + Compact(b)
  {
    hide Compact, IsAlnum, Upper;
    if a == "" {
      CompactHead('x', "");
      assert a + b == b;
    } else {
      var rest := a[1..];
      CompactConcat(rest, b);
      CompactHead(a[0], rest);
      CompactHead(a[0], rest + b);
      assert a == [a[0]] + rest && a + b == [a[0]] + (rest + b);
      var kept := if IsAlnum(a[0]) then [Upper(a[0])] else [];
      assert kept + (Compact(rest) + Compact(b)) == (kept + Compact(rest)) + Compact(b);
    }
  }

  lemma CleanSlice(s: string, i: nat, j: nat)
    requires Clean(s) && i <= j <= |s|
    ensures Clean(s[i..j]) && Clean(s[i..j] + USDT) && Clean(s[i..j] + USDC)
  {
  }

  /** Every later step only cuts or appends clean text. */
  lemma StepsStayClean(s: string)
    requires Clean(s)
    ensures Clean(Unwrap(s)) && Clean(Unswap(s)) && Clean(Undollar(s)) && Clean(Retether(s)) && Clean(DefaultQuote(s))
  {
    hide Clean, KnownQuote, IsAlpha;
    CleanSlice(s, 0, |s|);
    assert s[0..|s|] == s;
    if 3 <= |s| { CleanSlice(s, 0, |s| - 3); }
    if 7 <= |s| { CleanSlice(s, 0, |s| - 7); }
    if 8 <= |s| {
      CleanSlice(s, 0, |s| - 8);
      CleanSlice(s, 4, |s|);
    }
  }

  lemma {:induction false} CanonicalIsClean(raw: string)
    ensures Canonical(raw).Some? ==> Clean(Canonical(raw).value)
  {
    hide Clean, Unwrap, Unswap, Undollar, Retether, DefaultQuote, Compact;
    CompactIsClean(raw);
    var s := Compact(raw);
    StepsStayClean(s);
    StepsStayClean(Unwrap(s));
    StepsStayClean(Unswap(Unwrap(s)));
    StepsStayClean(Undollar(Unswap(Unwrap(s))));
    StepsStayClean(Retether(Undollar(Unswap(Unwrap(s)))));
  }

  predicate MainQuote(q: string) { q == USDT || q == USDC }

  /** Once a symbol has a base and a main quote, no step makes it longer, and only three steps can shorten it. */
  lemma QuotedNeverGrows(s: string, q: string)
    requires MainQuote(q) && Quoted(s, q)
    ensures Retether(s) == s && DefaultQuote(s) == s
    ensures if SwapMarked(s, q) then |Unswap(s)| < |s| && Quoted(Unswap(s), q) else Unswap(s) == s
    ensures Undollar(s) == s || (|Undollar(s)| < |s| && Quoted(Undollar(s), q))
  {
    hide Retether, DefaultQuote, Unswap, Undollar, Quoted, SwapMarked;
    QuotedIsTethered(s, q);
    QuotedIsKnown(s, q);
    UnswapShrinks(s, q);
    UndollarShrinks(s, q);
  }

  lemma QuotedIsTethered(s: string, q: string)
    requires MainQuote(q) && Quoted(s, q)
    ensures Retether(s) == s
  {
    assert s[|s| - 4..] == q;
    if EndsWith(s, "USD") { assert s[|s| - 3..][2] == q[3]; }
  }

  lemma QuotedIsKnown(s: string, q: string)
    requires MainQuote(q) && Quoted(s, q)
    ensures DefaultQuote(s) == s
  {
    hide Quoted;
    assert q in QUOTES by { assert QUOTES[0] == USDT && QUOTES[1] == USDC; }
  }

  lemma UnswapShrinks(s: string, q: string)
    requires MainQuote(q) && Quoted(s, q)
    ensures if SwapMarked(s, q) then |Unswap(s)| < |s| && Quoted(Unswap(s), q) else Unswap(s) == s
  {
    OneMarker(s, q);
    hide SwapMarked;
    if SwapMarked(s, q) {
      MarkerHasRoom(s, q);
      assert Unswap(s) == s[..|s| - 8] + q;
      Appended(s[..|s| - 8], q);
    }
  }

  lemma MarkerHasRoom(s: string, q: string)
    requires MainQuote(q) && SwapMarked(s, q)
    ensures 8 < |s|
  {
  }

  lemma Appended(front: string, q: string)
    requires front != ""
    ensures Quoted(front + q, q)
  {
  }

  lemma UndollarShrinks(s: string, q: string)
    requires MainQuote(q) && Quoted(s, q)
    ensures Undollar(s) == s || (|Undollar(s)| < |s| && Quoted(Undollar(s), q))
  {
    if EndsWith(s, "USDUSDT") && 7 < |s| {
      assert s[|s| - 7..][6] == 'T' && s[|s| - 4..][3] == q[3];
      assert q == USDT;
      Appended(s[..|s| - 7], q);
    }
  }

  lemma OneMarker(s: string, q: string)
    requires MainQuote(q) && Quoted(s, q)
    ensures SwapMarked(s, USDT) ==> q == USDT
    ensures SwapMarked(s, USDC) ==> q == USDC
  {
    if SwapMarked(s, USDT) { assert s[|s| - 8..][7] == 'T' && s[|s| - 4..][3] == q[3]; }
    if SwapMarked(s, USDC) { assert s[|s| - 8..][7] == 'C' && s[|s| - 4..][3] == q[3]; }
  }

  /** A quoted clean symbol is left alone exactly when no step touches it. */
  lemma FixpointExactly(s: string, q: string)
    requires MainQuote(q) && Quoted(s, q)
    ensures Canonical(s) == Some(s) <==> Clean(s) && Unwrap(s) == s && Unswap(s) == s && Undollar(s) == s
  {
    hide Unswap, Undollar, Retether, DefaultQuote, Clean, SwapMarked, Compact;
    CanonicalIsClean(s);
    CompactIsClean(s);
    if Canonical(s) == Some(s) {
      var u := Unwrap(s);
      assert Quoted(u, q) && (u == s || |u| < |s|) by {
        if u != s { assert u == s[4..] && 8 < |s| && u[|u| - 4..] == s[|s| - 4..]; }
      }
      QuotedNeverGrows(u, q);
      var v := Unswap(u);
      QuotedNeverGrows(v, q);
      var w := Undollar(v);
      QuotedNeverGrows(w, q);
    } else {
      QuotedNeverGrows(s, q);
    }
  }

  predicate MainQuoted(s: string) { Quoted(s, USDT) || Quoted(s, USDC) }

  lemma RetetherSettles(s: string)
    ensures MainQuoted(Retether(s)) || Retether(Retether(s)) == Retether(s)
    ensures !MainQuoted(Retether(s)) ==> Retether(s) == s
  {
    var r := Retether(s);
    if r != s { assert r[|r| - 4..] == USDT; }
  }

  lemma DefaultSettles(s: string)
    requires s != ""
    ensures MainQuoted(DefaultQuote(s)) || DefaultQuote(s) == s
  {
    hide KnownQuote;
    var r := DefaultQuote(s);
    if r != s { assert r[|r| - 4..] == USDT; }
  }

  lemma OnlyMainQuotedAreCut(s: string)
    ensures MainQuoted(s) || (Unwrap(s) == s && Unswap(s) == s && Undollar(s) == s)
  {
    if EndsWith(s, "USDUSDT") && 7 < |s| { assert s[|s| - 4..] == s[|s| - 7..][3..]; }
    if SwapMarked(s, USDT) { assert s[|s| - 4..] == s[|s| - 8..][4..]; }
    if SwapMarked(s, USDC) { assert s[|s| - 4..] == s[|s| - 8..][4..]; }
  }

  /** A canonical form without a main quote is always left alone. */
  lemma UnquotedIsFixpoint(raw: string)
    requires Canonical(raw).Some? && !MainQuoted(Canonical(raw).value)
    ensures Canonical(Canonical(raw).value) == Canonical(raw)
  {
    hide Unwrap, Unswap, Undollar, Retether, DefaultQuote, MainQuoted, Clean, Compact;
    var c := Canonical(raw).value;
    CanonicalIsClean(raw);
    CanonicalIsNotEmpty(raw);
    CompactIsClean(c);
    OnlyMainQuotedAreCut(c);
    var z := Undollar(Unswap(Unwrap(Compact(raw))));
    RetetherSettles(z);
    RetetherKeeps(z);
    UnwrapKeeps(Compact(raw));
    DefaultSettles(Retether(z));
  }

  lemma RetetherKeeps(z: string)
    ensures z != "" ==> Retether(z) != ""
  {
  }

  lemma UnwrapKeeps(s: string)
    ensures s != "" ==> Undollar(Unswap(Unwrap(s))) != ""
  {
    var u := Unwrap(s);
    if s != "" {
      assert u != "" && Unswap(u) != "";
    }
  }

  /** A base quoted in dollars is quoted in the main dollar token instead. */
  lemma DollarsBecomeTether(base: string)
    requires Clean(base) && base != ""
    ensures Canonical(base + "USD") == Some(base + USDT)
  {
    var s := base + "USD";
    assert s[|s| - 1] == 'D' && s[|s| - 3..] == "USD" && s[..|s| - 3] == base;
    assert Clean(s) by {
      assert forall i :: 0 <= i < |s| ==> s[i] == if i < |base| then base[i] else "USD"[i - |base|];
    }
    CompactIsClean(s);
    assert !MainQuoted(s) by { NotMainQuoted(s); }
    OnlyMainQuotedAreCut(s);
    assert !EndsWith(s, USDT) by { NotMainQuoted(s); }
    Appended(base, USDT);
    QuotedIsKnown(base + USDT, USDT);
    hide Unwrap, Unswap, Undollar, DefaultQuote, Clean, Compact, MainQuoted, EndsWith;
    assert Retether(s) == base + USDT by { DollarEnds(base); }
  }

  /** A base quoted in dollars and in the main dollar token at once keeps the token, unless it begins with the token
      and so looks wrapped. */
  lemma DoubledDollars(base: string)
    requires Clean(base) && base != "" && !StartsWith(base + "USDUSDT", USDT)
    ensures Canonical(base + "USDUSDT") == Some(base + USDT)
  {
    var s := base + "USDUSDT";
    DoubledEnds(base);
    CleanAppends(base, "USDUSDT");
    CompactIsClean(s);
    Appended(base, USDT);
    QuotedIsTethered(base + USDT, USDT);
    QuotedIsKnown(base + USDT, USDT);
    hide DefaultQuote, Clean, Compact, Retether, SwapMarked, EndsWith, Undollar, Quoted, Unswap, StartsWith;
  }

  lemma CleanAppends(a: string, b: string)
    requires Clean(a) && Clean(b)
    ensures Clean(a + b)
  {
  }

  lemma DoubledEnds(base: string)
    requires base != "" && !StartsWith(base + "USDUSDT", USDT)
    ensures var s := base + "USDUSDT";
            Clean("USDUSDT") && s != "" && Unwrap(s) == s && Unswap(s) == s && Undollar(s) == base + USDT
  {
    var s := base + "USDUSDT";
    assert s[|s| - 7..] == "USDUSDT" && s[..|s| - 7] == base;
    assert s[|s| - 1] == 'T' && s[|s| - 5] == 'D';
  }

  lemma NotMainQuoted(s: string)
    requires s != "" && s[|s| - 1] == 'D'
    ensures !MainQuoted(s) && !EndsWith(s, USDT)
  {
    if 4 <= |s| { assert s[|s| - 4..][3] == 'D'; }
  }

  lemma DollarEnds(base: string)
    requires base != ""
    ensures Retether(base + "USD") == base + USDT
  {
    var s := base + "USD";
    NotMainQuoted(s);
    assert s[|s| - 3..] == "USD" && s[..|s| - 3] == base;
  }

  /** A clean text without a known quote gets the main dollar token if it is a short word, and else stays as it is. */
  lemma BareBaseGetsTether(base: string)
    requires Clean(base) && base != "" && !KnownQuote(base)
    ensures Canonical(base) == Some(if IsAlpha(base) && |base| <= 10 then base + USDT else base)
  {
    CompactIsClean(base);
    NoQuoteAtAll(base);
    OnlyMainQuotedAreCut(base);
    hide Unwrap, Unswap, Undollar, Clean, Compact, MainQuoted, KnownQuote, IsAlpha;
  }

  lemma NoQuoteAtAll(s: string)
    requires !KnownQuote(s)
    ensures !MainQuoted(s) && Retether(s) == s
  {
    assert QUOTES[0] in QUOTES && QUOTES[1] in QUOTES && QUOTES[3] in QUOTES;
  }

  /** A second canonicalisation changes nothing exactly when no main quote is left, or no cutting step applies. */
  lemma IdempotentExactly(raw: string)
    requires Canonical(raw).Some?
    ensures var c := Canonical(raw).value;
            (Canonical(c) == Some(c))
              == (!MainQuoted(c) || (Unwrap(c) == c && Unswap(c) == c && Undollar(c) == c))
  {
    hide Canonical, Unwrap, Unswap, Undollar, Quoted, Clean;
    var c := Canonical(raw).value;
    CanonicalIsClean(raw);
    if MainQuoted(c) {
      FixpointExactly(c, if Quoted(c, USDT) then USDT else USDC);
    } else {
      UnquotedIsFixpoint(raw);
    }
  }

  /** Canonicalising twice can differ from canonicalising once: only one quote wrapper goes at a time. */
  lemma {:induction false} CanonicalIsNotIdempotent()
    ensures Canonical("USDTUSDTXUSDT") == Some("USDTXUSDT")
    ensures Canonical("USDTXUSDT") == Some("XUSDT") && "XUSDT" != "USDTXUSDT"
  {
    hide Canonical, Quoted;
    var inner, outer := "USDTXUSDT", "USDTUSDTXUSDT";
    assert outer == USDT + inner && inner == USDT + "XUSDT";
    assert Quoted(inner, USDT) && Quoted("XUSDT", USDT) by { TetherQuoted(inner); TetherQuoted("XUSDT"); }
    assert Clean(outer) && Clean(inner);
    UnwrapsTo("USDTUSDTXUSDT", "USDTXUSDT");
    UnwrapsTo("USDTXUSDT", "XUSDT");
  }

  lemma TetherQuoted(s: string)
    requires 4 < |s| && s[|s| - 4..] == USDT
    ensures Quoted(s, USDT)
  {
  }

  lemma UnwrapsTo(s: string, u: string)
    requires Clean(s) && s == USDT + u && Quoted(u, USDT)
    requires 7 < |u| ==> u[|u| - 7] !in {'W', 'U'}
    ensures Canonical(s) == Some(u)
  {
    hide Unswap, Retether, DefaultQuote, Clean, Compact, Unwrap, Undollar, SwapMarked, Quoted;
    CompactIsClean(s);
    OneWrapper(s, u);
    NothingToCut(u);
    QuotedNeverGrows(u, USDT);
  }

  lemma OneWrapper(s: string, u: string)
    requires s == USDT + u && Quoted(u, USDT)
    ensures Unwrap(s) == u && s != ""
  {
    assert s[..4] == USDT && s[|s| - 4..] == u[|u| - 4..] && s[4..] == u;
  }

  lemma NothingToCut(u: string)
    requires 7 < |u| ==> u[|u| - 7] !in {'W', 'U'}
    ensures !SwapMarked(u, USDT) && Undollar(u) == u
  {
    if 8 < |u| { assert u[|u| - 8..][1] == u[|u| - 7]; }
    if 7 < |u| { assert u[|u| - 7..][0] == u[|u| - 7]; }
  }

  /** The contract name of a base and a quote. */
  function Contract(base: string, quote: string): string { base + "-SWAP-" + quote }

  lemma ContractCompacts(base: string, quote: string)
    requires Clean(base) && MainQuote(quote)
    ensures Compact(Contract(base, quote)) == base + "SWAP" + quote
  {
    hide Compact;
    CompactIsClean(base);
    CompactIsClean(quote);
    CompactConcat(base + "-SWAP-", quote);
    CompactConcat(base, "-SWAP-");
    SwapCompacts();
  }

  lemma SwapCompacts()
    ensures Compact("-SWAP-") == "SWAP"
  {
    var swap, dash := "SWAP", "-";
    hide Compact;
    assert Clean(swap);
    CompactIsClean(swap);
    CompactConcat(swap, dash);
    CompactConcat(dash, swap + dash);
    DashCompacts();
    assert dash + (swap + dash) == "-SWAP-";
  }

  lemma DashCompacts()
    ensures Compact("-") == ""
  {
    assert Compact("-"[1..]) == "";
  }

  lemma ContractIsMarked(base: string, quote: string)
    requires base != "" && MainQuote(quote)
    ensures SwapMarked(base + "SWAP" + quote, quote) && Quoted(base + "SWAP" + quote, quote)
    ensures Unswap(base + "SWAP" + quote) == base + quote
  {
    var t := base + "SWAP" + quote;
    assert t == base + ("SWAP" + quote);
    assert t[|t| - 8..] == "SWAP" + quote && t[|t| - 4..] == quote && t[..|t| - 8] == base;
    OneMarker(t, quote);
  }

  /** The marked name carries a wrapper only if the base itself starts with the quote. */
  lemma WrapperComesFromBase(base: string, quote: string, wrapper: string)
    requires base != "" && MainQuote(quote) && MainQuote(wrapper)
    ensures Wrapped(base + "SWAP" + quote, wrapper) ==> StartsWith(base, quote)
  {
    var t := base + "SWAP" + quote;
    assert t == base + ("SWAP" + quote);
    assert t[|t| - 4..] == quote && t[|base|] == 'S' && t[|base| + 1] == 'W';
    if Wrapped(t, wrapper) {
      assert t[..4] == quote;
      assert t[0] == 'U' && t[1] == 'S' && t[2] == 'D' && t[3] == quote[3];
      if |base| < 4 {
        assert false;
      }
      assert t[..4] == base[..4];
    }
  }

  lemma QuotedBaseIsWrapped(base: string, quote: string)
    requires MainQuote(quote) && Unwrap(base + quote) == base + quote
    ensures StartsWith(base, quote) ==> base == quote
  {
    var s := base + quote;
    assert s[|s| - 4..] == quote;
    if StartsWith(base, quote) {
      assert s[..4] == base[..4];
      if 4 < |base| {
        assert false;
      }
    }
  }

  /** For a canonical symbol made of a base and a main quote, the contract name canonicalises back to the
      symbol exactly when the base is not the quote itself. */
  lemma {:induction false} ContractRoundTrip(base: string, quote: string)
    requires base != "" && MainQuote(quote) && Canonical(base + quote) == Some(base + quote)
    ensures Canonical(Contract(base, quote)) == Some(base + quote) <==> base != quote
  {
    hide Unswap, Undollar, Retether, DefaultQuote, SwapMarked, Clean, Compact, KnownQuote;
    var s := base + quote;
    assert s[|s| - 4..] == quote;
    FixpointExactly(s, quote);
    BaseIsClean(base, quote);
    ContractCompacts(base, quote);
    ContractIsMarked(base, quote);
    QuotedNeverGrows(s, quote);
    var t := base + "SWAP" + quote;
    if base == quote {
      DoubledQuote(quote);
    } else {
      WrapperComesFromBase(base, quote, USDT);
      WrapperComesFromBase(base, quote, USDC);
      QuotedBaseIsWrapped(base, quote);
      assert Unwrap(t) == t;
    }
  }

  lemma BaseIsClean(base: string, quote: string)
    requires Clean(base + quote)
    ensures Clean(base)
  {
    forall i | 0 <= i < |base|
      ensures IsUpperOrDigit(base[i])
    {
      assert (base + quote)[i] == base[i];
    }
  }

  /** USDT/USDT loses its base on the way back. */
  lemma DoubledQuote(quote: string)
    requires MainQuote(quote)
    ensures Canonical(Contract(quote, quote)) == Some("SWAP" + quote)
  {
    hide Unswap, Undollar, Compact, KnownQuote;
    ContractCompacts(quote, quote);
    var t := quote + "SWAP" + quote;
    var u := "SWAP" + quote;
    assert t == quote + u && t[..4] == quote && t[|t| - 4..] == quote && t[4..] == u && u[|u| - 4..] == quote;
    assert Unwrap(t) == u;
    QuotedNeverGrows(u, quote);
    assert !SwapMarked(u, quote);
    assert Undollar(u) == u by { NoDollar(quote); }
  }

  lemma NoDollar(quote: string)
    requires MainQuote(quote)
    ensures !EndsWith("SWAP" + quote, "USDUSDT") && Undollar("SWAP" + quote) == "SWAP" + quote
  {
    assert ("SWAP" + quote)[1..][0] == 'W';
  }

  /** Every contract candidate of a symbol names the symbol's own market, unless the base is the quote. */
  lemma {:induction false} CandidatesNameTheMarket(raw: string, c: string)
    requires Canonical(raw).Some? && c in ContractCandidates(raw)
    requires var s := Canonical(raw).value; Canonical(s) == Some(s) && s !in {USDT + USDT, USDC + USDC}
    ensures SameSymbol(c, raw)
  {
    hide Canonical;
    var s := Canonical(raw).value;
    var quote := if c in ContractFor(s, USDT) then USDT else USDC;
    assert c in ContractFor(s, quote);
    var base := s[..|s| - 4];
    assert s == base + quote && c == Contract(base, quote);
    ContractRoundTrip(base, quote);
  }

  lemma CanonicalIsNotEmpty(raw: string)
    ensures Canonical(raw).Some? ==> Canonical(raw).value != ""
  {
    hide Compact, KnownQuote, IsAlpha;
    var s := Compact(raw);
    if s != "" {
      var u := Unwrap(s);
      assert Unswap(u) != "" && Undollar(Unswap(u)) != "";
    }
  }

  /** Candles filed under a symbol that has a canonical form are those of the same market, and no others. */
  lemma BucketIsMarket(symbol: string, other: string)
    requires Canonical(symbol).Some?
    ensures BucketKey(symbol) == BucketKey(other) <==> SameSymbol(symbol, other)
  {
    var c := Canonical(symbol).value;
    CanonicalIsClean(symbol);
    CanonicalIsNotEmpty(symbol);
    CompactIsClean(c);
    hide AfterUnwrap, Unwrap, Clean;
  }
}
