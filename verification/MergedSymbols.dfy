/** Which symbol a merged signal ends up with, when every merge canonicalises it again. */
module MergedSymbols {
  import opened Core
  import opened Drafts
  import opened Symbols
  import opened SymbolRoundTrip
  import opened Consolidation

  // ---- trimming ----

  predicate Trimmed(s: string) { s == "" || (!IsBlank(s[0]) && !IsBlank(s[|s| - 1])) }

  lemma {:induction false} StripLeftTrims(s: string)
    ensures StripLeft(s) == "" || !IsBlank(StripLeft(s)[0])
    ensures exists i :: 0 <= i <= |s| && StripLeft(s) == s[i..]
    ensures s != "" && !IsBlank(s[0]) ==> StripLeft(s) == s
  {
    if s != "" && IsBlank(s[0]) {
      StripLeftTrims(s[1..]);
      var i :| 0 <= i <= |s[1..]| && StripLeft(s[1..]) == s[1..][i..];
      assert StripLeft(s) == s[i + 1..];
    } else {
      assert StripLeft(s) == s[0..];
    }
  }

  lemma {:induction false} StripTrims(s: string)
    ensures Trimmed(Strip(s)) && (Trimmed(s) ==> Strip(s) == s)
    ensures exists i, j :: 0 <= i <= j <= |s| && Strip(s) == s[i..j]
    decreases |s|
  {
    if s != "" && IsBlank(s[|s| - 1]) {
      StripTrims(s[..|s| - 1]);
      var i, j :| 0 <= i <= j <= |s| - 1 && Strip(s[..|s| - 1]) == s[..|s| - 1][i..j];
      assert Strip(s) == s[i..j];
    } else {
      StripLeftTrims(s);
      var i :| 0 <= i <= |s| && StripLeft(s) == s[i..];
      assert Strip(s) == s[i..|s|];
      if Strip(s) != "" { assert Strip(s)[|Strip(s)| - 1] == s[|s| - 1]; }
    }
  }

  lemma StripKeepsNone(s: string)
    ensures Canonical(s).None? ==> Canonical(Strip(s)).None?
  {
    hide Compact, AfterUnwrap, Unwrap;
    StripTrims(s);
    var i, j :| 0 <= i <= j <= |s| && Strip(s) == s[i..j];
    assert s == s[..i] + s[i..j] + s[j..];
    CompactConcat(s[..i] + s[i..j], s[j..]);
    CompactConcat(s[..i], s[i..j]);
  }

  lemma CleanIsTrimmed(s: string)
    requires Clean(s)
    ensures Trimmed(s)
  {
  }

  /** Building a signal leaves a symbol trimmed and not blank, or leaves none. */
  lemma NormalizedIsTrimmed(symbol: Option<string>)
    ensures Normalized(symbol).Some? ==> Normalized(symbol).value != "" && Strip(Normalized(symbol).value) != ""
    ensures symbol.Some? && Strip(symbol.value) != "" ==> Normalized(symbol).Some?
  {
    hide Canonical, Clean, Strip;
    if symbol.Some? {
      var raw := symbol.value;
      StripTrims(raw);
      StripTrims(Strip(raw));
      CanonicalIsClean(raw);
      CanonicalIsNotEmpty(raw);
      if Canonical(raw).Some? {
        CleanIsTrimmed(Canonical(raw).value);
        StripTrims(Canonical(raw).value);
      }
    }
  }

  // ---- repeated canonicalisation never comes back ----

  predicate Plainly(s: string) { Clean(s) && MainQuoted(s) }

  /** Where repeated building can lead from a symbol that it does not leave alone: never back. */
  ghost predicate Away(s: string, v: Option<string>)
  {
    if Strip(s) == "" then v.Some? ==> Strip(v.value) != ""
    else
      && v.Some? && v.value != s && Strip(v.value) != ""
      && (Settles(v) || (Plainly(v.value) && (!Plainly(s) || |v.value| < |s|)))
  }

  lemma AwayIsElsewhere(s: string, v: Option<string>)
    requires Away(s, v)
    ensures v != Some(s)
  {
  }

  /** Canonicalising a clean quoted symbol keeps it quoted, and shortens it unless it leaves it alone. */
  lemma QuotedShrinks(s: string)
    requires Plainly(s)
    ensures Canonical(s).Some? && Plainly(Canonical(s).value)
    ensures Canonical(s).value == s || |Canonical(s).value| < |s|
  {
    hide Unswap, Undollar, Retether, DefaultQuote, Clean, SwapMarked, Compact;
    var q := if Quoted(s, USDT) then USDT else USDC;
    CompactIsClean(s);
    CanonicalIsClean(s);
    var u := Unwrap(s);
    assert Quoted(u, q) && (u == s || |u| < |s|) by {
      if u != s { assert u == s[4..] && 8 < |s| && u[|u| - 4..] == s[|s| - 4..]; }
    }
    QuotedNeverGrows(u, q);
    QuotedNeverGrows(Unswap(u), q);
    QuotedNeverGrows(Undollar(Unswap(u)), q);
  }

  lemma FirstStepAway(s: string)
    requires !Settles(Some(s))
    ensures Away(s, Normalized(Some(s)))
  {
    hide Canonical, Clean, MainQuoted, Strip;
    NormalizedIsTrimmed(Some(s));
    if Strip(s) != "" {
      if Canonical(s).None? {
        StripKeepsNone(s);
        StripTrims(s);
        StripTrims(Strip(s));
      } else {
        var c := Canonical(s).value;
        CanonicalIsClean(s);
        if MainQuoted(c) {
          if Plainly(s) { QuotedShrinks(s); }
        } else {
          UnquotedIsFixpoint(s);
          CanonicalIsNotEmpty(s);
        }
      }
    }
  }

  lemma NextStepAway(s: string, v: Option<string>)
    requires Away(s, v)
    ensures Away(s, Normalized(v))
  {
    hide Canonical, Clean, MainQuoted, Strip;
    NormalizedIsTrimmed(v);
    if v.Some? && !Settles(v) && Strip(s) != "" {
      QuotedShrinks(v.value);
    }
  }

  // ---- the symbol of a fold ----

  /** The symbol of the opening, else of the first follow-up that gives one. */
  function FirstGiven(base: Draft, followUps: seq<FlowEvent>): Option<string>
  {
    if followUps == [] then base.symbol
    else First(FirstGiven(base, followUps[..|followUps| - 1]), followUps[|followUps| - 1].parsed.symbol)
  }

  lemma {:induction false} FirstGivenIsFirst(base: Draft, followUps: seq<FlowEvent>)
    ensures IsFirst(FirstGiven(base, followUps), base, followUps, SYMBOL)
  {
    if followUps != [] {
      var n := |followUps| - 1;
      FirstGivenIsFirst(base, followUps[..n]);
      assert forall j :: 0 <= j < n ==> followUps[j] == followUps[..n][j];
    }
  }

  lemma FirstIsUnique(v: Option<string>, w: Option<string>, base: Draft, followUps: seq<FlowEvent>)
    requires IsFirst(v, base, followUps, SYMBOL) && IsFirst(w, base, followUps, SYMBOL)
    ensures v == w
  {
  }

  /** After at least one merge the symbol is the first one given if building leaves that alone, and is away from
      it otherwise. */
  lemma {:induction false} MergedSymbol(base: Draft, followUps: seq<FlowEvent>)
    requires followUps != []
    ensures var given, merged := FirstGiven(base, followUps), Merged(base, followUps).symbol;
            if given.None? || Settles(given) then merged == given else Away(given.value, merged)
  {
    hide Merged, Normalized, Settles, Away;
    var n := |followUps| - 1;
    var front, last := followUps[..n], followUps[n].parsed;
    MergesOne(base, followUps, n);
    assert followUps[..n + 1] == followUps;
    StepFields(Merged(base, front), last);
    var given, before := FirstGiven(base, followUps), Merged(base, front).symbol;
    NoneSettles(given);
    if front == [] {
      NothingMerged(base);
      if given.Some? && !Settles(given) { FirstStepAway(given.value); }
    } else {
      MergedSymbol(base, front);
      var earlier := FirstGiven(base, front);
      if earlier.None? {
        if given.Some? && !Settles(given) { FirstStepAway(given.value); }
      } else if !Settles(earlier) {
        if before.None? {
          BlankStaysAway(earlier.value, last.symbol);
        } else {
          NextStepAway(earlier.value, before);
        }
      }
    }
  }

  lemma NoneSettles(symbol: Option<string>)
    ensures Normalized(None) == None && (Settles(symbol) <==> Normalized(symbol) == symbol)
  {
  }

  lemma BlankStaysAway(s: string, symbol: Option<string>)
    requires Away(s, None)
    ensures Away(s, Normalized(symbol))
  {
    hide Canonical, Strip;
    NormalizedIsTrimmed(symbol);
  }

  /** The first provider of a symbol wins exactly when there is nothing to merge, no symbol, or building a signal
      leaves the first symbol given alone. */
  lemma FirstSymbolExactly(base: Draft, followUps: seq<FlowEvent>)
    ensures IsFirst(SYMBOL(Merged(base, followUps)), base, followUps, SYMBOL)
        <==> followUps == [] || FirstGiven(base, followUps).None? || Settles(FirstGiven(base, followUps))
  {
    hide IsFirst, Settles, Away, Merged;
    FirstGivenIsFirst(base, followUps);
    var given, merged := FirstGiven(base, followUps), Merged(base, followUps).symbol;
    if followUps == [] {
      NothingMerged(base);
    } else {
      MergedSymbol(base, followUps);
      if given.Some? && !Settles(given) { AwayIsElsewhere(given.value, merged); }
    }
    if IsFirst(merged, base, followUps, SYMBOL) { FirstIsUnique(merged, given, base, followUps); }
  }
}
