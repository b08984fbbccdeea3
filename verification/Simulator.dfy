/** The two simulation drivers in imperative form, over mutable positions. */
module Simulator {
  import opened Core
  import opened Market
  import opened Lookups
  import opened Positions
  import opened Sizing
  import opened Events
  import opened Replay
  import opened OpenPositions

  /** The records as values, in dictionary order. */
  function Views(ps: seq<OpenPosition>): (vs: seq<Position>)
    reads ps
    ensures |vs| == |ps| && forall i :: 0 <= i < |ps| ==> vs[i] == ps[i].View()
  {
    seq(|ps|, i requires 0 <= i < |ps| reads ps => ps[i].View())
  }

  lemma ReplacesOne(ps: seq<OpenPosition>, i: nat, record: OpenPosition)
    requires Distinct(ps) && record !in ps && i < |ps|
    ensures Distinct(ps[i := record]) && Views(ps[i := record]) == Views(ps)[i := record.View()]
  {
  }

  lemma AddsOne(ps: seq<OpenPosition>, record: OpenPosition)
    requires Distinct(ps) && record !in ps
    ensures Distinct(ps + [record]) && Views(ps + [record]) == Views(ps) + [record.View()]
  {
  }

  ghost predicate Distinct(ps: seq<OpenPosition>)
  {
    forall i, j :: 0 <= i < j < |ps| ==> ps[i] != ps[j]
  }

  /** One record under one candle. */
  method FaceOne(p: OpenPosition, c: Candle, policy: FillPolicy) returns (ended: Option<Trade>)
    modifies p
    ensures match Face(old(p.View()), c, policy)
            case Alive(q) => p.View() == q && ended.None?
            case Over(t) => ended == Some(t)
  {
    hide Positions.ApplyCandle, Finalize;
    ended := None;
    if Relevant(p.View(), c) {
      var status := p.ApplyCandle(c, policy);
      if status.Some? {
        ended := Some(Finalize(p.View(), status.value));
      }
    }
  }

  /** One record closed by hand at the next open of its market. */
  method CloseOne(p: OpenPosition, time: int, candles: seq<Candle>) returns (t: Trade)
    modifies p
    ensures t == CloseFully(old(p.View()), time, candles)
  {
    hide Positions.CloseFraction, Finalize, NextIndex;
    var next := FirstCandleOpenAfter(time, candles, p.market);
    var status := CloseStatus(p.View());
    p.CloseFraction(time, if next.Some? then next.value else p.entryPrice, 1.0);
    t := Finalize(p.View(), status);
  }

  /** One record closed at the end of the run. */
  method EndOne(p: OpenPosition, candles: seq<Candle>) returns (t: Trade)
    modifies p
    ensures t == EndTrade(old(p.View()), candles)
  {
    hide Positions.CloseRemaining, LastPrice;
    var at := FinalTime(p.View(), candles);
    var last := FindLastPrice(candles, p.market, p.entryPrice);
    var price := if p.exitPrice.Some? && p.exitPrice.value != 0.0 then p.exitPrice.value else last;
    t := p.CloseRemaining(at, price, if p.targetsHit == 0 then OpenUntilEnd else PartialTpOpenUntilEnd);
  }

  /** How far a candle has got: the survivors and trades so far, and the records still to face it. */
  ghost predicate Faced(before: seq<Position>, i: nat, c: Candle, policy: FillPolicy,
                        survivors: seq<Position>, trades: seq<Trade>)
  {
    i <= |before| &&
    StepCandle(before, c, policy) == Effect(survivors + StepCandle(before[i..], c, policy).open,
                                            trades + StepCandle(before[i..], c, policy).trades)
  }

  lemma NoneFaced(before: seq<Position>, c: Candle, policy: FillPolicy)
    ensures Faced(before, 0, c, policy, [], [])
  {
    hide StepCandle;
    var r := StepCandle(before, c, policy);
    assert before[0..] == before && [] + r.open == r.open && [] + r.trades == r.trades;
  }

  lemma FaceNext(before: seq<Position>, i: nat, c: Candle, policy: FillPolicy,
                 survivors: seq<Position>, trades: seq<Trade>)
    requires i < |before| && Faced(before, i, c, policy, survivors, trades)
    ensures match Face(before[i], c, policy)
            case Alive(q) => Faced(before, i + 1, c, policy, survivors + [q], trades)
            case Over(t) => Faced(before, i + 1, c, policy, survivors, trades + [t])
  {
    hide Face;
    assert before[i..][0] == before[i] && before[i..][1..] == before[i + 1..];
    var rest := StepCandle(before[i + 1..], c, policy);
    match Face(before[i], c, policy)
    case Alive(q) => assert survivors + ([q] + rest.open) == survivors + [q] + rest.open;
    case Over(t) => assert trades + ([t] + rest.trades) == trades + [t] + rest.trades;
  }

  lemma AllFaced(before: seq<Position>, c: Candle, policy: FillPolicy, survivors: seq<Position>, trades: seq<Trade>)
    requires Faced(before, |before|, c, policy, survivors, trades)
    ensures StepCandle(before, c, policy) == Effect(survivors, trades)
  {
    assert before[|before|..] == [];
    assert survivors + [] == survivors && trades + [] == trades;
  }

  /** How far a sweep has got. */
  ghost predicate SweptTo(all: Swept, open: seq<Position>, resolved: seq<Trade>, candles: seq<Candle>, i: nat,
                          stopAt: Option<int>, policy: FillPolicy)
  {
    i <= |candles| &&
    var rest := Sweep(open, candles, i, stopAt, policy);
    all == Swept(rest.open, resolved + rest.resolved, rest.index)
  }

  lemma StartSweep(open: seq<Position>, candles: seq<Candle>, i: nat, stopAt: Option<int>, policy: FillPolicy)
    requires i <= |candles|
    ensures SweptTo(Sweep(open, candles, i, stopAt, policy), open, [], candles, i, stopAt, policy)
  {
    hide Sweep;
    var all := Sweep(open, candles, i, stopAt, policy);
    assert [] + all.resolved == all.resolved;
  }

  lemma SweepNext(all: Swept, open: seq<Position>, resolved: seq<Trade>, candles: seq<Candle>, i: nat,
                  stopAt: Option<int>, policy: FillPolicy)
    requires i < |candles| && !Stops(candles[i], stopAt) && SweptTo(all, open, resolved, candles, i, stopAt, policy)
    ensures var step := StepCandle(open, candles[i], policy);
            SweptTo(all, step.open, resolved + step.trades, candles, i + 1, stopAt, policy)
  {
    hide StepCandle;
    var step := StepCandle(open, candles[i], policy);
    var rest := Sweep(step.open, candles, i + 1, stopAt, policy);
    assert resolved + (step.trades + rest.resolved) == resolved + step.trades + rest.resolved;
  }

  lemma SweepDone(all: Swept, open: seq<Position>, resolved: seq<Trade>, candles: seq<Candle>, i: nat,
                  stopAt: Option<int>, policy: FillPolicy)
    requires SweptTo(all, open, resolved, candles, i, stopAt, policy)
    requires i == |candles| || Stops(candles[i], stopAt)
    ensures all == Swept(open, resolved, i)
  {
    assert resolved + [] == resolved;
  }

  /** With nothing open a sweep only moves the cursor. */
  method SkipCandles(candles: seq<Candle>, start: nat, stopAt: Option<int>, ghost policy: FillPolicy)
    returns (index: nat)
    requires start <= |candles|
    ensures Sweep([], candles, start, stopAt, policy) == Swept([], [], index)
  {
    EmptySweeps(candles, start, stopAt, policy);
    if stopAt.None? {
      return |candles|;
    }
    index := start;
    while index < |candles| && candles[index].closeTime <= stopAt.value
      invariant start <= index <= |candles|
      invariant Sweep([], candles, start, stopAt, policy).index == Sweep([], candles, index, stopAt, policy).index
    {
      NoPositions(candles[index], policy);
      index := index + 1;
    }
  }

  lemma ClosesNext(before: seq<Position>, i: nat, time: int, candles: seq<Candle>)
    requires i < |before|
    ensures CloseAll(before[i..], time, candles) ==
            [CloseFully(before[i], time, candles)] + CloseAll(before[i + 1..], time, candles)
    ensures EndTrades(before[i..], candles) == [EndTrade(before[i], candles)] + EndTrades(before[i + 1..], candles)
  {
    hide CloseFully, EndTrade;
    assert before[i..][0] == before[i] && before[i..][1..] == before[i + 1..];
  }

  lemma ClosesEnds(before: seq<Position>, time: int, candles: seq<Candle>)
    ensures before[0..] == before
    ensures CloseAll(before[|before|..], time, candles) == [] && EndTrades(before[|before|..], candles) == []
  {
  }

  /** One record closed by hand, wholly or in part, at the next open of its market. */
  method ClosePart(p: OpenPosition, e: Event, candles: seq<Candle>)
    modifies p
    ensures p.View() == ManualClose(old(p.View()), e, candles)
  {
    hide Positions.CloseFraction, OpenAfter;
    var next := FirstCandleOpenAfter(e.timestamp, candles, p.market);
    var fraction := RequestedFraction(e);
    p.CloseFraction(e.timestamp, if next.Some? then next.value else p.entryPrice, fraction);
    if fraction < 1.0 {
      p.manualPartialExit := true;
    }
  }

  /** The dictionary of open positions. */
  class OpenBook {
    var positions: seq<OpenPosition>

    ghost predicate Valid()
      reads this
    {
      Distinct(positions)
    }

    ghost function Records(): set<OpenPosition>
      reads this
    {
      set x | x in positions
    }

    function View(): seq<Position>
      reads this, positions
    {
      Views(positions)
    }

    constructor ()
      ensures Valid() && View() == [] && positions == []
    {
      positions := [];
    }

    method Find(id: string) returns (i: Option<nat>)
      ensures i.None? ==> !Holds(View(), id)
      ensures i.Some? ==> Holds(View(), id) && i.value == IndexOf(View(), id)
    {
      for k := 0 to |positions|
        invariant forall j :: 0 <= j < k ==> View()[j].signalId != id
      {
        if positions[k].signalId == id {
          assert View()[k].signalId == id;
          return Some(k);
        }
      }
      return None;
    }

    method Assign(p: Position)
      requires Valid()
      modifies this
      ensures Valid() && View() == Put(old(View()), p)
      ensures fresh(Records() - old(Records()))
    {
      hide IndexOf, Holds, Views;
      ghost var was := View();
      var i := Find(p.signalId);
      assert Put(was, p) == if i.Some? then was[i.value := p] else was + [p];
      hide Put;
      var record := new OpenPosition(p);
      hide Distinct;
      if i.Some? {
        ReplacesOne(positions, i.value, record);
        positions := positions[i.value := record];
      } else {
        AddsOne(positions, record);
        positions := positions + [record];
      }
    }

    method Delete(i: nat)
      requires Valid() && i < |positions|
      modifies this
      ensures Valid() && View() == Remove(old(View()), i)
      ensures Records() <= old(Records())
    {
      positions := positions[..i] + positions[i + 1..];
    }

    /** Every position under one candle; the ended ones leave the book afterwards. */
    method FaceCandle(c: Candle, policy: FillPolicy) returns (trades: seq<Trade>)
      requires Valid()
      modifies this, Records()
      ensures Valid() && Effect(View(), trades) == StepCandle(old(View()), c, policy)
      ensures Records() <= old(Records())
    {
      hide Face, Faced, StepCandle;
      ghost var before := View();
      assert Faced(before, 0, c, policy, [], []) by { NoneFaced(before, c, policy); }
      var all := positions;
      var kept: seq<OpenPosition> := [];
      ghost var survivors: seq<Position> := [];
      trades := [];
      for i := 0 to |all|
        invariant positions == all == old(positions) && Distinct(kept)
        invariant forall x :: x in kept ==> x in all[..i]
        invariant |survivors| == |kept| && forall j :: 0 <= j < |kept| ==> kept[j].View() == survivors[j]
        invariant forall j :: i <= j < |all| ==> all[j].View() == before[j]
        invariant Faced(before, i, c, policy, survivors, trades)
      {
        var p := all[i];
        assert p !in kept;
        FaceNext(before, i, c, policy, survivors, trades);
        var ended := FaceOne(p, c, policy);
        if ended.None? {
          kept := kept + [p];
          survivors := survivors + [p.View()];
        } else {
          trades := trades + [ended.value];
        }
        assert all[..i + 1] == all[..i] + [p];
      }
      positions := kept;
      AllFaced(before, c, policy, survivors, trades);
      assert survivors == Views(kept);
    }

    /** The candles up to a time, or to the end. Without open positions only the cursor moves. */
    method ProcessCandlesUntil(candles: seq<Candle>, start: nat, stopAt: Option<int>, policy: FillPolicy)
      returns (index: nat, resolved: seq<Trade>)
      requires Valid() && start <= |candles|
      modifies this, Records()
      ensures Valid() && Swept(View(), resolved, index) == Sweep(old(View()), candles, start, stopAt, policy)
      ensures Records() <= old(Records())
    {
      hide StepCandle, SweptTo, Sweep;
      resolved := [];
      if positions == [] {
        index := SkipCandles(candles, start, stopAt, policy);
        return;
      }
      index := start;
      ghost var all := Sweep(View(), candles, start, stopAt, policy);
      StartSweep(View(), candles, start, stopAt, policy);
      while index < |candles|
        invariant start <= index <= |candles| && Valid()
        invariant Records() <= old(Records())
        invariant SweptTo(all, View(), resolved, candles, index, stopAt, policy)
      {
        var candle := candles[index];
        if stopAt.Some? && stopAt.value < candle.closeTime {
          break;
        }
        SweepNext(all, View(), resolved, candles, index, stopAt, policy);
        var trades := FaceCandle(candle, policy);
        resolved := resolved + trades;
        index := index + 1;
      }
      SweepDone(all, View(), resolved, candles, index, stopAt, policy);
    }

    /** An event that opens a signal either fills it or records why not. */
    method Open(e: Event, balance: real, candles: seq<Candle>, cfg: Config) returns (trades: seq<Trade>)
      requires Valid() && Opens(e)
      modifies this
      ensures Valid() && Effect(View(), trades) == OpenEffect(e, old(View()), balance, candles, cfg)
      ensures fresh(Records() - old(Records()))
    {
      hide Protect, FitMargin, AllocatedAmount, AllocatedQuantity, EffectiveLeverage, Put, FindEntry;
      var market := e.parsed.symbol.value;
      var refused := [NotFilledTrade(e, market)];
      var fill := FindEntryExecution(e.parsed, market, e.timestamp, candles);
      if fill.None? {
        return refused;
      }
      var entry := fill.value.price;
      var leverage := EffectiveLeverage(e, cfg);
      if balance <= 0.0 {
        return refused;
      }
      var amount := AllocatedAmount(balance, leverage, cfg);
      if amount <= 0.0 {
        return refused;
      }
      var quantity := AllocatedQuantity(amount, leverage, entry, cfg);
      var fitted := FitMargin(View(), balance, leverage, entry, quantity, cfg);
      if fitted.None? {
        return refused;
      }
      var protected := Protect(e.parsed, entry, fitted.value, balance, cfg);
      if protected.None? {
        return refused;
      }
      Assign(NewPosition(e, market, fill.value, protected.value, balance, cfg));
      trades := [];
    }

    method CloseEverything(time: int, candles: seq<Candle>) returns (trades: seq<Trade>)
      requires Valid()
      modifies this, Records()
      ensures Valid() && View() == [] && positions == [] && trades == CloseAll(old(View()), time, candles)
    {
      hide CloseFully, CloseAll, EndTrades;
      ghost var before := View();
      ClosesEnds(before, time, candles);
      trades := [];
      for i := 0 to |positions|
        invariant positions == old(positions) && Distinct(positions)
        invariant forall j :: i <= j < |positions| ==> positions[j].View() == before[j]
        invariant CloseAll(before, time, candles) == trades + CloseAll(before[i..], time, candles)
      {
        var p := positions[i];
        ClosesNext(before, i, time, candles);
        var t := CloseOne(p, time, candles);
        trades := trades + [t];
      }
      assert trades + [] == trades;
      positions := [];
    }

    /** A cancel, a close or an update of the signal at index i. */
    method FollowUp(e: Event, i: nat, candles: seq<Candle>, cfg: Config) returns (trades: seq<Trade>)
      requires Valid() && i < |positions|
      modifies this, Records()
      ensures Valid() && Effect(View(), trades) == FollowEffect(e, old(View()), i, candles, cfg)
      ensures Records() <= old(Records())
    {
      hide ManualClose, Finalize, Update, Positions.CloseRemaining, IsUpdate, CancelStatus, CloseStatus, Views;
      ghost var before := View();
      var p := positions[i];
      trades := [];
      if e.parsed.action.CANCEL? {
        var t := p.CloseRemaining(e.timestamp, p.entryPrice, CancelStatus(p.View()));
        trades := [t];
        Delete(i);
        assert View() == Remove(before, i);
      } else if e.parsed.action.CLOSE? {
        ClosePart(p, e, candles);
        assert View() == before[i := ManualClose(before[i], e, candles)];
        if p.remaining <= 0.0 {
          trades := [Finalize(p.View(), CloseStatus(p.View()))];
          Delete(i);
          assert View() == Remove(before, i);
        }
      } else if IsUpdate(e) {
        p.ApplyLiveStyleUpdate(e, cfg);
        assert View() == before[i := p.View()];
      } else {
        assert View() == before[i := before[i]];
      }
    }

    method ApplyEvent(e: Event, balance: real, candles: seq<Candle>, cfg: Config) returns (trades: seq<Trade>)
      requires Valid()
      modifies this, Records()
      ensures Valid() && Effect(View(), trades) == Events.ApplyEvent(e, old(View()), balance, candles, cfg)
      ensures fresh(Records() - old(Records()))
    {
      hide OpenEffect, FollowEffect, CloseAll;
      trades := [];
      if Opens(e) {
        trades := Open(e, balance, candles, cfg);
      } else if ClosesAll(e) && positions != [] {
        trades := CloseEverything(e.timestamp, candles);
      } else if e.relatedId.Some? {
        var i := Find(e.relatedId.value);
        if i.Some? {
          trades := FollowUp(e, i.value, candles, cfg);
        }
      }
    }

    /** What is still open is closed at the end of the candles. */
    method CloseAtEnd(candles: seq<Candle>) returns (trades: seq<Trade>)
      requires Valid()
      modifies this, Records()
      ensures Valid() && View() == [] && positions == [] && trades == EndTrades(old(View()), candles)
    {
      hide EndTrade, EndTrades, CloseAll;
      ghost var before := View();
      ClosesEnds(before, 0, candles);
      trades := [];
      for i := 0 to |positions|
        invariant positions == old(positions) && Distinct(positions)
        invariant forall j :: i <= j < |positions| ==> positions[j].View() == before[j]
        invariant EndTrades(before, candles) == trades + EndTrades(before[i..], candles)
      {
        var p := positions[i];
        ClosesNext(before, i, 0, candles);
        var t := EndOne(p, candles);
        trades := trades + [t];
      }
      assert trades + [] == trades;
      positions := [];
    }
  }

  lemma NoPositions(c: Candle, policy: FillPolicy)
    ensures StepCandle([], c, policy) == Effect([], [])
  {
  }

  /** The candles up to a time: their trades are listed and credited. */
  method SweepInto(book: OpenBook, trades: seq<Trade>, balance: real, cursor: nat, candles: seq<Candle>,
                   stopAt: Option<int>, policy: FillPolicy)
    returns (allTrades: seq<Trade>, newBalance: real, next: nat)
    requires book.Valid() && cursor <= |candles|
    modifies book, book.Records()
    ensures book.Valid() && book.Records() <= old(book.Records())
    ensures Book(book.View(), allTrades, newBalance, next) ==
            SweepBook(Book(old(book.View()), trades, balance, cursor), candles, stopAt, policy)
  {
    hide Replay.Sweep, TotalPnl;
    var resolved;
    next, resolved := book.ProcessCandlesUntil(candles, cursor, stopAt, policy);
    allTrades := trades + resolved;
    newBalance := balance + TotalPnl(resolved);
  }

  /** An event: its trades are listed and credited. */
  method ApplyInto(book: OpenBook, trades: seq<Trade>, balance: real, ghost cursor: nat, event: Event,
                   candles: seq<Candle>, cfg: Config)
    returns (allTrades: seq<Trade>, newBalance: real)
    requires book.Valid()
    modifies book, book.Records()
    ensures book.Valid() && fresh(book.Records() - old(book.Records()))
    ensures Book(book.View(), allTrades, newBalance, cursor) ==
            EventBook(Book(old(book.View()), trades, balance, cursor), event, candles, cfg)
  {
    hide Events.ApplyEvent, TotalPnl;
    var made := book.ApplyEvent(event, balance, candles, cfg);
    allTrades := trades + made;
    newBalance := balance + TotalPnl(made);
  }

  /** simulate(): a trade list, a running balance, and everything closed at the end. */
  method Simulate(events: seq<Event>, candles: seq<Candle>, cfg: Config, policy: FillPolicy)
    returns (trades: seq<Trade>, balance: real)
    ensures trades == Run(events, candles, cfg, policy).trades
    ensures balance == Run(events, candles, cfg, policy).balance
  {
    hide SweepBook, EventBook, EndTrades, TotalPnl, SortEvents, SortCandles, BookAfter, OpenBook.View, Views;
    var sortedEvents := SortEvents(events);
    var sortedCandles := SortCandles(candles);
    var book := new OpenBook();
    trades := [];
    balance := cfg.initialBalance;
    var cursor: nat := 0;
    FirstBook(sortedEvents, sortedCandles, cfg, policy);
    for k := 0 to |sortedEvents|
      invariant fresh(book) && fresh(book.Records()) && book.Valid() && cursor <= |sortedCandles|
      invariant Book(book.View(), trades, balance, cursor) == BookAfter(sortedEvents, k, sortedCandles, cfg, policy)
    {
      var event := sortedEvents[k];
      NextBook(sortedEvents, k, sortedCandles, cfg, policy);
      trades, balance, cursor :=
        SweepInto(book, trades, balance, cursor, sortedCandles, Some(event.timestamp), policy);
      trades, balance := ApplyInto(book, trades, balance, cursor, event, sortedCandles, cfg);
    }
    trades, balance, cursor := SweepInto(book, trades, balance, cursor, sortedCandles, None, policy);
    var ends := book.CloseAtEnd(sortedCandles);
    trades := trades + ends;
    balance := balance + TotalPnl(ends);
  }

  lemma FirstBook(events: seq<Event>, candles: seq<Candle>, cfg: Config, policy: FillPolicy)
    ensures BookAfter(events, 0, candles, cfg, policy) == Book([], [], cfg.initialBalance, 0)
  {
  }

  lemma NextLive(s: Preview, events: seq<Event>, k: nat, candles: seq<Candle>, cfg: Config, policy: FillPolicy)
    requires s.count <= k <= |events|
    ensures k == s.count ==>
      LiveAfter(s, events, k, candles, cfg, policy) == Live(s.open, s.closed, ResumeIndex(candles, s.until, 0))
    ensures k == |events| ==> DueCount(s, events, candles, k) == k
    ensures k < |events| && Deferred(s, candles, events[k]) ==> DueCount(s, events, candles, k) == k
    ensures k < |events| && !Deferred(s, candles, events[k]) ==>
      DueCount(s, events, candles, k) == DueCount(s, events, candles, k + 1)
    ensures k < |events| ==>
      (LiveAfter(s, events, k + 1, candles, cfg, policy) ==
       LiveStep(LiveAfter(s, events, k, candles, cfg, policy), events[k], candles, cfg, policy))
  {
    hide LiveStep, ResumeIndex;
  }

  /** The resumable state of the incremental driver. */
  class PreviewState {
    const book: OpenBook
    var closed: seq<Trade>
    var count: nat
    var until: Option<int>

    constructor ()
      ensures fresh(book) && book.positions == [] && View() == FRESH
    {
      book := new OpenBook();
      closed, count, until := [], 0, None;
    }

    function View(): Preview
      reads this, book, book.positions
    {
      Preview(book.View(), closed, count, until)
    }

    method RecordTrades(ts: seq<Trade>)
      modifies this`closed
      ensures closed == RecordAll(old(closed), ts)
    {
      for i := 0 to |ts|
        invariant RecordAll(old(closed), ts) == RecordAll(closed, ts[i..])
      {
        assert ts[i..][1..] == ts[i + 1..];
        closed := Record(closed, ts[i]);
      }
    }

    method FindResumeIndex(candles: seq<Candle>) returns (i: nat)
      ensures i == ResumeIndex(candles, until, 0)
    {
      i := 0;
      if until.None? {
        return;
      }
      while i < |candles| && candles[i].closeTime <= until.value
        invariant i <= |candles|
        invariant ResumeIndex(candles, until, 0) == ResumeIndex(candles, until, i)
      {
        i := i + 1;
      }
    }

    ghost function AsLive(cursor: nat): Live
      reads this, book, book.positions
    {
      Live(book.View(), closed, cursor)
    }

    /** Candles up to a time, their trades recorded. */
    method Sweep(cursor: nat, candles: seq<Candle>, stopAt: Option<int>, policy: FillPolicy) returns (next: nat)
      requires book.Valid() && cursor <= |candles|
      modifies this`closed, book, book.Records()
      ensures book.Valid() && book.Records() <= old(book.Records())
      ensures AsLive(next) == SweepLive(old(AsLive(cursor)), candles, stopAt, policy)
    {
      hide Replay.Sweep, RecordAll;
      var resolved;
      next, resolved := book.ProcessCandlesUntil(candles, cursor, stopAt, policy);
      RecordTrades(resolved);
    }

    /** An event, with the balance recomputed from every closed trade. */
    method Apply(event: Event, ghost cursor: nat, candles: seq<Candle>, cfg: Config)
      requires book.Valid()
      modifies this`closed, book, book.Records()
      ensures book.Valid() && fresh(book.Records() - old(book.Records()))
      ensures AsLive(cursor) == EventLive(old(AsLive(cursor)), event, candles, cfg)
    {
      hide Events.ApplyEvent, RecordAll, TotalPnl;
      var made := book.ApplyEvent(event, Balance(closed, cfg), candles, cfg);
      RecordTrades(made);
    }

    /** Every due event with the candles before it; returns how many events and candles are behind. */
    method ReplayDue(events: seq<Event>, candles: seq<Candle>, cfg: Config, policy: FillPolicy)
      returns (processed: nat, cursor: nat)
      requires book.Valid() && count <= |events|
      modifies this`closed, book, book.Records()
      ensures book.Valid() && fresh(book.Records() - old(book.Records()))
      ensures processed == DueCount(old(View()), events, candles, count)
      ensures AsLive(cursor) == LiveAfter(old(View()), events, processed, candles, cfg, policy)
    {
      hide SweepLive, EventLive, ResumeIndex, DueCount, LiveAfter, OpenBook.View, Views;
      ghost var start := View();
      NextLive(start, events, count, candles, cfg, policy);
      cursor := FindResumeIndex(candles);
      processed := count;
      while processed < |events|
        invariant book.Valid() && fresh(book.Records() - old(book.Records()))
        invariant start.count <= processed <= |events| && cursor <= |candles|
        invariant DueCount(start, events, candles, count) == DueCount(start, events, candles, processed)
        invariant AsLive(cursor) == LiveAfter(start, events, processed, candles, cfg, policy)
      {
        var event := events[processed];
        NextLive(start, events, processed, candles, cfg, policy);
        if candles != [] && (until.None? || until.value < candles[|candles| - 1].openTime)
           && candles[|candles| - 1].openTime < event.timestamp {
          break;
        }
        cursor := Sweep(cursor, candles, Some(event.timestamp), policy);
        Apply(event, cursor, candles, cfg);
        processed := processed + 1;
      }
      NextLive(start, events, processed, candles, cfg, policy);
    }

    /** Everything still open is closed and recorded. */
    method CloseOut(ghost cursor: nat, candles: seq<Candle>)
      requires book.Valid()
      modifies this`closed, book, book.Records()
      ensures book.Valid() && book.Records() == {}
      ensures AsLive(cursor) == EndLive(old(AsLive(cursor)), candles)
    {
      hide EndTrades, RecordAll;
      var ends := book.CloseAtEnd(candles);
      RecordTrades(ends);
    }

    /** The call on a state whose event count fits the event list. */
    method Advance(events: seq<Event>, candles: seq<Candle>, closeAtEnd: bool, cfg: Config, policy: FillPolicy)
      requires book.Valid() && count <= |events|
      modifies this, book, book.Records()
      ensures book.Valid() && View() == ResumeSorted(old(View()), events, candles, closeAtEnd, cfg, policy)
      ensures fresh(book.Records() - old(book.Records()))
    {
      hide SweepLive, LiveAfter, DueCount, EndLive, OpenBook.View, Views;
      var processed, cursor := ReplayDue(events, candles, cfg, policy);
      cursor := Sweep(cursor, candles, None, policy);
      if closeAtEnd {
        CloseOut(cursor, candles);
      }
      ghost var l := AsLive(cursor);
      count := processed;
      if 0 < cursor {
        until := Some(candles[cursor - 1].closeTime);
      }
      assert AsLive(cursor) == l;
    }
  }

  /** simulate_live_preview_incremental(): resumes the state it is given, or starts over. */
  method SimulateIncrementally(prev: PreviewState?, events: seq<Event>, candles: seq<Candle>, closeAtEnd: bool,
                               cfg: Config, policy: FillPolicy)
    returns (trades: seq<Trade>, balance: real, state: PreviewState)
    requires prev != null ==> prev.book.Valid()
    modifies if prev == null then {} else {prev, prev.book}, if prev == null then {} else prev.book.Records()
    ensures state.book.Valid()
    ensures var start := if prev == null then FRESH else old(prev.View());
            state.View() == Resume(start, events, candles, closeAtEnd, cfg, policy)
    ensures trades == state.closed && balance == Balance(state.closed, cfg)
  {
    hide ResumeSorted, SortEvents, SortCandles;
    var sortedEvents := SortEvents(events);
    var sortedCandles := SortCandles(candles);
    if prev == null || |sortedEvents| < prev.count {
      state := new PreviewState();
    } else {
      state := prev;
    }
    ghost var start := state.View();
    RestartTwice(if prev == null then FRESH else prev.View(), sortedEvents, sortedCandles, closeAtEnd, cfg, policy);
    state.Advance(sortedEvents, sortedCandles, closeAtEnd, cfg, policy);
    trades := state.closed;
    balance := Balance(state.closed, cfg);
  }

  lemma RestartTwice(s: Preview, events: seq<Event>, candles: seq<Candle>, closeAtEnd: bool, cfg: Config,
        policy: FillPolicy)
    ensures ResumeSorted(s, events, candles, closeAtEnd, cfg, policy) ==
            ResumeSorted(Restart(s, events), events, candles, closeAtEnd, cfg, policy)
  {
    hide DueCount, LiveAfter, Replay.Sweep, EndTrades;
  }
}
