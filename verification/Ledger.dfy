/** Every opened signal is accounted for exactly once, and the money adds up. */
module Ledger {
  import opened Core
  import opened Market
  import opened Positions
  import opened Events
  import opened Replay

  function OpenBag(open: seq<Position>): multiset<string>
  {
    if open == [] then multiset{} else multiset{open[0].signalId} + OpenBag(open[1..])
  }

  function TradeBag(trades: seq<Trade>): multiset<string>
  {
    if trades == [] then multiset{} else multiset{trades[0].signalId} + TradeBag(trades[1..])
  }

  /** The ids of the events, among the first k, that open a signal. */
  function OpenedBag(events: seq<Event>, k: nat): multiset<string>
    requires k <= |events|
  {
    if k == 0 then multiset{}
    else OpenedBag(events, k - 1) + if Opens(events[k - 1]) then multiset{events[k - 1].signalId} else multiset{}
  }

  ghost predicate Unique(ids: multiset<string>) { forall x :: ids[x] <= 1 }

  ghost predicate DistinctOpens(events: seq<Event>)
  {
    forall i, j :: 0 <= i < j < |events| && Opens(events[i]) && Opens(events[j]) ==>
      events[i].signalId != events[j].signalId
  }

  lemma UniquePart(part: multiset<string>, rest: multiset<string>, whole: multiset<string>)
    requires part + rest == whole && Unique(whole)
    ensures Unique(part)
  {
    forall x
      ensures part[x] <= 1
    {
      assert whole[x] == part[x] + rest[x];
    }
  }

  lemma {:induction false} OpenBagAppend(a: seq<Position>, b: seq<Position>)
    ensures OpenBag(a + b) == OpenBag(a) + OpenBag(b)
  {
    if a == [] {
      assert a + b == b;
    } else {
      assert (a + b)[1..] == a[1..] + b;
      OpenBagAppend(a[1..], b);
    }
  }

  lemma {:induction false} TradeBagAppend(a: seq<Trade>, b: seq<Trade>)
    ensures TradeBag(a + b) == TradeBag(a) + TradeBag(b)
  {
    if a == [] {
      assert a + b == b;
    } else {
      assert (a + b)[1..] == a[1..] + b;
      TradeBagAppend(a[1..], b);
    }
  }

  lemma {:induction false} TradeBagSize(trades: seq<Trade>)
    ensures |TradeBag(trades)| == |trades|
  {
    if trades != [] { TradeBagSize(trades[1..]); }
  }

  lemma BagOne(p: Position, open: seq<Position>)
    ensures OpenBag([p] + open) == multiset{p.signalId} + OpenBag(open)
  {
    assert ([p] + open)[1..] == open;
  }

  lemma BagCons(t: Trade, trades: seq<Trade>)
    ensures TradeBag([t] + trades) == multiset{t.signalId} + TradeBag(trades)
  {
    assert ([t] + trades)[1..] == trades;
  }

  lemma BagShuffle(a: multiset<string>, b: multiset<string>, c: multiset<string>)
    ensures a + (b + c) == (a + c) + b == (b + a) + c
  {
  }

  lemma {:induction false} OpenBagHolds(open: seq<Position>, id: string)
    ensures Holds(open, id) <==> id in OpenBag(open)
  {
    if open != [] {
      OpenBagHolds(open[1..], id);
      if Holds(open, id) {
        var i :| 0 <= i < |open| && open[i].signalId == id;
        if 0 < i {
          assert open[1..][i - 1].signalId == id;
        }
      }
      if Holds(open[1..], id) {
        var i :| 0 <= i < |open[1..]| && open[1..][i].signalId == id;
        assert open[i + 1].signalId == id;
      }
    }
  }

  lemma {:induction false} TradeBagRecorded(trades: seq<Trade>, id: string)
    ensures Recorded(trades, id) <==> id in TradeBag(trades)
  {
    if trades != [] {
      TradeBagRecorded(trades[1..], id);
      if Recorded(trades, id) {
        var i :| 0 <= i < |trades| && trades[i].signalId == id;
        if 0 < i {
          assert trades[1..][i - 1].signalId == id;
        }
      }
      if Recorded(trades[1..], id) {
        var i :| 0 <= i < |trades[1..]| && trades[1..][i].signalId == id;
        assert trades[i + 1].signalId == id;
      }
    }
  }

  /** A slot of the dictionary holds one id; the rest of the bag is elsewhere. */
  lemma OpenBagAt(open: seq<Position>, i: nat, p: Position)
    requires i < |open| && p.signalId == open[i].signalId
    ensures OpenBag(open) == OpenBag(Remove(open, i)) + multiset{p.signalId}
    ensures OpenBag(open[i := p]) == OpenBag(open)
  {
    hide OpenBag;
    var before, after := open[..i], open[i + 1..];
    assert open == before + ([open[i]] + after);
    assert open[i := p] == before + ([p] + after);
    OpenBagAppend(before, [open[i]] + after);
    OpenBagAppend(before, [p] + after);
    OpenBagAppend(before, after);
    BagOne(open[i], after);
    BagOne(p, after);
    BagShuffle(OpenBag(before), multiset{p.signalId}, OpenBag(after));
  }

  lemma MeetConserves(p: Position, c: Candle, policy: FillPolicy, rest: Effect)
    ensures var r := Meet(p, c, policy, rest);
            OpenBag(r.open) + TradeBag(r.trades) ==
            multiset{p.signalId} + (OpenBag(rest.open) + TradeBag(rest.trades))
  {
    hide Face, OpenBag, TradeBag;
    match Face(p, c, policy)
    case Alive(q) =>
      BagOne(q, rest.open);
      BagShuffle(multiset{p.signalId}, OpenBag(rest.open), TradeBag(rest.trades));
    case Over(t) =>
      BagCons(t, rest.trades);
      BagShuffle(multiset{p.signalId}, OpenBag(rest.open), TradeBag(rest.trades));
  }

  /** A candle moves ids from the open positions to the trades, and loses none. */
  lemma {:induction false} StepConserves(open: seq<Position>, c: Candle, policy: FillPolicy)
    ensures var r := StepCandle(open, c, policy);
            OpenBag(r.open) + TradeBag(r.trades) == OpenBag(open)
    decreases |open|
  {
    hide Meet;
    if open != [] {
      StepConserves(open[1..], c, policy);
      MeetConserves(open[0], c, policy, StepCandle(open[1..], c, policy));
    }
  }

  lemma {:induction false} SweepConserves(open: seq<Position>, candles: seq<Candle>, i: nat, stopAt: Option<int>,
                                          policy: FillPolicy)
    requires i <= |candles|
    ensures var r := Sweep(open, candles, i, stopAt, policy);
            OpenBag(r.open) + TradeBag(r.resolved) == OpenBag(open)
    decreases |candles| - i
  {
    if i < |candles| && !Stops(candles[i], stopAt) {
      var step := StepCandle(open, candles[i], policy);
      StepConserves(open, candles[i], policy);
      SweepConserves(step.open, candles, i + 1, stopAt, policy);
      TradeBagAppend(step.trades, Sweep(step.open, candles, i + 1, stopAt, policy).resolved);
    }
  }

  lemma {:induction false} CloseAllConserves(open: seq<Position>, time: int, candles: seq<Candle>)
    ensures TradeBag(CloseAll(open, time, candles)) == OpenBag(open)
  {
    if open != [] {
      CloseAllConserves(open[1..], time, candles);
    }
  }

  lemma {:induction false} EndTradesConserve(open: seq<Position>, candles: seq<Candle>)
    ensures TradeBag(EndTrades(open, candles)) == OpenBag(open)
  {
    if open != [] {
      EndTradesConserve(open[1..], candles);
    }
  }

  lemma OpenConserves(e: Event, open: seq<Position>, balance: real, candles: seq<Candle>, cfg: Config)
    requires Opens(e) && e.signalId !in OpenBag(open)
    ensures var r := OpenEffect(e, open, balance, candles, cfg);
            OpenBag(r.open) + TradeBag(r.trades) == OpenBag(open) + multiset{e.signalId}
  {
    hide Decide;
    OpenBagHolds(open, e.signalId);
    match Decide(e, e.parsed.symbol.value, open, balance, candles, cfg)
    case Refused =>
    case Filled(p) => OpenBagAppend(open, [p]);
  }

  lemma FollowConserves(e: Event, open: seq<Position>, i: nat, candles: seq<Candle>, cfg: Config)
    requires i < |open|
    ensures var r := FollowEffect(e, open, i, candles, cfg);
            OpenBag(r.open) + TradeBag(r.trades) == OpenBag(open)
  {
    hide Follow;
    match Follow(open[i], e, candles, cfg)
    case Keep(p) => OpenBagAt(open, i, p);
    case End(t) =>
      OpenBagAt(open, i, open[i]);
      assert TradeBag([t]) == multiset{t.signalId};
  }

  /** An event adds its own id when it opens a signal, and otherwise conserves the bag. */
  lemma {:induction false} EventConserves(e: Event, open: seq<Position>, balance: real, candles: seq<Candle>,
        cfg: Config)
    requires Opens(e) ==> e.signalId !in OpenBag(open)
    ensures var r := ApplyEvent(e, open, balance, candles, cfg);
            OpenBag(r.open) + TradeBag(r.trades) ==
            OpenBag(open) + if Opens(e) then multiset{e.signalId} else multiset{}
  {
    hide OpenEffect, FollowEffect, CloseFully;
    if Opens(e) {
      OpenConserves(e, open, balance, candles, cfg);
    } else if ClosesAll(e) && open != [] {
      CloseAllConserves(open, e.timestamp, candles);
    } else if e.relatedId.Some? && Holds(open, e.relatedId.value) {
      FollowConserves(e, open, IndexOf(open, e.relatedId.value), candles, cfg);
    }
  }

  lemma {:induction false} OpenedBagIds(events: seq<Event>, k: nat, x: string)
    requires k <= |events|
    ensures x in OpenedBag(events, k) <==> exists j :: 0 <= j < k && Opens(events[j]) && events[j].signalId == x
  {
    if k != 0 {
      OpenedBagIds(events, k - 1, x);
    }
  }

  lemma NextIdIsNew(events: seq<Event>, k: nat)
    requires k < |events| && DistinctOpens(events) && Opens(events[k])
    ensures events[k].signalId !in OpenedBag(events, k)
  {
    OpenedBagIds(events, k, events[k].signalId);
  }

  lemma {:induction false} OpenedBagUnique(events: seq<Event>, k: nat)
    requires k <= |events| && DistinctOpens(events)
    ensures Unique(OpenedBag(events, k))
  {
    if k != 0 {
      OpenedBagUnique(events, k - 1);
      if Opens(events[k - 1]) { NextIdIsNew(events, k - 1); }
    }
  }

  /** What the ledger of a book says: each opened id is in exactly one place; the balance is the sum. */
  ghost predicate Balanced(b: Book, ids: multiset<string>, cfg: Config)
  {
    && OpenBag(b.open) + TradeBag(b.trades) == ids
    && b.balance == cfg.initialBalance + TotalPnl(b.trades)
  }

  lemma SweepBalanced(b: Book, ids: multiset<string>, candles: seq<Candle>, stopAt: Option<int>,
                      cfg: Config, policy: FillPolicy)
    requires b.cursor <= |candles| && Balanced(b, ids, cfg)
    ensures Balanced(SweepBook(b, candles, stopAt, policy), ids, cfg)
  {
    var s := Sweep(b.open, candles, b.cursor, stopAt, policy);
    SweepConserves(b.open, candles, b.cursor, stopAt, policy);
    TradeBagAppend(b.trades, s.resolved);
    TotalPnlAppend(b.trades, s.resolved);
  }

  lemma EventBalanced(b: Book, ids: multiset<string>, e: Event, candles: seq<Candle>, cfg: Config)
    requires Balanced(b, ids, cfg)
    requires Opens(e) ==> e.signalId !in ids
    ensures Balanced(EventBook(b, e, candles, cfg),
                     ids + if Opens(e) then multiset{e.signalId} else multiset{}, cfg)
  {
    hide ApplyEvent, OpenBag, TradeBag, TotalPnl;
    var r := ApplyEvent(e, b.open, b.balance, candles, cfg);
    EventConserves(e, b.open, b.balance, candles, cfg);
    TradeBagAppend(b.trades, r.trades);
    TotalPnlAppend(b.trades, r.trades);
    BagShuffle(OpenBag(r.open), TradeBag(b.trades), TradeBag(r.trades));
    BagShuffle(OpenBag(b.open), TradeBag(b.trades), if Opens(e) then multiset{e.signalId} else multiset{});
  }

  lemma StartBalanced(cfg: Config)
    ensures Balanced(Book([], [], cfg.initialBalance, 0), multiset{}, cfg)
  {
  }

  /** The ledger of every reachable book. */
  lemma {:induction false} BookBalanced(events: seq<Event>, k: nat, candles: seq<Candle>, cfg: Config,
        policy: FillPolicy)
    requires k <= |events| && DistinctOpens(events)
    decreases k
    ensures Balanced(BookAfter(events, k, candles, cfg, policy), OpenedBag(events, k), cfg)
  {
    hide SweepBook, EventBook, Balanced;
    if k == 0 {
      StartBalanced(cfg);
    } else {
      var b := BookAfter(events, k - 1, candles, cfg, policy);
      var stopAt := Some(events[k - 1].timestamp);
      BookBalanced(events, k - 1, candles, cfg, policy);
      SweepBalanced(b, OpenedBag(events, k - 1), candles, stopAt, cfg, policy);
      if Opens(events[k - 1]) { NextIdIsNew(events, k - 1); }
      EventBalanced(SweepBook(b, candles, stopAt, policy), OpenedBag(events, k - 1), events[k - 1], candles, cfg);
    }
  }

  /** Conservation over a whole run: one trade per opened signal, nothing left open, money adds up. */
  lemma {:induction false} LedgerConserved(events: seq<Event>, candles: seq<Candle>, cfg: Config, policy: FillPolicy)
    requires DistinctOpens(events)
    ensures var r := RunSorted(events, candles, cfg, policy);
            && r.open == []
            && TradeBag(r.trades) == OpenedBag(events, |events|) && Unique(TradeBag(r.trades))
            && r.balance == cfg.initialBalance + TotalPnl(r.trades)
  {
    var all := OpenedBag(events, |events|);
    var b := BookAfter(events, |events|, candles, cfg, policy);
    BookBalanced(events, |events|, candles, cfg, policy);
    SweepBalanced(b, all, candles, None, cfg, policy);
    var s := SweptBook(events, candles, cfg, policy);
    EndTradesConserve(s.open, candles);
    TradeBagAppend(s.trades, EndTrades(s.open, candles));
    TotalPnlAppend(s.trades, EndTrades(s.open, candles));
    OpenedBagUnique(events, |events|);
  }
}
