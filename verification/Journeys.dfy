/** One position's way through the candles, and where the cursor stands when it is opened. */
module Journeys {
  import opened Core
  import opened Market
  import opened Lookups
  import opened Positions
  import opened Sizing
  import opened Events
  import opened Replay
  import opened Ledger

  /** The position alone against candles i..j: each relevant candle once, in order, until it ends. */
  function Travel(p: Position, candles: seq<Candle>, i: nat, j: nat, policy: FillPolicy): (r: Journey)
    requires i <= j <= |candles|
    ensures r.Alive? ==> SameDeal(p, r.position)
    ensures r.Over? ==> r.trade.signalId == p.signalId
    decreases j - i
  {
    if i == j then Alive(p)
    else
      match Face(p, candles[i], policy)
      case Alive(q) => Travel(q, candles, i + 1, j, policy)
      case Over(t) => Over(t)
  }

  lemma {:induction false} TravelOn(p: Position, candles: seq<Candle>, i: nat, j: nat, k: nat, policy: FillPolicy)
    requires i <= j <= k <= |candles|
    ensures Travel(p, candles, i, k, policy) ==
            match Travel(p, candles, i, j, policy)
            case Alive(q) => Travel(q, candles, j, k, policy)
            case Over(t) => Over(t)
    decreases j - i
  {
    hide Face;
    if i < j && Face(p, candles[i], policy).Alive? {
      TravelOn(Face(p, candles[i], policy).position, candles, i + 1, j, k, policy);
    }
  }

  lemma {:induction false} TravelSkips(p: Position, candles: seq<Candle>, i: nat, j: nat, k: nat, policy: FillPolicy)
    requires i <= j <= k <= |candles|
    requires forall c :: i <= c < j ==> !Relevant(p, candles[c])
    ensures Travel(p, candles, i, k, policy) == Travel(p, candles, j, k, policy)
    decreases j - i
  {
    if i < j {
      TravelSkips(p, candles, i + 1, j, k, policy);
    }
  }

  // ---- a sweep of all positions is, for each of them, its own journey ----

  function At(open: seq<Position>, id: string): (r: Option<Position>)
    ensures r.Some? ==> r.value.signalId == id && r.value in open
  {
    if open == [] then None else if open[0].signalId == id then Some(open[0]) else At(open[1..], id)
  }

  lemma {:induction false} AtInBag(open: seq<Position>, id: string)
    ensures At(open, id).Some? <==> id in OpenBag(open)
  {
    if open != [] {
      AtInBag(open[1..], id);
    }
  }

  lemma {:induction false} AtAppend(a: seq<Position>, b: seq<Position>, id: string)
    ensures At(a + b, id) == if At(a, id).Some? then At(a, id) else At(b, id)
  {
    if a == [] {
      assert a + b == b;
    } else {
      assert (a + b)[1..] == a[1..] + b;
      AtAppend(a[1..], b, id);
    }
  }

  /** Where a signal stands: among the open positions, or in the trades. */
  ghost predicate Stands(j: Journey, id: string, open: seq<Position>, trades: seq<Trade>)
  {
    match j
    case Alive(q) => At(open, id) == Some(q)
    case Over(t) => t in trades && At(open, id).None?
  }

  lemma MeetProjects(p: Position, c: Candle, policy: FillPolicy, rest: Effect, id: string)
    requires p.signalId == id ==> At(rest.open, id).None?
    ensures var r := Meet(p, c, policy, rest);
            && (p.signalId == id ==> Stands(Face(p, c, policy), id, r.open, r.trades))
            && (p.signalId != id ==> At(r.open, id) == At(rest.open, id))
            && (forall t :: t in rest.trades ==> t in r.trades)
  {
    hide Face, At;
    match Face(p, c, policy)
    case Alive(q) =>
      AtAppend([q], rest.open, id);
      AtSingle(q, id);
    case Over(t) =>
  }

  lemma {:induction false} StepProjects(open: seq<Position>, c: Candle, policy: FillPolicy, id: string)
    requires Unique(OpenBag(open))
    ensures var r := StepCandle(open, c, policy);
            match At(open, id)
            case None => At(r.open, id).None?
            case Some(p) => Stands(Face(p, c, policy), id, r.open, r.trades)
    decreases |open|
  {
    hide Face, Meet;
    if open != [] {
      var p, rest := open[0], StepCandle(open[1..], c, policy);
      assert open == [p] + open[1..];
      UniqueRest(p, open[1..]);
      StepProjects(open[1..], c, policy, id);
      AtInBag(open[1..], id);
      MeetProjects(p, c, policy, rest, id);
    }
  }

  lemma UniqueRest(p: Position, rest: seq<Position>)
    requires Unique(OpenBag([p] + rest))
    ensures Unique(OpenBag(rest)) && p.signalId !in OpenBag(rest)
  {
    BagOne(p, rest);
    forall x
      ensures OpenBag(rest)[x] <= 1
    {
      assert OpenBag([p] + rest)[x] <= 1;
    }
    assert OpenBag([p] + rest)[p.signalId] <= 1;
  }

  lemma {:induction false} SweepProjects(open: seq<Position>, candles: seq<Candle>, i: nat, stopAt: Option<int>,
                                         policy: FillPolicy, id: string)
    requires i <= |candles| && Unique(OpenBag(open))
    ensures var r := Sweep(open, candles, i, stopAt, policy);
            match At(open, id)
            case None => At(r.open, id).None?
            case Some(p) => Stands(Travel(p, candles, i, r.index, policy), id, r.open, r.resolved)
    decreases |candles| - i
  {
    hide StepCandle, Face, At, Unique, OpenBag, TradeBag;
    if i < |candles| && !Stops(candles[i], stopAt) {
      var c := candles[i];
      var step := StepCandle(open, c, policy);
      var r := Sweep(step.open, candles, i + 1, stopAt, policy);
      StepProjects(open, c, policy, id);
      StepConserves(open, c, policy);
      UniquePart(OpenBag(step.open), TradeBag(step.trades), OpenBag(open));
      SweepProjects(step.open, candles, i + 1, stopAt, policy, id);
    }
  }

  // ---- the cursor never passes an entry ----

  /** Every candle behind the cursor had closed by the time. */
  ghost predicate PastClosed(candles: seq<Candle>, cursor: nat, time: int)
  {
    cursor <= |candles| && forall c :: 0 <= c < cursor ==> candles[c].closeTime <= time
  }

  lemma {:induction false} SweepPasses(open: seq<Position>, candles: seq<Candle>, i: nat, time: int, policy: FillPolicy)
    requires PastClosed(candles, i, time)
    ensures PastClosed(candles, Sweep(open, candles, i, Some(time), policy).index, time)
    decreases |candles| - i
  {
    hide StepCandle;
    if i < |candles| && !Stops(candles[i], Some(time)) {
      SweepPasses(StepCandle(open, candles[i], policy).open, candles, i + 1, time, policy);
    }
  }

  lemma {:induction false} CursorInPast(events: seq<Event>, k: nat, candles: seq<Candle>, cfg: Config,
                                        policy: FillPolicy, time: int)
    requires k <= |events| && EventsOrdered(events)
    requires forall j :: 0 <= j < k ==> events[j].timestamp <= time
    ensures PastClosed(candles, BookAfter(events, k, candles, cfg, policy).cursor, time)
    decreases k
  {
    hide ApplyEvent, Sweep;
    if k != 0 {
      var t := events[k - 1].timestamp;
      var b := BookAfter(events, k - 1, candles, cfg, policy);
      CursorInPast(events, k - 1, candles, cfg, policy, t);
      SweepPasses(b.open, candles, b.cursor, t, policy);
    }
  }

  /** Candles of one market that open together close together. */
  ghost predicate Uniform(candles: seq<Candle>)
  {
    forall i, j :: 0 <= i < |candles| && 0 <= j < |candles| ==>
      SameMarket(candles[i].market, candles[j].market) && candles[i].openTime == candles[j].openTime ==>
        candles[i].closeTime == candles[j].closeTime
  }

  /** A candle of the position's market that opened together with the entry candle. */
  predicate Twin(p: Position, c: Candle) { SameMarket(c.market, p.market) && c.openTime == p.entryTime }

  /** The entry candle is at or ahead of the cursor; a candle behind the cursor concerns the new position
      exactly when it opened together with the entry candle. */
  lemma MissedExactly(e: Event, market: MarketKey, open: seq<Position>, balance: real, candles: seq<Candle>,
                      cfg: Config, cursor: nat)
    requires CandlesOrdered(candles) && PastClosed(candles, cursor, e.timestamp)
    ensures var k := EntryIndex(e.parsed, market, e.timestamp, candles, 0); k.Some? ==> cursor <= k.value
    ensures var d := Decide(e, market, open, balance, candles, cfg);
            d.Filled? ==> forall c :: 0 <= c < cursor ==>
              (Relevant(d.position, candles[c]) <==> Twin(d.position, candles[c]))
  {
    hide OrderQuantity, Protect, Sanitize;
    var k := EntryIndex(e.parsed, market, e.timestamp, candles, 0);
    var d := Decide(e, market, open, balance, candles, cfg);
    if d.Filled? {
      forall c | 0 <= c < cursor
        ensures Relevant(d.position, candles[c]) <==> Twin(d.position, candles[c])
      {
        assert candles[c].openTime <= candles[k.value].openTime;
      }
    }
  }

  /** Two candles that open together and close apart: the first is behind the cursor when the second fills. */
  lemma TwinIsMissed(s: Signal, c: Candle, time: int, later: int)
    requires c.market.Some? && c.closeTime <= time < later && !Immediate(s)
    requires Fills(s, time, c.(closeTime := later))
    ensures var candles := [c, c.(closeTime := later)];
            && PastClosed(candles, 1, time) && EntryIndex(s, c.market, time, candles, 0) == Some(1)
            && FindEntry(s, c.market, time, candles).value.time == c.openTime
  {
  }

  /** With no such twins nothing behind the cursor concerns the new position. */
  lemma NothingBehind(e: Event, market: MarketKey, open: seq<Position>, balance: real, candles: seq<Candle>,
                      cfg: Config, cursor: nat)
    requires CandlesOrdered(candles) && Uniform(candles) && PastClosed(candles, cursor, e.timestamp)
    ensures var k := EntryIndex(e.parsed, market, e.timestamp, candles, 0); k.Some? ==> cursor <= k.value
    ensures var d := Decide(e, market, open, balance, candles, cfg);
            d.Filled? ==> forall c :: 0 <= c < cursor ==> !Relevant(d.position, candles[c])
  {
    hide OrderQuantity, Protect, Sanitize;
    MissedExactly(e, market, open, balance, candles, cfg, cursor);
    var k := EntryIndex(e.parsed, market, e.timestamp, candles, 0);
    var d := Decide(e, market, open, balance, candles, cfg);
    if d.Filled? {
      var entry := candles[k.value];
      assert entry.openTime == d.position.entryTime && (Immediate(e.parsed) || e.timestamp < entry.closeTime);
    }
  }

  // ---- the position that an event opens ----

  lemma PutElsewhere(open: seq<Position>, p: Position, id: string)
    requires p.signalId != id
    ensures At(Put(open, p), id) == At(open, id)
  {
    if Holds(open, p.signalId) {
      ReplaceElsewhere(open, IndexOf(open, p.signalId), p, id);
    } else {
      AtAppend(open, [p], id);
    }
  }

  lemma ReplaceElsewhere(open: seq<Position>, i: nat, p: Position, id: string)
    requires i < |open| && open[i].signalId == p.signalId != id
    ensures At(open[i := p], id) == At(open, id) == At(Remove(open, i), id)
  {
    hide At;
    var before, after := open[..i], open[i + 1..];
    assert open == before + ([open[i]] + after);
    assert open[i := p] == before + ([p] + after);
    AtAppend(before, [open[i]] + after, id);
    AtAppend(before, [p] + after, id);
    AtAppend(before, after, id);
    AtAppend([open[i]], after, id);
    AtAppend([p], after, id);
    AtSingle(open[i], id);
    AtSingle(p, id);
  }

  lemma AtSingle(p: Position, id: string)
    ensures At([p], id) == if p.signalId == id then Some(p) else None
  {
  }

  /** The book that event k meets. */
  function Opening(events: seq<Event>, k: nat, candles: seq<Candle>, cfg: Config, policy: FillPolicy): Book
    requires k < |events|
  {
    SweepBook(BookAfter(events, k, candles, cfg, policy), candles, Some(events[k].timestamp), policy)
  }

  /** The position that event k opened, if it did. */
  function OpenedBy(events: seq<Event>, k: nat, candles: seq<Candle>, cfg: Config, policy: FillPolicy): Decision
    requires k < |events| && Opens(events[k])
  {
    var b := Opening(events, k, candles, cfg, policy);
    Decide(events[k], events[k].parsed.symbol.value, b.open, b.balance, candles, cfg)
  }

  lemma OpenedStands(events: seq<Event>, k: nat, candles: seq<Candle>, cfg: Config, policy: FillPolicy)
    requires k < |events| && Opens(events[k]) && OpenedBy(events, k, candles, cfg, policy).Filled?
    requires DistinctOpens(events)
    ensures var p := OpenedBy(events, k, candles, cfg, policy).position;
            var b := BookAfter(events, k + 1, candles, cfg, policy);
            && p.signalId == events[k].signalId
            && b.cursor == Opening(events, k, candles, cfg, policy).cursor
            && At(b.open, p.signalId) == Some(p)
  {
    hide Decide, SweepBook, At;
    var b := BookAfter(events, k, candles, cfg, policy);
    var stopAt := Some(events[k].timestamp);
    var s := SweepBook(b, candles, stopAt, policy);
    var p := OpenedBy(events, k, candles, cfg, policy).position;
    BookBalanced(events, k, candles, cfg, policy);
    SweepBalanced(b, OpenedBag(events, k), candles, stopAt, cfg, policy);
    NextIdIsNew(events, k);
    OpenBagHolds(s.open, p.signalId);
    AtInBag(s.open, p.signalId);
    AtAppend(s.open, [p], p.signalId);
    AtSingle(p, p.signalId);
    assert BookAfter(events, k + 1, candles, cfg, policy) == EventBook(s, events[k], candles, cfg);
  }
}
