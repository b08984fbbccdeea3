/** The two simulation drivers as functions: candles swept between events, and the two ledgers. */
module Replay {
  import opened Core
  import opened Market
  import opened Lookups
  import opened Positions
  import opened Events

  // ---- candles ----

  /** A candle concerns a position of its market once the position has been entered. */
  predicate Relevant(p: Position, c: Candle)
  {
    SameMarket(c.market, p.market) && p.entryTime <= c.openTime
  }

  /** Still open after some candles, or ended by one of them. */
  datatype Journey = Alive(position: Position) | Over(trade: Trade)

  /** One position under one candle. */
  function Face(p: Position, c: Candle, policy: FillPolicy): (r: Journey)
    ensures r.Alive? ==> SameDeal(p, r.position)
    ensures r.Over? ==> r.trade.signalId == p.signalId
  {
    if !Relevant(p, c) then Alive(p)
    else
      var r := ApplyCandle(p, c, policy);
      match r.status
      case None => Alive(r.position)
      case Some(status) => Over(Finalize(r.position, status))
  }

  /** One position under one candle, ahead of what the candle did to the others. */
  function Meet(p: Position, c: Candle, policy: FillPolicy, rest: Effect): Effect
  {
    match Face(p, c, policy)
    case Alive(q) => Effect([q] + rest.open, rest.trades)
    case Over(t) => Effect(rest.open, [t] + rest.trades)
  }

  function StepCandle(open: seq<Position>, c: Candle, policy: FillPolicy): Effect
    decreases |open|
  {
    if open == [] then Effect([], []) else Meet(open[0], c, policy, StepCandle(open[1..], c, policy))
  }

  datatype Swept = Swept(open: seq<Position>, resolved: seq<Trade>, index: nat)

  /** The sweep stops before the first candle that closes after stopAt. */
  predicate Stops(c: Candle, stopAt: Option<int>) { stopAt.Some? && stopAt.value < c.closeTime }

  function Sweep(open: seq<Position>, candles: seq<Candle>, i: nat, stopAt: Option<int>, policy: FillPolicy): (r: Swept)
    requires i <= |candles|
    ensures i <= r.index <= |candles|
    decreases |candles| - i
  {
    if i == |candles| || Stops(candles[i], stopAt) then Swept(open, [], i)
    else
      var step := StepCandle(open, candles[i], policy);
      var rest := Sweep(step.open, candles, i + 1, stopAt, policy);
      Swept(rest.open, step.trades + rest.resolved, rest.index)
  }

  /** With nothing open a sweep resolves nothing and only moves on. */
  lemma {:induction false} EmptySweeps(candles: seq<Candle>, i: nat, stopAt: Option<int>, policy: FillPolicy)
    requires i <= |candles|
    ensures var r := Sweep([], candles, i, stopAt, policy);
            && r.open == [] && r.resolved == [] && (stopAt.None? ==> r.index == |candles|)
    decreases |candles| - i
  {
    if i < |candles| && !Stops(candles[i], stopAt) {
      EmptySweeps(candles, i + 1, stopAt, policy);
    }
  }

  lemma {:induction false} SweepReachesEnd(open: seq<Position>, candles: seq<Candle>, i: nat, policy: FillPolicy)
    requires i <= |candles|
    ensures Sweep(open, candles, i, None, policy).index == |candles|
    decreases |candles| - i
  {
    hide StepCandle;
    if i < |candles| {
      SweepReachesEnd(StepCandle(open, candles[i], policy).open, candles, i + 1, policy);
    }
  }

  // ---- the end of the run ----

  function FinalPrice(p: Position, candles: seq<Candle>): real
  {
    if p.exitPrice.Some? && p.exitPrice.value != 0.0 then p.exitPrice.value
    else LastPrice(candles, p.market, p.entryPrice)
  }

  function FinalTime(p: Position, candles: seq<Candle>): int
  {
    if candles != [] then candles[|candles| - 1].closeTime
    else match p.exitTime case Some(t) => t case None => p.entryTime
  }

  function EndTrade(p: Position, candles: seq<Candle>): Trade
  {
    CloseRemaining(p, FinalTime(p, candles), FinalPrice(p, candles),
                   if p.targetsHit == 0 then OpenUntilEnd else PartialTpOpenUntilEnd)
  }

  function EndTrades(open: seq<Position>, candles: seq<Candle>): seq<Trade>
  {
    if open == [] then [] else [EndTrade(open[0], candles)] + EndTrades(open[1..], candles)
  }

  // ---- ledgers ----

  function Pnls(trades: seq<Trade>): seq<real>
  {
    if trades == [] then [] else [trades[0].pnl] + Pnls(trades[1..])
  }

  function TotalPnl(trades: seq<Trade>): real { Sum(Pnls(trades)) }

  lemma {:induction false} PnlsAppend(a: seq<Trade>, b: seq<Trade>)
    ensures Pnls(a + b) == Pnls(a) + Pnls(b)
  {
    if a == [] {
      assert a + b == b;
    } else {
      assert (a + b)[1..] == a[1..] + b;
      PnlsAppend(a[1..], b);
    }
  }

  lemma TotalPnlAppend(a: seq<Trade>, b: seq<Trade>)
    ensures TotalPnl(a + b) == TotalPnl(a) + TotalPnl(b)
  {
    PnlsAppend(a, b);
    SumAppend(Pnls(a), Pnls(b));
  }

  predicate Recorded(closed: seq<Trade>, id: string)
  {
    exists i :: 0 <= i < |closed| && closed[i].signalId == id
  }

  function RecordIndex(closed: seq<Trade>, id: string): (i: nat)
    requires Recorded(closed, id)
    ensures i < |closed| && closed[i].signalId == id
  {
    if closed[0].signalId == id then 0
    else
      assert Recorded(closed[1..], id) by {
        var k :| 0 <= k < |closed| && closed[k].signalId == id;
        assert closed[1..][k - 1].signalId == id;
      }
      1 + RecordIndex(closed[1..], id)
  }

  /** closed_trades_by_signal[trade.signal_id] = trade */
  function Record(closed: seq<Trade>, t: Trade): seq<Trade>
  {
    if Recorded(closed, t.signalId) then closed[RecordIndex(closed, t.signalId) := t] else closed + [t]
  }

  function RecordAll(closed: seq<Trade>, ts: seq<Trade>): seq<Trade>
    decreases |ts|
  {
    if ts == [] then closed else RecordAll(Record(closed, ts[0]), ts[1..])
  }

  // ---- the one-shot driver: a trade list and a running balance ----

  datatype Book = Book(open: seq<Position>, trades: seq<Trade>, balance: real, cursor: nat)

  function Credit(b: Book, ts: seq<Trade>): Book
  {
    b.(trades := b.trades + ts, balance := b.balance + TotalPnl(ts))
  }

  function SweepBook(b: Book, candles: seq<Candle>, stopAt: Option<int>, policy: FillPolicy): (r: Book)
    requires b.cursor <= |candles|
    ensures b.cursor <= r.cursor <= |candles|
  {
    var s := Sweep(b.open, candles, b.cursor, stopAt, policy);
    Credit(b, s.resolved).(open := s.open, cursor := s.index)
  }

  function EventBook(b: Book, e: Event, candles: seq<Candle>, cfg: Config): Book
  {
    var r := ApplyEvent(e, b.open, b.balance, candles, cfg);
    Credit(b, r.trades).(open := r.open)
  }

  /** The book after the first k events. */
  function BookAfter(events: seq<Event>, k: nat, candles: seq<Candle>, cfg: Config, policy: FillPolicy): (b: Book)
    requires k <= |events|
    ensures b.cursor <= |candles|
    decreases k
  {
    if k == 0 then Book([], [], cfg.initialBalance, 0)
    else
      var b := BookAfter(events, k - 1, candles, cfg, policy);
      EventBook(SweepBook(b, candles, Some(events[k - 1].timestamp), policy), events[k - 1], candles, cfg)
  }

  function EndBook(b: Book, candles: seq<Candle>): Book
  {
    Credit(b, EndTrades(b.open, candles)).(open := [])
  }

  /** The book when every candle has been replayed, before positions are closed. */
  function SweptBook(events: seq<Event>, candles: seq<Candle>, cfg: Config, policy: FillPolicy): Book
  {
    SweepBook(BookAfter(events, |events|, candles, cfg, policy), candles, None, policy)
  }

  /** simulate(): everything, on sorted inputs, with open positions closed at the end. */
  function RunSorted(events: seq<Event>, candles: seq<Candle>, cfg: Config, policy: FillPolicy): Book
  {
    EndBook(SweptBook(events, candles, cfg, policy), candles)
  }

  function Run(events: seq<Event>, candles: seq<Candle>, cfg: Config, policy: FillPolicy): Book
  {
    RunSorted(SortEvents(events), SortCandles(candles), cfg, policy)
  }

  lemma NextBook(events: seq<Event>, k: nat, candles: seq<Candle>, cfg: Config, policy: FillPolicy)
    requires k < |events|
    ensures BookAfter(events, k + 1, candles, cfg, policy) ==
            EventBook(SweepBook(BookAfter(events, k, candles, cfg, policy), candles, Some(events[k].timestamp), policy),
                      events[k], candles, cfg)
  {
    hide SweepBook, EventBook;
  }

  // ---- the resumable driver: a dictionary of trades, the balance recomputed ----

  datatype Preview = Preview(open: seq<Position>, closed: seq<Trade>, count: nat, until: Option<int>)

  const FRESH := Preview([], [], 0, None)

  datatype Live = Live(open: seq<Position>, closed: seq<Trade>, cursor: nat)

  function Balance(closed: seq<Trade>, cfg: Config): real { cfg.initialBalance + TotalPnl(closed) }

  function SweepLive(l: Live, candles: seq<Candle>, stopAt: Option<int>, policy: FillPolicy): (r: Live)
    requires l.cursor <= |candles|
    ensures l.cursor <= r.cursor <= |candles|
  {
    var s := Sweep(l.open, candles, l.cursor, stopAt, policy);
    Live(s.open, RecordAll(l.closed, s.resolved), s.index)
  }

  function EventLive(l: Live, e: Event, candles: seq<Candle>, cfg: Config): Live
  {
    var r := ApplyEvent(e, l.open, Balance(l.closed, cfg), candles, cfg);
    Live(r.open, RecordAll(l.closed, r.trades), l.cursor)
  }

  function LiveStep(l: Live, e: Event, candles: seq<Candle>, cfg: Config, policy: FillPolicy): (r: Live)
    requires l.cursor <= |candles|
    ensures l.cursor <= r.cursor <= |candles|
  {
    EventLive(SweepLive(l, candles, Some(e.timestamp), policy), e, candles, cfg)
  }

  function ResumeIndex(candles: seq<Candle>, until: Option<int>, i: nat): (r: nat)
    requires i <= |candles|
    ensures i <= r <= |candles|
    decreases |candles| - i
  {
    if until.Some? && i < |candles| && candles[i].closeTime <= until.value then ResumeIndex(candles, until, i + 1)
    else i
  }

  /** Too many processed events for this event list: start over. */
  function Restart(s: Preview, events: seq<Event>): (r: Preview)
    ensures r.count <= |events|
  {
    if |events| < s.count then FRESH else s
  }

  /** Events after the last candle's open wait for the segment that contains their candle. */
  predicate Deferred(s: Preview, candles: seq<Candle>, e: Event)
  {
    && candles != []
    && (s.until.None? || s.until.value < candles[|candles| - 1].openTime)
    && candles[|candles| - 1].openTime < e.timestamp
  }

  function DueCount(s: Preview, events: seq<Event>, candles: seq<Candle>, k: nat): (n: nat)
    requires k <= |events|
    ensures k <= n <= |events|
    ensures forall j :: k <= j < n ==> !Deferred(s, candles, events[j])
    ensures n < |events| ==> Deferred(s, candles, events[n])
    decreases |events| - k
  {
    if k < |events| && !Deferred(s, candles, events[k]) then DueCount(s, events, candles, k + 1) else k
  }

  /** The live state of a call after the events s.count..k. */
  function LiveAfter(s: Preview, events: seq<Event>, k: nat, candles: seq<Candle>, cfg: Config,
                     policy: FillPolicy): (l: Live)
    requires s.count <= k <= |events|
    ensures l.cursor <= |candles|
    decreases k
  {
    if k == s.count then Live(s.open, s.closed, ResumeIndex(candles, s.until, 0))
    else LiveStep(LiveAfter(s, events, k - 1, candles, cfg, policy), events[k - 1], candles, cfg, policy)
  }

  function EndLive(l: Live, candles: seq<Candle>): Live
  {
    Live([], RecordAll(l.closed, EndTrades(l.open, candles)), l.cursor)
  }

  /** simulate_live_preview_incremental(), on sorted inputs. */
  function ResumeSorted(prev: Preview, events: seq<Event>, candles: seq<Candle>, closeAtEnd: bool,
                        cfg: Config, policy: FillPolicy): Preview
  {
    var s := Restart(prev, events);
    var n := DueCount(s, events, candles, s.count);
    var swept := SweepLive(LiveAfter(s, events, n, candles, cfg, policy), candles, None, policy);
    var l := if closeAtEnd then EndLive(swept, candles) else swept;
    Preview(l.open, l.closed, n, if 0 < l.cursor then Some(candles[l.cursor - 1].closeTime) else s.until)
  }

  function Resume(prev: Preview, events: seq<Event>, candles: seq<Candle>, closeAtEnd: bool,
                  cfg: Config, policy: FillPolicy): Preview
  {
    ResumeSorted(prev, SortEvents(events), SortCandles(candles), closeAtEnd, cfg, policy)
  }
}
