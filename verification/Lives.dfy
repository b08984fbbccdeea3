/** A position's whole life in a run: its candles one after the other, and every event that touches it. */
module Lives {
  import opened Core
  import opened Market
  import opened Positions
  import opened Events
  import opened Replay
  import opened Ledger
  import opened Journeys

  /** Where a sweep stops: it depends on time alone. */
  function Clock(candles: seq<Candle>, i: nat, stopAt: Option<int>): (j: nat)
    requires i <= |candles|
    ensures i <= j <= |candles|
    decreases |candles| - i
  {
    if i == |candles| || Stops(candles[i], stopAt) then i else Clock(candles, i + 1, stopAt)
  }

  lemma {:induction false} SweepKeepsTime(open: seq<Position>, candles: seq<Candle>, i: nat, stopAt: Option<int>,
                                          policy: FillPolicy)
    requires i <= |candles|
    ensures Sweep(open, candles, i, stopAt, policy).index == Clock(candles, i, stopAt)
    decreases |candles| - i
  {
    hide StepCandle;
    if i < |candles| && !Stops(candles[i], stopAt) {
      SweepKeepsTime(StepCandle(open, candles[i], policy).open, candles, i + 1, stopAt, policy);
    }
  }

  /** The event can change or close the signal, or open it. */
  predicate Touches(e: Event, id: string)
  {
    ClosesAll(e) || e.relatedId == Some(id) || (Opens(e) && e.signalId == id)
  }

  /** What an event does to one open position, all others left aside. */
  function Touched(p: Position, e: Event, candles: seq<Candle>, cfg: Config): (r: Journey)
    ensures r.Alive? ==> SameDeal(p, r.position)
    ensures r.Over? ==> r.trade.signalId == p.signalId
  {
    if Opens(e) then Alive(p)
    else if ClosesAll(e) then Over(CloseFully(p, e.timestamp, candles))
    else if e.relatedId == Some(p.signalId) then
      match Follow(p, e, candles, cfg)
      case Keep(q) => Alive(q)
      case End(t) => Over(t)
    else Alive(p)
  }

  /** The cursor after the events i..n, from cursor c. */
  function CursorAfter(events: seq<Event>, i: nat, n: nat, candles: seq<Candle>, c: nat): (d: nat)
    requires i <= n <= |events| && c <= |candles|
    ensures c <= d <= |candles|
    decreases n - i
  {
    if i == n then c else CursorAfter(events, i + 1, n, candles, Clock(candles, c, Some(events[i].timestamp)))
  }

  /** The position alone through the events i..n: before each event the candles up to it, then the event. */
  function Life(p: Position, events: seq<Event>, i: nat, n: nat, candles: seq<Candle>, c: nat, cfg: Config,
                policy: FillPolicy): (r: Journey)
    requires i <= n <= |events| && c <= |candles|
    ensures r.Alive? ==> SameDeal(p, r.position)
    ensures r.Over? ==> r.trade.signalId == p.signalId
    decreases n - i
  {
    if i == n then Alive(p)
    else
      var d := Clock(candles, c, Some(events[i].timestamp));
      match Travel(p, candles, c, d, policy)
      case Over(t) => Over(t)
      case Alive(q) =>
        match Touched(q, events[i], candles, cfg)
        case Over(t) => Over(t)
        case Alive(r) => Life(r, events, i + 1, n, candles, d, cfg, policy)
  }

  /** A life to the end of the candles. */
  function Fate(p: Position, events: seq<Event>, i: nat, candles: seq<Candle>, c: nat, cfg: Config,
                policy: FillPolicy): (r: Journey)
    requires i <= |events| && c <= |candles|
    ensures r.Alive? ==> SameDeal(p, r.position)
    ensures r.Over? ==> r.trade.signalId == p.signalId
  {
    match Life(p, events, i, |events|, candles, c, cfg, policy)
    case Over(t) => Over(t)
    case Alive(q) => Travel(q, candles, CursorAfter(events, i, |events|, candles, c), |candles|, policy)
  }

  // ---- an event and one of many positions ----

  lemma {:induction false} CloseAllHas(open: seq<Position>, time: int, candles: seq<Candle>, p: Position)
    requires p in open
    ensures CloseFully(p, time, candles) in CloseAll(open, time, candles)
  {
    hide CloseFully;
    if p != open[0] { CloseAllHas(open[1..], time, candles, p); }
  }

  lemma {:induction false} AtHeld(open: seq<Position>, id: string)
    ensures Holds(open, id) <==> At(open, id).Some?
    ensures Holds(open, id) ==> At(open, id) == Some(open[IndexOf(open, id)])
  {
    if open != [] {
      AtHeld(open[1..], id);
      if Holds(open, id) && open[0].signalId != id {
        var k :| 0 <= k < |open| && open[k].signalId == id;
        assert open[1..][k - 1].signalId == id;
      }
      if Holds(open[1..], id) {
        var k :| 0 <= k < |open[1..]| && open[1..][k].signalId == id;
        assert open[k + 1].signalId == id;
      }
      if open[0].signalId == id { assert Holds(open, id) by { assert open[0].signalId == id; } }
    }
  }

  /** The slot of a unique id: what is put there stands there, and removing it leaves nothing. */
  lemma SlotProjects(open: seq<Position>, i: nat, p: Position, id: string)
    requires Unique(OpenBag(open)) && i < |open| && open[i].signalId == p.signalId == id
    ensures At(open[i := p], id) == Some(p) && At(Remove(open, i), id).None?
  {
    hide At;
    var before, after := open[..i], open[i + 1..];
    assert open == before + ([open[i]] + after) && open[i := p] == before + ([p] + after);
    OpenBagAt(open, i, open[i]);
    assert OpenBag(open)[id] <= 1;
    AtInBag(Remove(open, i), id);
    AtAppend(before, after, id);
    AtAppend(before, [p] + after, id);
    AtAppend([p], after, id);
    AtSingle(p, id);
  }

  /** An event does to each open position what it would do to that one alone. */
  lemma EventProjects(e: Event, open: seq<Position>, balance: real, candles: seq<Candle>, cfg: Config, p: Position)
    requires Unique(OpenBag(open)) && At(open, p.signalId) == Some(p)
    requires Opens(e) ==> e.signalId != p.signalId
    ensures var r := ApplyEvent(e, open, balance, candles, cfg);
            Stands(Touched(p, e, candles, cfg), p.signalId, r.open, r.trades)
  {
    hide Decide, Follow, Put, At, CloseFully, CloseAll, Remove;
    var id := p.signalId;
    if Opens(e) {
      match Decide(e, e.parsed.symbol.value, open, balance, candles, cfg)
      case Refused =>
      case Filled(q) => PutElsewhere(open, q, id);
    } else if ClosesAll(e) {
      CloseAllHas(open, e.timestamp, candles, p);
      assert At([], id).None? by { NothingAt(id); }
    } else if e.relatedId.Some? && Holds(open, e.relatedId.value) {
      var i := IndexOf(open, e.relatedId.value);
      AtHeld(open, e.relatedId.value);
      match Follow(open[i], e, candles, cfg)
      case Keep(q) =>
        if e.relatedId.value == id { SlotProjects(open, i, q, id); } else { ReplaceElsewhere(open, i, q, id); }
      case End(t) =>
        if e.relatedId.value == id { SlotProjects(open, i, p, id); } else { ReplaceElsewhere(open, i, open[i], id); }
    } else if e.relatedId.Some? {
      AtHeld(open, e.relatedId.value);
    }
  }

  lemma NothingAt(id: string)
    ensures At([], id).None?
  {
  }

  /** A signal that is gone stays gone under every event that does not open it. */
  lemma GoneStaysGone(e: Event, open: seq<Position>, balance: real, candles: seq<Candle>, cfg: Config, id: string)
    requires At(open, id).None? && (Opens(e) ==> e.signalId != id)
    ensures At(ApplyEvent(e, open, balance, candles, cfg).open, id).None?
  {
    hide Decide, Follow, Put, At, Remove;
    NothingAt(id);
    if Opens(e) {
      match Decide(e, e.parsed.symbol.value, open, balance, candles, cfg)
      case Refused =>
      case Filled(q) => PutElsewhere(open, q, id);
    } else if e.relatedId.Some? && Holds(open, e.relatedId.value) {
      var i := IndexOf(open, e.relatedId.value);
      AtHeld(open, e.relatedId.value);
      match Follow(open[i], e, candles, cfg)
      case Keep(q) => ReplaceElsewhere(open, i, q, id);
      case End(t) => ReplaceElsewhere(open, i, open[i], id);
    }
  }

  // ---- a life in a run ----

  /** No event from i to n opens the signal. */
  ghost predicate NotReopened(events: seq<Event>, i: nat, n: nat, id: string)
  {
    forall j :: i <= j < n && j < |events| && Opens(events[j]) ==> events[j].signalId != id
  }

  lemma UniqueSwept(events: seq<Event>, i: nat, candles: seq<Candle>, stopAt: Option<int>, cfg: Config,
                    policy: FillPolicy)
    requires i <= |events| && DistinctOpens(events)
    ensures Unique(OpenBag(BookAfter(events, i, candles, cfg, policy).open))
    ensures Unique(OpenBag(SweepBook(BookAfter(events, i, candles, cfg, policy), candles, stopAt, policy).open))
  {
    hide BookAfter, SweepBook;
    var b := BookAfter(events, i, candles, cfg, policy);
    var s := SweepBook(b, candles, stopAt, policy);
    BookBalanced(events, i, candles, cfg, policy);
    SweepBalanced(b, OpenedBag(events, i), candles, stopAt, cfg, policy);
    OpenedBagUnique(events, i);
    UniquePart(OpenBag(b.open), TradeBag(b.trades), OpenedBag(events, i));
    UniquePart(OpenBag(s.open), TradeBag(s.trades), OpenedBag(events, i));
  }

  /** A sweep in a run carries an open signal along the candles it passes, and brings no ended one back. */
  lemma SweptStands(events: seq<Event>, i: nat, candles: seq<Candle>, stopAt: Option<int>, cfg: Config,
                    policy: FillPolicy, id: string)
    requires i <= |events| && DistinctOpens(events)
    ensures var b := BookAfter(events, i, candles, cfg, policy);
            var s := SweepBook(b, candles, stopAt, policy);
            && b.cursor <= s.cursor <= |candles| && s.cursor == Clock(candles, b.cursor, stopAt)
            && (forall t :: t in b.trades ==> t in s.trades)
            && match At(b.open, id)
               case None => At(s.open, id).None?
               case Some(p) => Stands(Travel(p, candles, b.cursor, s.cursor, policy), id, s.open, s.trades)
  {
    hide Sweep, Travel, At, BookAfter;
    var b := BookAfter(events, i, candles, cfg, policy);
    UniqueSwept(events, i, candles, stopAt, cfg, policy);
    SweepKeepsTime(b.open, candles, b.cursor, stopAt, policy);
    SweepProjects(b.open, candles, b.cursor, stopAt, policy, id);
  }

  /** A signal that has ended stays ended, and its trade stays on record. */
  lemma {:induction false} EndedForGood(events: seq<Event>, i: nat, n: nat, candles: seq<Candle>, cfg: Config,
                                        policy: FillPolicy, id: string, t: Trade)
    requires i <= n <= |events| && DistinctOpens(events) && NotReopened(events, i, n, id)
    requires Stands(Over(t), id, BookAfter(events, i, candles, cfg, policy).open,
                    BookAfter(events, i, candles, cfg, policy).trades)
    ensures Stands(Over(t), id, BookAfter(events, n, candles, cfg, policy).open,
                   BookAfter(events, n, candles, cfg, policy).trades)
    decreases n - i
  {
    hide SweepBook, BookAfter, ApplyEvent, At;
    if i < n {
      var stopAt := Some(events[i].timestamp);
      var s := SweepBook(BookAfter(events, i, candles, cfg, policy), candles, stopAt, policy);
      SweptStands(events, i, candles, stopAt, cfg, policy, id);
      GoneStaysGone(events[i], s.open, s.balance, candles, cfg, id);
      NextBook(events, i, candles, cfg, policy);
      EndedForGood(events, i + 1, n, candles, cfg, policy, id, t);
    }
  }

  /** From any moment on, a signal's place in the run is that of its life alone, through every event: updates,
      partial closes, cancels and close-alls among any number of other signals and markets. */
  lemma {:induction false} LifeInRun(events: seq<Event>, i: nat, n: nat, candles: seq<Candle>, cfg: Config,
                                     policy: FillPolicy, p: Position)
    requires i <= n <= |events| && DistinctOpens(events) && NotReopened(events, i, n, p.signalId)
    requires At(BookAfter(events, i, candles, cfg, policy).open, p.signalId) == Some(p)
    ensures var c := BookAfter(events, i, candles, cfg, policy).cursor;
            var b := BookAfter(events, n, candles, cfg, policy);
            && b.cursor == CursorAfter(events, i, n, candles, c)
            && Stands(Life(p, events, i, n, candles, c, cfg, policy), p.signalId, b.open, b.trades)
    decreases n - i
  {
    hide SweepBook, BookAfter, ApplyEvent, At, Travel, Touched;
    var id := p.signalId;
    var b := BookAfter(events, i, candles, cfg, policy);
    if i < n {
      var e := events[i];
      var s := SweepBook(b, candles, Some(e.timestamp), policy);
      SweptStands(events, i, candles, Some(e.timestamp), cfg, policy, id);
      NextBook(events, i, candles, cfg, policy);
      CursorsAgree(events, i + 1, n, candles, cfg, policy);
      match Travel(p, candles, b.cursor, s.cursor, policy)
      case Over(t) =>
        GoneStaysGone(e, s.open, s.balance, candles, cfg, id);
        EndedForGood(events, i + 1, n, candles, cfg, policy, id, t);
      case Alive(q) =>
        UniqueSwept(events, i, candles, Some(e.timestamp), cfg, policy);
        EventProjects(e, s.open, s.balance, candles, cfg, q);
        match Touched(q, e, candles, cfg)
        case Over(t) => EndedForGood(events, i + 1, n, candles, cfg, policy, id, t);
        case Alive(r) => LifeInRun(events, i + 1, n, candles, cfg, policy, r);
    }
  }

  lemma {:induction false} CursorsAgree(events: seq<Event>, i: nat, n: nat, candles: seq<Candle>, cfg: Config,
                                        policy: FillPolicy)
    requires i <= n <= |events|
    ensures BookAfter(events, n, candles, cfg, policy).cursor
         == CursorAfter(events, i, n, candles, BookAfter(events, i, candles, cfg, policy).cursor)
    decreases n - i
  {
    hide Sweep, BookAfter, ApplyEvent;
    if i < n {
      var b := BookAfter(events, i, candles, cfg, policy);
      SweepKeepsTime(b.open, candles, b.cursor, Some(events[i].timestamp), policy);
      NextBook(events, i, candles, cfg, policy);
      CursorsAgree(events, i + 1, n, candles, cfg, policy);
    }
  }

  /** Starting a life at the first candle changes nothing if nothing up to the cursor concerns the position. */
  lemma FateFromStart(p: Position, events: seq<Event>, i: nat, candles: seq<Candle>, c: nat, time: int, cfg: Config,
                      policy: FillPolicy)
    requires i <= |events| && PastClosed(candles, c, time) && (i < |events| ==> time <= events[i].timestamp)
    requires forall j :: 0 <= j < c ==> !Relevant(p, candles[j])
    ensures Fate(p, events, i, candles, 0, cfg, policy) == Fate(p, events, i, candles, c, cfg, policy)
  {
    hide Travel, Touched, Relevant;
    TravelSkips(p, candles, 0, c, |candles|, policy);
    if i < |events| {
      var stopAt := Some(events[i].timestamp);
      ClockSkips(candles, 0, c, stopAt);
      TravelSkips(p, candles, 0, c, Clock(candles, c, stopAt), policy);
    }
  }

  lemma {:induction false} ClockSkips(candles: seq<Candle>, i: nat, c: nat, stopAt: Option<int>)
    requires i <= c <= |candles| && forall j :: i <= j < c ==> !Stops(candles[j], stopAt)
    ensures Clock(candles, i, stopAt) == Clock(candles, c, stopAt)
    decreases c - i
  {
    if i < c { ClockSkips(candles, i + 1, c, stopAt); }
  }

  /** No candle is missed and none counted twice: the fate of any opened signal in any one-shot run, whatever
      events touch it and however many other signals and markets there are, is its life alone, the candles from
      the cursor to the end taken once each and in order. In time order that is its life from the very first
      candle, as long as no candle behind the cursor opened together with the entry candle. */
  lemma {:induction false} NoCandleMissed(events: seq<Event>, k: nat, candles: seq<Candle>, cfg: Config,
                                          policy: FillPolicy)
    requires k < |events| && Opens(events[k]) && OpenedBy(events, k, candles, cfg, policy).Filled?
    requires DistinctOpens(events)
    ensures var p := OpenedBy(events, k, candles, cfg, policy).position;
            var c := BookAfter(events, k + 1, candles, cfg, policy).cursor;
            var s := SweptBook(events, candles, cfg, policy);
            && s.cursor == |candles|
            && Stands(Fate(p, events, k + 1, candles, c, cfg, policy), p.signalId, s.open, s.trades)
            && (EventsOrdered(events) && CandlesOrdered(candles) && (forall j :: 0 <= j < c ==> !Twin(p, candles[j]))
                ==> Fate(p, events, k + 1, candles, 0, cfg, policy) == Fate(p, events, k + 1, candles, c, cfg, policy))
  {
    hide Sweep, Decide, Travel, At, BookAfter, Life, CursorAfter, Fate;
    var p := OpenedBy(events, k, candles, cfg, policy).position;
    var c := BookAfter(events, k + 1, candles, cfg, policy).cursor;
    OpenedStands(events, k, candles, cfg, policy);
    FateInRun(events, k + 1, candles, cfg, policy, p);
    var b := BookAfter(events, |events|, candles, cfg, policy);
    SweepReachesEnd(b.open, candles, b.cursor, policy);
    if EventsOrdered(events) && CandlesOrdered(candles) && (forall j :: 0 <= j < c ==> !Twin(p, candles[j])) {
      OnlyTwinsBehind(events, k, candles, cfg, policy);
      FateFromStart(p, events, k + 1, candles, c, events[k].timestamp, cfg, policy);
    }
  }

  /** The cursor at an opening: everything behind it had closed, and only twins of the entry candle concern the
      position. */
  lemma OnlyTwinsBehind(events: seq<Event>, k: nat, candles: seq<Candle>, cfg: Config, policy: FillPolicy)
    requires k < |events| && Opens(events[k]) && OpenedBy(events, k, candles, cfg, policy).Filled?
    requires DistinctOpens(events) && EventsOrdered(events) && CandlesOrdered(candles)
    ensures var p := OpenedBy(events, k, candles, cfg, policy).position;
            var c := BookAfter(events, k + 1, candles, cfg, policy).cursor;
            && PastClosed(candles, c, events[k].timestamp)
            && (forall j :: 0 <= j < c ==> (Relevant(p, candles[j]) <==> Twin(p, candles[j])))
  {
    hide Sweep, Decide, BookAfter, Relevant, Twin;
    var e := events[k];
    var b := BookAfter(events, k, candles, cfg, policy);
    var s := SweepBook(b, candles, Some(e.timestamp), policy);
    OpenedStands(events, k, candles, cfg, policy);
    CursorInPast(events, k, candles, cfg, policy, e.timestamp);
    SweepPasses(b.open, candles, b.cursor, e.timestamp, policy);
    MissedExactly(e, e.parsed.symbol.value, s.open, s.balance, candles, cfg, s.cursor);
  }

  lemma FateInRun(events: seq<Event>, i: nat, candles: seq<Candle>, cfg: Config, policy: FillPolicy, p: Position)
    requires i <= |events| && DistinctOpens(events)
    requires At(BookAfter(events, i, candles, cfg, policy).open, p.signalId) == Some(p)
    requires 0 < i && Opens(events[i - 1]) && events[i - 1].signalId == p.signalId
    ensures var s := SweptBook(events, candles, cfg, policy);
            Stands(Fate(p, events, i, candles, BookAfter(events, i, candles, cfg, policy).cursor, cfg, policy),
                   p.signalId, s.open, s.trades)
  {
    hide SweepBook, BookAfter, At, Travel, Life, CursorAfter;
    OpensOnce(events, i - 1, |events|, p.signalId);
    LifeInRun(events, i, |events|, candles, cfg, policy, p);
    SweptStands(events, |events|, candles, None, cfg, policy, p.signalId);
    ClockToEnd(candles, BookAfter(events, |events|, candles, cfg, policy).cursor);
  }

  // ---- a signal that leaves only through candles ----

  /** Before event n, no event touches the signal while it is open. */
  ghost predicate LeftAlone(events: seq<Event>, k: nat, n: nat, candles: seq<Candle>, cfg: Config, policy: FillPolicy,
                            id: string)
    requires n <= |events|
  {
    forall j :: k < j < n ==>
      var b := BookAfter(events, j, candles, cfg, policy);
      (Touches(events[j], id) ==> At(SweepBook(b, candles, Some(events[j].timestamp), policy).open, id).None?)
  }

  lemma {:induction false} QuietLife(events: seq<Event>, k: nat, i: nat, n: nat, candles: seq<Candle>, cfg: Config,
                                     policy: FillPolicy, p: Position)
    requires k < i <= n <= |events| && DistinctOpens(events)
    requires LeftAlone(events, k, n, candles, cfg, policy, p.signalId)
    requires At(BookAfter(events, i, candles, cfg, policy).open, p.signalId) == Some(p)
    ensures var c := BookAfter(events, i, candles, cfg, policy).cursor;
            Life(p, events, i, n, candles, c, cfg, policy)
              == Travel(p, candles, c, CursorAfter(events, i, n, candles, c), policy)
    decreases n - i
  {
    hide SweepBook, BookAfter, ApplyEvent, At, Travel, Follow, CloseFully;
    var id := p.signalId;
    var b := BookAfter(events, i, candles, cfg, policy);
    if i == n {
      StandsStill(p, candles, b.cursor, policy);
    } else {
      var e := events[i];
      var s := SweepBook(b, candles, Some(e.timestamp), policy);
      SweptStands(events, i, candles, Some(e.timestamp), cfg, policy, id);
      NextBook(events, i, candles, cfg, policy);
      var end := CursorAfter(events, i, n, candles, b.cursor);
      TravelOn(p, candles, b.cursor, s.cursor, end, policy);
      match Travel(p, candles, b.cursor, s.cursor, policy)
      case Over(t) =>
      case Alive(q) =>
        assert !Touches(e, id);
        UniqueSwept(events, i, candles, Some(e.timestamp), cfg, policy);
        EventProjects(e, s.open, s.balance, candles, cfg, q);
        QuietLife(events, k, i + 1, n, candles, cfg, policy, q);
    }
  }

  lemma StandsStill(p: Position, candles: seq<Candle>, c: nat, policy: FillPolicy)
    requires c <= |candles|
    ensures Travel(p, candles, c, c, policy) == Alive(p)
  {
  }

  lemma OpensOnce(events: seq<Event>, k: nat, n: nat, id: string)
    requires k < n <= |events| && DistinctOpens(events) && Opens(events[k]) && events[k].signalId == id
    ensures NotReopened(events, k + 1, n, id)
  {
  }

  /** As long as no event touches it while it is open, a signal's place in the run is its journey through the
      candles. */
  lemma {:induction false} JourneyInRun(events: seq<Event>, k: nat, n: nat, candles: seq<Candle>, cfg: Config,
                                        policy: FillPolicy)
    requires k < n <= |events| && Opens(events[k]) && OpenedBy(events, k, candles, cfg, policy).Filled?
    requires DistinctOpens(events) && LeftAlone(events, k, n, candles, cfg, policy, events[k].signalId)
    ensures var p := OpenedBy(events, k, candles, cfg, policy).position;
            var start := BookAfter(events, k + 1, candles, cfg, policy).cursor;
            var b := BookAfter(events, n, candles, cfg, policy);
            && start <= b.cursor
            && Stands(Travel(p, candles, start, b.cursor, policy), p.signalId, b.open, b.trades)
  {
    hide SweepBook, ApplyEvent, OpenedBy, Stands, Travel, At, BookAfter, LeftAlone, Life;
    var p := OpenedBy(events, k, candles, cfg, policy).position;
    OpenedStands(events, k, candles, cfg, policy);
    OpensOnce(events, k, n, p.signalId);
    LifeInRun(events, k + 1, n, candles, cfg, policy, p);
    QuietLife(events, k, k + 1, n, candles, cfg, policy, p);
  }

  lemma {:induction false} ClockToEnd(candles: seq<Candle>, i: nat)
    requires i <= |candles|
    ensures Clock(candles, i, None) == |candles|
    decreases |candles| - i
  {
    if i < |candles| { ClockToEnd(candles, i + 1); }
  }
}
