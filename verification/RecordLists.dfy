/** How the consolidation pass rewrites one record's events and the global list of events together. */
module RecordLists {
  import opened Core
  import opened Market
  import opened Drafts
  import opened Consolidation
  import Symbols

  datatype Fate = NoOpen | Rejected | Moved(index: nat, opening: FlowEvent)

  predicate Truthy(id: Option<string>) { id.Some? && id.value != "" }

  function OwnerOf(e: FlowEvent): string
  {
    if Truthy(e.relatedId) then e.relatedId.value else if Truthy(e.signalId) then e.signalId.value else ""
  }

  function SignalKey(e: FlowEvent): string { if Truthy(e.signalId) then e.signalId.value else "" }

  /** The message an event is looked up by; a missing or zero id counts as -1. */
  function KeyOf(e: FlowEvent): int
  {
    match e.messageId
    case None => -1
    case Some(n) => if n == 0 then -1 else n
  }

  /** The messages of the merged follow-ups; a missing id leaves no mark. */
  function MessagesOf(events: seq<FlowEvent>): set<int>
  {
    set e | e in events && e.messageId.Some? :: e.messageId.value
  }

  function Consumed(r: Record, rules: Rules): set<int> { MessagesOf(FollowUps(r, rules)) }

  function Execution(r: Record, rules: Rules): Draft
    requires OpenIndex(r.events, r.id) < |r.events|
  {
    rules.normalize(Merged(r.events[OpenIndex(r.events, r.id)].parsed, FollowUps(r, rules)).(action := Action.OPEN))
  }

  function FateOf(r: Record, rules: Rules): Fate
  {
    var k := OpenIndex(r.events, r.id);
    if k == |r.events| then NoOpen
    else
      var signal := Execution(r, rules);
      if rules.misplaced(Merged(r.events[k].parsed, FollowUps(r, rules)).(action := Action.OPEN))
         || !rules.openable(signal)
      then Rejected
      else Moved(k, r.events[k].(timestamp := Deadline(r, rules), parsed := signal, leverage := signal.leverage))
  }

  /** Everything but what was merged away; the opening stays whatever its message. */
  function Survivors(events: seq<FlowEvent>, k: nat, used: set<int>): seq<FlowEvent>
  {
    if events == [] then []
    else
      var n := |events| - 1;
      Survivors(events[..n], k, used) + if n == k || KeyOf(events[n]) !in used then [events[n]] else []
  }

  function Rewritten(r: Record, rules: Rules): Record
  {
    match FateOf(r, rules)
    case Moved(k, opening) =>
      var symbol := if opening.parsed.symbol.Some? then Symbols.MarketSymbol(opening.parsed.symbol.value) else None;
      r.(events := Survivors(r.events[k := opening], k, Consumed(r, rules)),
         symbol := if symbol.Some? then symbol.value else r.symbol,
         side := opening.parsed.side)
    case _ => r
  }

  predicate IsRejected(id: Option<string>, records: map<string, Record>, rules: Rules)
  {
    id.Some? && id.value in records && FateOf(records[id.value], rules).Rejected?
  }

  /** What the global list keeps of one event. */
  function GlobalOf(e: FlowEvent, records: map<string, Record>, rules: Rules): seq<FlowEvent>
  {
    var owner, key := OwnerOf(e), SignalKey(e);
    if IsRejected(e.signalId, records, rules) || IsRejected(e.relatedId, records, rules) then []
    else if owner in records && KeyOf(e) in Consumed(records[owner], rules) then []
    else if key in records && FateOf(records[key], rules).Moved? && KeyOf(e) == records[key].sourceId
    then [FateOf(records[key], rules).opening]
    else [e]
  }

  function RewriteGlobal(events: seq<FlowEvent>, records: map<string, Record>, rules: Rules): seq<FlowEvent>
  {
    if events == [] then []
    else RewriteGlobal(events[..|events| - 1], records, rules) + GlobalOf(events[|events| - 1], records, rules)
  }

  /** What becomes of a record: without an opening nothing; rejected when its merged opening is misplaced or cannot be
      opened; else its opening moves to the end of the waiting time, with the merged signal in the validator's form. */
  lemma FateMeans(r: Record, rules: Rules)
    ensures var k := OpenIndex(r.events, r.id);
            match FateOf(r, rules)
            case NoOpen => k == |r.events|
            case Rejected =>
              && k < |r.events|
              && var merged := Merged(r.events[k].parsed, FollowUps(r, rules)).(action := Action.OPEN);
                 rules.misplaced(merged) || !rules.openable(rules.normalize(merged))
            case Moved(i, opening) =>
              && i == k < |r.events|
              && var merged := Merged(r.events[k].parsed, FollowUps(r, rules)).(action := Action.OPEN);
                 && !rules.misplaced(merged) && rules.openable(rules.normalize(merged))
                 && opening.parsed == rules.normalize(merged) && opening.leverage == opening.parsed.leverage
                 && opening.timestamp == r.events[k].timestamp + rules.seconds
                 && opening.(parsed := r.events[k].parsed, leverage := r.events[k].leverage,
                             timestamp := r.events[k].timestamp) == r.events[k]
  {
    hide Merged, FollowUps, OpenIndex;
  }

  /** A surviving record takes the side, and the canonical symbol if there is one, of its moved opening. */
  lemma RewrittenMeans(r: Record, rules: Rules)
    ensures var w := Rewritten(r, rules);
            match FateOf(r, rules)
            case Moved(_, opening) =>
              && w.id == r.id && w.sourceId == r.sourceId && w.side == opening.parsed.side
              && w.symbol == (match opening.parsed.symbol
                              case None => r.symbol
                              case Some(raw) => if Symbols.MarketSymbol(raw).Some? then Symbols.MarketSymbol(raw).value
                                                else r.symbol)
            case _ => w == r
  {
    hide FateOf, Survivors, Consumed, Symbols.MarketSymbol;
  }

  // ---- what a record loses ----

  /** A message is used up exactly when a follow-up carries its id. */
  lemma ConsumedExactly(r: Record, rules: Rules, n: int)
    ensures n in Consumed(r, rules)
        <==> exists j :: 0 <= j < |r.events| && IsFollowUp(r, rules, j) && r.events[j].messageId == Some(n)
  {
    hide FollowUps, OpenIndex;
    if OpenIndex(r.events, r.id) == |r.events| {
      assert FollowUps(r, rules) == [] by { NothingOpened(r, rules); }
    } else {
      forall e
        ensures e in FollowUps(r, rules)
            <==> exists j :: 0 <= j < |r.events| && IsFollowUp(r, rules, j) && r.events[j] == e
      {
        FollowUpsExactly(r, rules, e);
        if j :| 0 <= j < |r.events| && IsFollowUp(r, rules, j) && r.events[j] == e {
          assert Chosen(Placed(j, r.events[j]), OpenIndex(r.events, r.id), Deadline(r, rules));
        }
        if j :| 0 <= j < |r.events| && r.events[j] == e
                && Chosen(Placed(j, r.events[j]), OpenIndex(r.events, r.id), Deadline(r, rules)) {
          assert IsFollowUp(r, rules, j);
        }
      }
    }
  }

  lemma NothingOpened(r: Record, rules: Rules)
    requires OpenIndex(r.events, r.id) == |r.events|
    ensures FollowUps(r, rules) == []
  {
  }

  /** The message ids tell the merged follow-ups from the other events: a follow-up carries, as the id it is
      looked up by, the id of a follow-up, and no other event but the opening does. */
  ghost predicate IdsTell(r: Record, rules: Rules)
  {
    forall i :: 0 <= i < |r.events| && i != OpenIndex(r.events, r.id) ==>
      (IsFollowUp(r, rules, i) <==>
        exists j :: 0 <= j < |r.events| && IsFollowUp(r, rules, j) && r.events[j].messageId == Some(KeyOf(r.events[i])))
  }

  /** The events of a record in their order, without the follow-ups merged into its opening. */
  function WithoutFollowUps(r: Record, rules: Rules, n: nat): seq<FlowEvent>
    requires n <= |r.events|
  {
    if n == 0 then []
    else WithoutFollowUps(r, rules, n - 1) + if IsFollowUp(r, rules, n - 1) then [] else [r.events[n - 1]]
  }

  lemma UsedMeansFollowUp(r: Record, rules: Rules, i: nat)
    requires IdsTell(r, rules) && i < |r.events| && i != OpenIndex(r.events, r.id)
    ensures KeyOf(r.events[i]) in Consumed(r, rules) <==> IsFollowUp(r, rules, i)
  {
    hide Consumed, OpenIndex, KeyOf, IsFollowUp;
    ConsumedExactly(r, rules, KeyOf(r.events[i]));
  }

  lemma {:induction false} SurvivorsAreOthers(r: Record, rules: Rules, n: nat)
    requires IdsTell(r, rules) && n <= |r.events| && OpenIndex(r.events, r.id) < |r.events|
    ensures Survivors(r.events[..n], OpenIndex(r.events, r.id), Consumed(r, rules)) == WithoutFollowUps(r, rules, n)
  {
    hide Consumed, OpenIndex, KeyOf, IdsTell;
    if n > 0 {
      assert r.events[..n][..n - 1] == r.events[..n - 1] && r.events[..n][n - 1] == r.events[n - 1];
      SurvivorsAreOthers(r, rules, n - 1);
      if n - 1 == OpenIndex(r.events, r.id) {
        assert !IsFollowUp(r, rules, n - 1);
      } else {
        UsedMeansFollowUp(r, rules, n - 1);
      }
    }
  }

  // ---- counting what is left ----

  function Once(b: bool): nat { if b then 1 else 0 }

  /** How often an event is among the survivors: not at all if its message was used up, except as the opening. */
  lemma {:induction false} SurvivorsCount(events: seq<FlowEvent>, k: nat, used: set<int>, n: nat, e: FlowEvent)
    requires k < |events| && n <= |events|
    ensures multiset(Survivors(events[..n], k, used))[e]
         == if KeyOf(e) in used then Once(k < n && events[k] == e) else multiset(events[..n])[e]
  {
    hide KeyOf, Survivors;
    if n == 0 {
      NothingSurvives(k, used);
    } else {
      SurvivorsStep(events, k, used, n);
      assert events[..n] == events[..n - 1] + [events[n - 1]];
      SurvivorsCount(events, k, used, n - 1, e);
    }
  }

  lemma NothingSurvives(k: nat, used: set<int>)
    ensures Survivors([], k, used) == []
  {
  }

  /** How often it is among the others: not at all if it is a follow-up, except as the opening. */
  lemma {:induction false} OthersCount(r: Record, rules: Rules, n: nat, e: FlowEvent, followUp: bool)
    requires OpenIndex(r.events, r.id) < |r.events| && n <= |r.events|
    requires forall i :: 0 <= i < |r.events| && i != OpenIndex(r.events, r.id) && r.events[i] == e ==>
               IsFollowUp(r, rules, i) == followUp
    ensures multiset(WithoutFollowUps(r, rules, n))[e]
         == if followUp then Once(OpenIndex(r.events, r.id) < n && r.events[OpenIndex(r.events, r.id)] == e)
            else multiset(r.events[..n])[e]
  {
    hide OpenIndex;
    if n > 0 {
      assert r.events[..n] == r.events[..n - 1] + [r.events[n - 1]];
      OthersCount(r, rules, n - 1, e, followUp);
    }
  }

  /** Two places of one event make two. */
  lemma CountsTwice(events: seq<FlowEvent>, i: nat, k: nat)
    requires i < |events| && k < |events| && i != k
    ensures Once(events[k] == events[i]) < multiset(events)[events[i]]
  {
    if i < k { CountsBoth(events, i, k); } else { CountsBoth(events, k, i); }
  }

  lemma CountsBoth(events: seq<FlowEvent>, i: nat, k: nat)
    requires i < k < |events|
    ensures multiset{events[i]} + multiset{events[k]} <= multiset(events)
  {
    assert events == events[..k] + events[k..] && events[k..] == [events[k]] + events[k + 1..];
    assert events[i] in events[..k] && events[i] in multiset(events[..k]);
  }

  /** If as many of each event survive as there are others, the ids tell. */
  lemma CountsTell(r: Record, rules: Rules, i: nat)
    requires OpenIndex(r.events, r.id) < |r.events| && i < |r.events| && i != OpenIndex(r.events, r.id)
    requires multiset(Survivors(r.events, OpenIndex(r.events, r.id), Consumed(r, rules)))[r.events[i]]
          == multiset(WithoutFollowUps(r, rules, |r.events|))[r.events[i]]
    ensures KeyOf(r.events[i]) in Consumed(r, rules) <==> IsFollowUp(r, rules, i)
  {
    hide Consumed, OpenIndex, KeyOf, Survivors, WithoutFollowUps;
    var n, k := |r.events|, OpenIndex(r.events, r.id);
    assert r.events[..n] == r.events;
    SurvivorsCount(r.events, k, Consumed(r, rules), n, r.events[i]);
    OthersCount(r, rules, n, r.events[i], IsFollowUp(r, rules, i));
    CountsTwice(r.events, i, k);
  }

  lemma {:induction false} SurvivorsReplace(events: seq<FlowEvent>, k: nat, opening: FlowEvent, used: set<int>, n: nat)
    requires k < |events| && n <= |events|
    ensures var i := |Survivors(events[..if n <= k then n else k], k, used)|;
            var before, after := Survivors(events[..n], k, used), Survivors(events[k := opening][..n], k, used);
            if n <= k then after == before else i < |before| && after == before[i := opening]
  {
    if n > 0 {
      assert events[..n][..n - 1] == events[..n - 1];
      assert events[k := opening][..n][..n - 1] == events[k := opening][..n - 1];
      SurvivorsReplace(events, k, opening, used, n - 1);
    }
  }

  /** A surviving record keeps its events in order, minus exactly the follow-ups merged into its opening, with the
      opening moved to the deadline in its place, exactly when the message ids tell the follow-ups. */
  lemma RecordLosesExactlyItsFollowUps(r: Record, rules: Rules)
    requires FateOf(r, rules).Moved?
    ensures var k := OpenIndex(r.events, r.id);
            var kept, place := WithoutFollowUps(r, rules, |r.events|), |WithoutFollowUps(r, rules, k)|;
            && place < |kept| && kept[place] == r.events[k]
            && (Rewritten(r, rules).events == kept[place := FateOf(r, rules).opening] <==> IdsTell(r, rules))
            && FateOf(r, rules).opening.timestamp == r.events[k].timestamp + rules.seconds
  {
    hide Merged, Consumed, FollowUps, Symbols.MarketSymbol, OpenIndex, IdsTell;
    var k, n := OpenIndex(r.events, r.id), |r.events|;
    var opening := FateOf(r, rules).opening;
    var kept, left := WithoutFollowUps(r, rules, n), Survivors(r.events, k, Consumed(r, rules));
    assert r.events[..n] == r.events && r.events[k := opening][..n] == r.events[k := opening];
    assert r.events[k := r.events[k]] == r.events;
    OpeningIsKept(r, rules, n);
    SurvivorsReplace(r.events, k, opening, Consumed(r, rules), n);
    SurvivorsReplace(r.events, k, r.events[k], Consumed(r, rules), n);
    if IdsTell(r, rules) {
      SurvivorsAreOthers(r, rules, n);
      SurvivorsAreOthers(r, rules, k);
    }
    var place, i := |WithoutFollowUps(r, rules, k)|, |Survivors(r.events[..k], k, Consumed(r, rules))|;
    if left[i := opening] == kept[place := opening] {
      SamePlaces(left, i, kept, place, opening);
      EqualCountsTell(r, rules);
    }
  }

  lemma EqualCountsTell(r: Record, rules: Rules)
    requires OpenIndex(r.events, r.id) < |r.events|
    requires multiset(Survivors(r.events, OpenIndex(r.events, r.id), Consumed(r, rules)))
          == multiset(WithoutFollowUps(r, rules, |r.events|))
    ensures IdsTell(r, rules)
  {
    hide Consumed, OpenIndex, KeyOf, Survivors, WithoutFollowUps, IsFollowUp;
    forall i | 0 <= i < |r.events| && i != OpenIndex(r.events, r.id)
      ensures IsFollowUp(r, rules, i) <==>
        exists j :: 0 <= j < |r.events| && IsFollowUp(r, rules, j) && r.events[j].messageId == Some(KeyOf(r.events[i]))
    {
      CountsTell(r, rules, i);
      ConsumedExactly(r, rules, KeyOf(r.events[i]));
    }
  }

  lemma SamePlaces<T(!new)>(x: seq<T>, i: nat, y: seq<T>, j: nat, e: T)
    requires i < |x| && j < |y| && x[i] == y[j] && x[i := e] == y[j := e]
    ensures multiset(x) == multiset(y)
  {
    Replaced(x, i, e);
    Replaced(y, j, e);
    forall v
      ensures multiset(x)[v] == multiset(y)[v]
    {
      assert (multiset(x) + multiset{e})[v] == (multiset(y) + multiset{e})[v];
    }
  }

  lemma Replaced<T(!new)>(x: seq<T>, i: nat, e: T)
    requires i < |x|
    ensures multiset(x[i := e]) + multiset{x[i]} == multiset(x) + multiset{e}
  {
    assert x == x[..i] + [x[i]] + x[i + 1..] && x[i := e] == x[..i] + [e] + x[i + 1..];
  }

  lemma {:induction false} OpeningIsKept(r: Record, rules: Rules, n: nat)
    requires OpenIndex(r.events, r.id) < n <= |r.events|
    ensures var kept, place := WithoutFollowUps(r, rules, n), |WithoutFollowUps(r, rules, OpenIndex(r.events, r.id))|;
            place < |kept| && kept[place] == r.events[OpenIndex(r.events, r.id)]
  {
    hide OpenIndex;
    if OpenIndex(r.events, r.id) < n - 1 {
      OpeningIsKept(r, rules, n - 1);
    }
  }

  /** A stop update without a message id: it is merged into the opening and also stays behind. */
  lemma UnmarkedFollowUpStays(d: Draft, rules: Rules)
    requires rules.seconds == 60
    requires var opening := FlowEvent(0, Action.OPEN, Some("s"), None, Some(1), d, false, None);
             var update := FlowEvent(10, Action.UPDATE_SL, Some("s"), Some("s"), None, d, false, None);
             FateOf(Record("s", 1, "", LONG, [opening, update]), rules).Moved?
    ensures var opening := FlowEvent(0, Action.OPEN, Some("s"), None, Some(1), d, false, None);
            var update := FlowEvent(10, Action.UPDATE_SL, Some("s"), Some("s"), None, d, false, None);
            var r := Record("s", 1, "", LONG, [opening, update]);
            && IsFollowUp(r, rules, 1) && !IdsTell(r, rules)
            && Rewritten(r, rules).events == [FateOf(r, rules).opening, update]
  {
    hide FateOf, Consumed, OpenIndex, IsFollowUp, Survivors, IdsTell;
    var opening := FlowEvent(0, Action.OPEN, Some("s"), None, Some(1), d, false, None);
    var update := FlowEvent(10, Action.UPDATE_SL, Some("s"), Some("s"), None, d, false, None);
    var r := Record("s", 1, "", LONG, [opening, update]);
    UnmarkedIsMissed(r, rules, opening, update);
    MovedAtOpening(r, rules);
    KeepsUnmarked(FateOf(r, rules).opening, update, Consumed(r, rules));
    assert [opening, update][0 := FateOf(r, rules).opening] == [FateOf(r, rules).opening, update];
  }

  /** The second event is a follow-up of the first, and its missing id is on no list. */
  lemma UnmarkedIsMissed(r: Record, rules: Rules, opening: FlowEvent, update: FlowEvent)
    requires r.events == [opening, update] && OpensRecord(opening, r.id) && !OpensRecord(update, r.id)
    requires opening.timestamp <= update.timestamp <= opening.timestamp + rules.seconds
    requires Mergeable(update.action) && update.messageId.None?
    ensures OpenIndex(r.events, r.id) == 0 && IsFollowUp(r, rules, 1)
    ensures -1 !in Consumed(r, rules) && !IdsTell(r, rules)
  {
    hide Consumed;
    assert r.events[1] == update;
    ConsumedExactly(r, rules, -1);
    assert KeyOf(r.events[1]) == -1;
    forall j | 0 <= j < |r.events| && IsFollowUp(r, rules, j)
      ensures j == 1
    {
    }
  }

  lemma MovedAtOpening(r: Record, rules: Rules)
    requires FateOf(r, rules).Moved?
    ensures FateOf(r, rules).index == OpenIndex(r.events, r.id)
  {
    hide Execution, Merged, FollowUps, OpenIndex;
  }

  lemma KeepsUnmarked(opening: FlowEvent, update: FlowEvent, used: set<int>)
    requires KeyOf(update) !in used
    ensures Survivors([opening, update], 0, used) == [opening, update]
  {
    hide KeyOf;
    var both := [opening, update];
    assert both[..2] == both && both[..1] == [opening] && both[..0] == [];
    SurvivorsStep(both, 0, used, 2);
    SurvivorsStep(both, 0, used, 1);
    assert Survivors([], 0, used) == [];
  }

  // ---- the two lists together ----

  /** The events a record shares with the global list: those not broadcast to every record. */
  function Plain(events: seq<FlowEvent>): seq<FlowEvent>
  {
    if events == [] then []
    else
      var e := events[|events| - 1];
      Plain(events[..|events| - 1]) + if e.closeAll then [] else [e]
  }

  /** The part of the global list that belongs to a signal, as its record files it. */
  function Owned(events: seq<FlowEvent>, id: string): seq<FlowEvent>
  {
    if events == [] then []
    else
      var e := events[|events| - 1];
      Owned(events[..|events| - 1], id)
      + if !e.closeAll && OwnerOf(e) == id then [e.(signalId := Some(id))] else []
  }

  ghost predicate Together(events: seq<FlowEvent>, r: Record) { Owned(events, r.id) == Plain(r.events) }

  /** A record as it is built: its events carry its id, and its opening is the one event of its own message. */
  ghost predicate WellBuilt(r: Record)
  {
    var k := OpenIndex(r.events, r.id);
    && r.id != "" && (forall e :: e in r.events ==> e.signalId == Some(r.id))
    && (forall j :: 0 <= j < |r.events| ==> (KeyOf(r.events[j]) == r.sourceId <==> j == k))
    && (k < |r.events| ==> !r.events[k].closeAll && OwnerOf(r.events[k]) == r.id)
  }

  ghost predicate WellBuiltAll(records: map<string, Record>)
  {
    forall id :: id in records ==> records[id].id == id && WellBuilt(records[id])
  }

  /** An event made for a signal belongs to it, and only the signal's own message opens it. */
  predicate WellTied(e: FlowEvent, records: map<string, Record>)
  {
    && (Truthy(e.signalId) && e.signalId.value in records ==> OwnerOf(e) == e.signalId.value)
    && (OwnerOf(e) in records ==>
          (KeyOf(e) == records[OwnerOf(e)].sourceId ==> e.signalId == Some(OwnerOf(e)) && !e.closeAll))
  }

  lemma {:induction false} OwnedAppend(a: seq<FlowEvent>, b: seq<FlowEvent>, id: string)
    ensures Owned(a + b, id) == Owned(a, id) + Owned(b, id)
  {
    if b == [] {
      assert a + b == a;
    } else {
      assert (a + b)[..|a + b| - 1] == a + b[..|b| - 1];
      OwnedAppend(a, b[..|b| - 1], id);
    }
  }

  lemma {:induction false} RewriteAppend(a: seq<FlowEvent>, b: seq<FlowEvent>, records: map<string, Record>,
        rules: Rules)
    ensures RewriteGlobal(a + b, records, rules) == RewriteGlobal(a, records, rules) + RewriteGlobal(b, records, rules)
  {
    hide GlobalOf;
    if b == [] {
      assert a + b == a;
    } else {
      assert (a + b)[..|a + b| - 1] == a + b[..|b| - 1];
      RewriteAppend(a, b[..|b| - 1], records, rules);
    }
  }

  lemma {:induction false} PlainAppend(a: seq<FlowEvent>, b: seq<FlowEvent>)
    ensures Plain(a + b) == Plain(a) + Plain(b)
  {
    if b == [] {
      assert a + b == a;
    } else {
      assert (a + b)[..|a + b| - 1] == a + b[..|b| - 1];
      PlainAppend(a, b[..|b| - 1]);
    }
  }

  /** A moved opening is still a plain event of its own signal, and nothing rejected is named in it. */
  lemma OpeningStaysOwn(r: Record, rules: Rules)
    requires WellBuilt(r) && FateOf(r, rules).Moved?
    ensures var e := FateOf(r, rules).opening;
            && e.signalId == Some(r.id) && OwnerOf(e) == r.id && !e.closeAll
            && (Truthy(e.relatedId) ==> e.relatedId.value == r.id)
    ensures r.sourceId !in Consumed(r, rules)
    ensures FateOf(r, rules).index == OpenIndex(r.events, r.id) < |r.events|
    ensures KeyOf(r.events[OpenIndex(r.events, r.id)]) == r.sourceId
  {
    hide Execution, Merged, Consumed, FollowUps, OpenIndex;
    var k := OpenIndex(r.events, r.id);
    assert r.events[k] in r.events;
    ConsumedExactly(r, rules, r.sourceId);
    forall j | 0 <= j < |r.events| && IsFollowUp(r, rules, j)
      ensures r.events[j].messageId != Some(r.sourceId)
    {
      assert j != k && KeyOf(r.events[j]) != r.sourceId;
    }
  }

  /** Rewriting one event and then taking a signal's part is the same as taking its part and rewriting it. */
  lemma OwnedCommutes(e: FlowEvent, records: map<string, Record>, rules: Rules, id: string)
    requires WellBuiltAll(records) && WellTied(e, records) && id in records
    requires !FateOf(records[id], rules).Rejected?
    ensures Owned(GlobalOf(e, records, rules), id) == RewriteGlobal(Owned([e], id), records, rules)
  {
    hide FateOf, Consumed, WellBuilt;
    assert WellBuilt(records[id]) && records[id].id == id && id != "" by { IdsAreNames(records); }
    OwnedOne(e, id);
    var key := SignalKey(e);
    if key in records && FateOf(records[key], rules).Moved? {
      OpeningStaysOwn(records[key], rules);
      OwnedOne(FateOf(records[key], rules).opening, id);
    }
    if !e.closeAll && OwnerOf(e) == id {
      RewriteOne(e.(signalId := Some(id)), records, rules);
      IdsAreNames(records);
    } else {
      assert RewriteGlobal([], records, rules) == [];
      IdsAreNames(records);
    }
  }

  lemma IdsAreNames(records: map<string, Record>)
    requires WellBuiltAll(records)
    ensures forall id :: id in records ==> WellBuilt(records[id]) && records[id].id == id && id != ""
  {
  }

  lemma OwnedOne(e: FlowEvent, id: string)
    ensures Owned([e], id) == if !e.closeAll && OwnerOf(e) == id then [e.(signalId := Some(id))] else []
    ensures Owned([], id) == []
  {
    assert [e][..0] == [];
  }

  lemma RewriteOne(e: FlowEvent, records: map<string, Record>, rules: Rules)
    ensures RewriteGlobal([e], records, rules) == GlobalOf(e, records, rules)
  {
    hide GlobalOf;
    assert [e][..0] == [];
  }

  ghost predicate AllWellTied(events: seq<FlowEvent>, records: map<string, Record>)
  {
    forall e :: e in events ==> WellTied(e, records)
  }

  lemma {:induction false} OwnedOfRewritten(events: seq<FlowEvent>, records: map<string, Record>, rules: Rules,
        id: string)
    requires WellBuiltAll(records) && AllWellTied(events, records) && id in records
    requires !FateOf(records[id], rules).Rejected?
    ensures Owned(RewriteGlobal(events, records, rules), id) == RewriteGlobal(Owned(events, id), records, rules)
  {
    hide GlobalOf, FateOf, WellBuiltAll, WellTied, Owned, RewriteGlobal;
    if events == [] {
      NothingOwned(records, rules, id);
    } else {
      var front, e := events[..|events| - 1], events[|events| - 1];
      assert e in events && front + [e] == events;
      RewriteAppend(front, [e], records, rules);
      RewriteOne(e, records, rules);
      OwnedOfRewritten(front, records, rules, id);
      OwnedCommutes(e, records, rules, id);
      OwnedAppend(RewriteGlobal(front, records, rules), GlobalOf(e, records, rules), id);
      RewriteAppend(Owned(front, id), Owned([e], id), records, rules);
      OwnedAppend(front, [e], id);
    }
  }

  lemma NothingOwned(records: map<string, Record>, rules: Rules, id: string)
    ensures Owned([], id) == [] && RewriteGlobal([], records, rules) == []
  {
  }

  /** What a record keeps of one of its plain events is what the global list keeps of it. */
  lemma PlainEventGlobally(r: Record, records: map<string, Record>, rules: Rules, j: nat)
    requires r.id in records && records[r.id] == r && WellBuiltAll(records) && j < |r.events|
    requires OwnerOf(r.events[j]) == r.id && !FateOf(r, rules).Rejected?
    ensures GlobalOf(r.events[j], records, rules)
         == if FateOf(r, rules).Moved? && j == OpenIndex(r.events, r.id) then [FateOf(r, rules).opening]
            else if KeyOf(r.events[j]) in Consumed(r, rules) then []
            else [r.events[j]]
  {
    hide FateOf, Consumed, OpenIndex;
    IdsAreNames(records);
    assert r.events[j] in r.events;
    if FateOf(r, rules).Moved? { OpeningStaysOwn(r, rules); }
  }

  lemma SurvivorsStep(events: seq<FlowEvent>, k: nat, used: set<int>, n: nat)
    requires 0 < n <= |events|
    ensures Survivors(events[..n], k, used)
         == Survivors(events[..n - 1], k, used)
            + if n - 1 == k || KeyOf(events[n - 1]) !in used then [events[n - 1]] else []
  {
    assert events[..n][..n - 1] == events[..n - 1];
  }

  lemma PlainStep(events: seq<FlowEvent>, n: nat)
    requires 0 < n <= |events|
    ensures Plain(events[..n]) == Plain(events[..n - 1]) + if events[n - 1].closeAll then [] else [events[n - 1]]
  {
    assert events[..n][..n - 1] == events[..n - 1];
  }

  lemma {:induction false} PlainSurvivors(r: Record, records: map<string, Record>, rules: Rules, n: nat)
    requires r.id in records && records[r.id] == r && WellBuiltAll(records) && n <= |r.events|
    requires FateOf(r, rules).Moved?
    requires forall j :: 0 <= j < n && !r.events[j].closeAll ==> OwnerOf(r.events[j]) == r.id
    ensures OpenIndex(r.events, r.id) < |r.events|
    ensures Plain(Survivors(r.events[OpenIndex(r.events, r.id) := FateOf(r, rules).opening][..n],
                            OpenIndex(r.events, r.id), Consumed(r, rules)))
         == RewriteGlobal(Plain(r.events[..n]), records, rules)
  {
    hide FateOf, Consumed, WellBuiltAll, GlobalOf, OpenIndex, KeyOf, Plain, Survivors, RewriteGlobal, OwnerOf;
    assert WellBuilt(r) by { IdsAreNames(records); }
    OpeningStaysOwn(r, rules);
    var k, opening, used := OpenIndex(r.events, r.id), FateOf(r, rules).opening, Consumed(r, rules);
    var moved := r.events[k := opening];
    if n == 0 {
      assert moved[..0] == [] && r.events[..0] == [];
      NothingLeft(k, used, records, rules);
    } else {
      var e := r.events[n - 1];
      PlainSurvivors(r, records, rules, n - 1);
      SurvivorsStep(moved, k, used, n);
      PlainStep(r.events, n);
      var last := if n - 1 == k || KeyOf(moved[n - 1]) !in used then [moved[n - 1]] else [];
      PlainAppend(Survivors(moved[..n - 1], k, used), last);
      PlainOne(moved[n - 1]);
      var plain := if e.closeAll then [] else [e];
      RewriteAppend(Plain(r.events[..n - 1]), plain, records, rules);
      RewriteOne(e, records, rules);
      NothingLeft(k, used, records, rules);
      if !e.closeAll { PlainEventGlobally(r, records, rules, n - 1); }
      assert Plain(last) == RewriteGlobal(plain, records, rules);
    }
  }

  lemma NothingLeft(k: nat, used: set<int>, records: map<string, Record>, rules: Rules)
    ensures Plain(Survivors([], k, used)) == [] && RewriteGlobal(Plain([]), records, rules) == []
    ensures RewriteGlobal([], records, rules) == []
  {
  }

  lemma PlainOne(e: FlowEvent)
    ensures Plain([e]) == (if e.closeAll then [] else [e]) && Plain([]) == []
  {
    assert [e][..0] == [];
  }

  lemma {:induction false} PlainUntouched(r: Record, records: map<string, Record>, rules: Rules, n: nat)
    requires r.id in records && records[r.id] == r && WellBuiltAll(records) && n <= |r.events|
    requires FateOf(r, rules).NoOpen?
    requires forall j :: 0 <= j < n && !r.events[j].closeAll ==> OwnerOf(r.events[j]) == r.id
    ensures Plain(r.events[..n]) == RewriteGlobal(Plain(r.events[..n]), records, rules)
  {
    hide WellBuiltAll, GlobalOf, KeyOf, Execution;
    if n > 0 {
      assert r.events[..n][..n - 1] == r.events[..n - 1];
      PlainUntouched(r, records, rules, n - 1);
      var e := r.events[n - 1];
      RewriteAppend(Plain(r.events[..n - 1]), if e.closeAll then [] else [e], records, rules);
      RewriteOne(e, records, rules);
      if !e.closeAll {
        PlainEventGlobally(r, records, rules, n - 1);
        NothingOpened(r, rules);
      }
    }
  }

  lemma {:induction false} OwnedHasOwner(events: seq<FlowEvent>, id: string, e: FlowEvent)
    requires e in Owned(events, id) && id != ""
    ensures OwnerOf(e) == id
  {
    if events != [] {
      var n := |events| - 1;
      if e in Owned(events[..n], id) { OwnedHasOwner(events[..n], id, e); }
    }
  }

  lemma {:induction false} PlainHas(events: seq<FlowEvent>, j: nat)
    requires j < |events| && !events[j].closeAll
    ensures events[j] in Plain(events)
  {
    var n := |events| - 1;
    if j < n {
      PlainHas(events[..n], j);
    }
  }

  /** If the global list and a surviving record agree before the pass, they agree after it. */
  lemma {:induction false} ListsStayTogether(events: seq<FlowEvent>, records: map<string, Record>, rules: Rules,
        id: string)
    requires WellBuiltAll(records) && AllWellTied(events, records) && id in records
    requires !FateOf(records[id], rules).Rejected? && Together(events, records[id])
    ensures Together(RewriteGlobal(events, records, rules), Rewritten(records[id], rules))
  {
    hide FateOf, Consumed, GlobalOf, KeyOf, OwnerOf, OpenIndex, Symbols.MarketSymbol, AllWellTied;
    var r := records[id];
    IdsAreNames(records);
    hide WellBuiltAll, WellBuilt;
    OwnedOfRewritten(events, records, rules, id);
    forall j | 0 <= j < |r.events| && !r.events[j].closeAll
      ensures OwnerOf(r.events[j]) == r.id
    {
      PlainHas(r.events, j);
      OwnedHasOwner(events, id, r.events[j]);
    }
    var n := |r.events|;
    assert r.events[..n] == r.events;
    if FateOf(r, rules).Moved? {
      OpeningStaysOwn(r, rules);
      var moved := r.events[OpenIndex(r.events, r.id) := FateOf(r, rules).opening];
      PlainSurvivors(r, records, rules, n);
      assert moved[..n] == moved;
    } else {
      PlainUntouched(r, records, rules, n);
    }
  }

  /** No trace of a rejected signal is left in the global list. */
  lemma {:induction false} RejectedVanish(events: seq<FlowEvent>, records: map<string, Record>, rules: Rules,
        e: FlowEvent)
    requires WellBuiltAll(records) && e in RewriteGlobal(events, records, rules)
    ensures !IsRejected(e.signalId, records, rules) && !IsRejected(e.relatedId, records, rules)
  {
    hide FateOf, Consumed, KeyOf, WellBuilt;
    var n := |events| - 1;
    if e in RewriteGlobal(events[..n], records, rules) {
      RejectedVanish(events[..n], records, rules, e);
    } else {
      var key := SignalKey(events[n]);
      IdsAreNames(records);
      if key in records && FateOf(records[key], rules).Moved? {
        OpeningStaysOwn(records[key], rules);
      }
    }
  }
}
