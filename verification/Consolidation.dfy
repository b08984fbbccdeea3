/** The consolidation pass of a backtest: what it makes of one record, and of the global list of events. */
module Consolidation {
  import opened Core
  import opened Market
  import opened Drafts

  datatype FlowEvent = FlowEvent(
    timestamp: int, action: Action, signalId: Option<string>, relatedId: Option<string>, messageId: Option<int>,
    parsed: Draft, closeAll: bool, leverage: Option<Positive>)

  datatype Record = Record(id: string, sourceId: int, symbol: string, side: AnySide, events: seq<FlowEvent>)

  /** The waiting time, and the validator's verdicts on the merged signal. */
  datatype Rules = Rules(seconds: nat, normalize: Draft -> Draft, misplaced: Draft -> bool, openable: Draft -> bool)

  predicate Mergeable(a: Action)
  {
    a in {Action.OPEN, Action.UPDATE_SL, Action.UPDATE_TP, Action.UPDATE_LEVERAGE, Action.UPDATE_ENTRY}
  }

  predicate OpensRecord(e: FlowEvent, id: string)
  {
    e.action.OPEN? && (e.signalId == Some(id) || e.relatedId.None?)
  }

  function OpenIndex(events: seq<FlowEvent>, id: string): (k: nat)
    ensures k <= |events| && (k < |events| ==> OpensRecord(events[k], id))
    ensures forall j :: 0 <= j < k ==> !OpensRecord(events[j], id)
  {
    if events == [] || OpensRecord(events[0], id) then 0 else 1 + OpenIndex(events[1..], id)
  }

  // ---- the follow-ups merged into an opening, in time order ----

  datatype Placed = Placed(index: nat, event: FlowEvent)

  const PLACED_AT: Placed -> real := (p: Placed) => p.event.timestamp as real

  function Placements(events: seq<FlowEvent>): seq<Placed>
  {
    seq(|events|, i requires 0 <= i < |events| => Placed(i, events[i]))
  }

  function InTimeOrder(events: seq<FlowEvent>): seq<Placed> { StableSort(Placements(events), PLACED_AT) }

  predicate Chosen(p: Placed, k: nat, deadline: int)
  {
    p.index != k && p.event.timestamp <= deadline && Mergeable(p.event.action)
  }

  function Pick(ps: seq<Placed>, k: nat, deadline: int): seq<FlowEvent>
  {
    if ps == [] then []
    else
      var p := ps[|ps| - 1];
      Pick(ps[..|ps| - 1], k, deadline) + if Chosen(p, k, deadline) then [p.event] else []
  }

  function Deadline(r: Record, rules: Rules): int
    requires OpenIndex(r.events, r.id) < |r.events|
  {
    r.events[OpenIndex(r.events, r.id)].timestamp + rules.seconds
  }

  function FollowUps(r: Record, rules: Rules): seq<FlowEvent>
  {
    var k := OpenIndex(r.events, r.id);
    if k == |r.events| then [] else Pick(InTimeOrder(r.events), k, Deadline(r, rules))
  }

  lemma {:induction false} PickedExactly(ps: seq<Placed>, k: nat, deadline: int, e: FlowEvent)
    ensures e in Pick(ps, k, deadline) <==> exists p :: p in ps && Chosen(p, k, deadline) && p.event == e
  {
    if ps != [] {
      var n := |ps| - 1;
      PickedExactly(ps[..n], k, deadline, e);
      assert ps == ps[..n] + [ps[n]];
      if p :| p in ps && Chosen(p, k, deadline) && p.event == e {
        assert p in ps[..n] || p == ps[n];
      }
    }
  }

  /** Event j of the record is merged into its opening. */
  predicate IsFollowUp(r: Record, rules: Rules, j: nat)
    requires j < |r.events|
  {
    var k := OpenIndex(r.events, r.id);
    k < |r.events| && Chosen(Placed(j, r.events[j]), k, Deadline(r, rules))
  }

  /** The opening of a record is its first OPEN event that carries its id or is related to nothing; its follow-ups are
      the openings and updates, other than it, up to the end of the waiting time. */
  lemma FollowUpMeans(r: Record, rules: Rules, j: nat)
    requires j < |r.events|
    ensures var opens := (i: nat) => i < |r.events| && r.events[i].action == Action.OPEN
                                     && (r.events[i].signalId == Some(r.id) || r.events[i].relatedId == None);
            IsFollowUp(r, rules, j) <==>
              exists k: nat ::
                && opens(k) && (forall i: nat :: i < k ==> !opens(i)) && j != k
                && r.events[j].timestamp <= r.events[k].timestamp + rules.seconds
                && r.events[j].action !in {Action.CLOSE, Action.CANCEL, Action.IGNORE, Action.UNKNOWN}
  {
    var opens := (i: nat) => i < |r.events| && r.events[i].action == Action.OPEN
                             && (r.events[i].signalId == Some(r.id) || r.events[i].relatedId == None);
    var k := OpenIndex(r.events, r.id);
    assert k < |r.events| ==> opens(k);
    assert forall i: nat :: i < k ==> !opens(i);
  }

  /** The follow-ups are exactly the other mergeable events up to the deadline. */
  lemma FollowUpsExactly(r: Record, rules: Rules, e: FlowEvent)
    requires OpenIndex(r.events, r.id) < |r.events|
    ensures e in FollowUps(r, rules)
        <==> exists j :: 0 <= j < |r.events| && r.events[j] == e
                         && Chosen(Placed(j, r.events[j]), OpenIndex(r.events, r.id), Deadline(r, rules))
  {
    var k, deadline := OpenIndex(r.events, r.id), Deadline(r, rules);
    PickedExactly(InTimeOrder(r.events), k, deadline, e);
    if p :| p in InTimeOrder(r.events) && Chosen(p, k, deadline) && p.event == e {
      StableSortMember(Placements(r.events), PLACED_AT, p);
      assert r.events[p.index] == e;
    }
    if j :| 0 <= j < |r.events| && Chosen(Placed(j, r.events[j]), k, deadline) && r.events[j] == e {
      StableSortMember(Placements(r.events), PLACED_AT, Placed(j, e));
      assert Placements(r.events)[j] == Placed(j, e);
    }
  }

  // ---- the order of the follow-ups ----

  /** Earlier in time, or at the same time and earlier in the record. */
  predicate ComesBefore(p: Placed, q: Placed)
  {
    p.event.timestamp < q.event.timestamp || (p.event.timestamp == q.event.timestamp && p.index < q.index)
  }

  ghost predicate InOrder(ps: seq<Placed>) { forall i, j :: 0 <= i < j < |ps| ==> ComesBefore(ps[i], ps[j]) }

  lemma {:induction false} InsertInOrder(p: Placed, ps: seq<Placed>)
    requires InOrder(ps) && forall q :: q in ps ==> p.index < q.index
    ensures InOrder(Insert(p, ps, PLACED_AT))
  {
    if ps != [] && PLACED_AT(ps[0]) < PLACED_AT(p) {
      var rest := Insert(p, ps[1..], PLACED_AT);
      InsertInOrder(p, ps[1..]);
      InsertKeepsAll(p, ps[1..], PLACED_AT);
      forall i | 0 <= i < |rest|
        ensures ComesBefore(ps[0], rest[i])
      {
        assert rest[i] in multiset(rest);
        assert rest[i] == p || rest[i] in ps[1..];
      }
    } else {
      forall i | 0 <= i < |ps|
        ensures ComesBefore(p, ps[i])
      {
        assert ps[i] in ps;
      }
    }
  }

  lemma {:induction false} SortInOrder(ps: seq<Placed>)
    requires forall i, j :: 0 <= i < j < |ps| ==> ps[i].index < ps[j].index
    ensures InOrder(StableSort(ps, PLACED_AT))
  {
    hide Insert;
    if ps != [] {
      SortInOrder(ps[1..]);
      forall q | q in StableSort(ps[1..], PLACED_AT)
        ensures ps[0].index < q.index
      {
        StableSortMember(ps[1..], PLACED_AT, q);
      }
      InsertInOrder(ps[0], StableSort(ps[1..], PLACED_AT));
    }
  }

  /** The chosen ones, with their places. */
  function PickPlaced(ps: seq<Placed>, k: nat, deadline: int): seq<Placed>
  {
    if ps == [] then []
    else
      var p := ps[|ps| - 1];
      PickPlaced(ps[..|ps| - 1], k, deadline) + if Chosen(p, k, deadline) then [p] else []
  }

  lemma {:induction false} PicksInOrder(ps: seq<Placed>, k: nat, deadline: int)
    requires InOrder(ps)
    ensures var picked := PickPlaced(ps, k, deadline);
            && InOrder(picked) && (forall p :: p in picked <==> p in ps && Chosen(p, k, deadline))
            && |Pick(ps, k, deadline)| == |picked|
            && (forall i :: 0 <= i < |picked| ==> Pick(ps, k, deadline)[i] == picked[i].event)
  {
    hide Chosen, ComesBefore;
    if ps != [] {
      var n := |ps| - 1;
      PicksInOrder(ps[..n], k, deadline);
      assert ps == ps[..n] + [ps[n]];
      forall p | p in ps[..n]
        ensures ComesBefore(p, ps[n])
      {
        var i :| 0 <= i < n && ps[i] == p;
      }
      var front := PickPlaced(ps[..n], k, deadline);
      forall i | 0 <= i < |front|
        ensures ComesBefore(front[i], ps[n])
      {
        assert front[i] in front;
      }
    }
  }

  /** The places of the follow-ups in their record, in the order in which they are merged. */
  function Places(r: Record, rules: Rules): seq<Placed>
    requires OpenIndex(r.events, r.id) < |r.events|
  {
    PickPlaced(InTimeOrder(r.events), OpenIndex(r.events, r.id), Deadline(r, rules))
  }

  /** The follow-ups come in the order of time, those of one time in the order of the record. */
  lemma FollowUpsInOrder(r: Record, rules: Rules)
    requires OpenIndex(r.events, r.id) < |r.events|
    ensures var places, followUps := Places(r, rules), FollowUps(r, rules);
            && |followUps| == |places|
            && (forall i :: 0 <= i < |places| ==> followUps[i] == places[i].event)
            && (forall i, j :: 0 <= i < j < |places| ==> ComesBefore(places[i], places[j]))
            && (forall p :: p in places
                 <==> p.index < |r.events| && p.event == r.events[p.index] && IsFollowUp(r, rules, p.index))
  {
    hide Chosen, ComesBefore, OpenIndex;
    var ps := Placements(r.events);
    SortInOrder(ps);
    PicksInOrder(InTimeOrder(r.events), OpenIndex(r.events, r.id), Deadline(r, rules));
    forall p
      ensures p in InTimeOrder(r.events) <==> p.index < |r.events| && p.event == r.events[p.index]
    {
      StableSortMember(ps, PLACED_AT, p);
      if p.index < |r.events| && p.event == r.events[p.index] { assert ps[p.index] == p; }
    }
  }

  // ---- merging ----

  function Step(current: Draft, update: Draft): Draft { MergeDrafts(current, update).(action := Action.OPEN) }

  function Merged(base: Draft, followUps: seq<FlowEvent>): Draft
  {
    if followUps == [] then base
    else Step(Merged(base, followUps[..|followUps| - 1]), followUps[|followUps| - 1].parsed)
  }

  /** The value comes from the last follow-up that gives one, else from the opening. */
  ghost predicate IsLatest<T(!new)>(value: Option<T>, base: Draft, followUps: seq<FlowEvent>, field: Draft -> Option<T>)
  {
    || ((forall j :: 0 <= j < |followUps| ==> field(followUps[j].parsed).None?) && value == field(base))
    || exists i :: 0 <= i < |followUps| && field(followUps[i].parsed).Some? && value == field(followUps[i].parsed)
                   && forall j :: i < j < |followUps| ==> field(followUps[j].parsed).None?
  }

  /** The value comes from the opening, else from the first follow-up that gives one. */
  ghost predicate IsFirst<T(!new)>(value: Option<T>, base: Draft, followUps: seq<FlowEvent>, field: Draft -> Option<T>)
  {
    if field(base).Some? then value == field(base)
    else
      || ((forall j :: 0 <= j < |followUps| ==> field(followUps[j].parsed).None?) && value.None?)
      || exists i :: 0 <= i < |followUps| && field(followUps[i].parsed).Some? && value == field(followUps[i].parsed)
                     && forall j :: 0 <= j < i ==> field(followUps[j].parsed).None?
  }

  ghost predicate TakesLatest<T(!new)>(base: Draft, followUps: seq<FlowEvent>, field: Draft -> Option<T>, i: nat)
    requires i < |followUps|
  {
    field(Merged(base, followUps[..i + 1]))
      == Latest(field(followUps[i].parsed), field(Merged(base, followUps[..i])))
  }

  ghost predicate TakesFirst<T(!new)>(base: Draft, followUps: seq<FlowEvent>, field: Draft -> Option<T>, i: nat)
    requires i < |followUps|
  {
    field(Merged(base, followUps[..i + 1]))
      == First(field(Merged(base, followUps[..i])), field(followUps[i].parsed))
  }

  lemma LatestExtends<T(!new)>(value: Option<T>, base: Draft, front: seq<FlowEvent>, e: FlowEvent,
                               field: Draft -> Option<T>)
    requires IsLatest(value, base, front, field)
    ensures IsLatest(Latest(field(e.parsed), value), base, front + [e], field)
  {
    var all := front + [e];
    assert all[|front|] == e && forall j :: 0 <= j < |front| ==> all[j] == front[j];
    if field(e.parsed).None? && !(forall j :: 0 <= j < |front| ==> field(front[j].parsed).None?) {
      var i :| 0 <= i < |front| && field(front[i].parsed).Some? && value == field(front[i].parsed)
               && forall j :: i < j < |front| ==> field(front[j].parsed).None?;
      assert field(all[i].parsed).Some? && value == field(all[i].parsed);
    }
  }

  lemma {:induction false} LatestWins<T(!new)>(base: Draft, followUps: seq<FlowEvent>, field: Draft -> Option<T>)
    requires forall i :: 0 <= i < |followUps| ==> TakesLatest(base, followUps, field, i)
    ensures IsLatest(field(Merged(base, followUps)), base, followUps, field)
  {
    hide IsLatest, Merged;
    if followUps == [] {
      NothingGiven(base, field);
      NothingMerged(base);
    } else {
      var n := |followUps| - 1;
      var front := followUps[..n];
      forall i | 0 <= i < n
        ensures TakesLatest(base, front, field, i)
      {
        assert TakesLatest(base, followUps, field, i);
        assert front[..i + 1] == followUps[..i + 1] && front[..i] == followUps[..i];
      }
      LatestWins(base, front, field);
      LatestExtends(field(Merged(base, front)), base, front, followUps[n], field);
      assert TakesLatest(base, followUps, field, n);
      assert front + [followUps[n]] == followUps && followUps[..n + 1] == followUps;
    }
  }

  lemma NothingGiven<T(!new)>(base: Draft, field: Draft -> Option<T>)
    ensures IsLatest(field(base), base, [], field)
  {
  }

  lemma {:induction false} FirstWins<T(!new)>(base: Draft, followUps: seq<FlowEvent>, field: Draft -> Option<T>)
    requires forall i :: 0 <= i < |followUps| ==> TakesFirst(base, followUps, field, i)
    ensures IsFirst(field(Merged(base, followUps)), base, followUps, field)
  {
    hide Merged;
    if followUps == [] {
      NothingMerged(base);
    } else {
      var n := |followUps| - 1;
      var front := followUps[..n];
      forall i | 0 <= i < n
        ensures TakesFirst(base, front, field, i)
      {
        assert TakesFirst(base, followUps, field, i);
        assert front[..i + 1] == followUps[..i + 1] && front[..i] == followUps[..i];
      }
      FirstWins(base, front, field);
      assert TakesFirst(base, followUps, field, n);
      assert followUps[..n + 1] == followUps;
      assert forall j :: 0 <= j < n ==> followUps[j] == front[j];
    }
  }

  lemma NothingMerged(base: Draft)
    ensures Merged(base, []) == base
  {
  }

  lemma MergesOne(base: Draft, followUps: seq<FlowEvent>, i: nat)
    requires i < |followUps|
    ensures Merged(base, followUps[..i + 1]) == Step(Merged(base, followUps[..i]), followUps[i].parsed)
  {
    hide Step;
    assert followUps[..i + 1][..i] == followUps[..i];
  }

  const STOP_LOSS: Draft -> Option<real> := (d: Draft) => d.stopLoss
  const LEVERAGE: Draft -> Option<Positive> := (d: Draft) => d.leverage
  const TARGETS: Draft -> Option<seq<real>> := (d: Draft) => if d.takeProfits == [] then None else Some(d.takeProfits)
  const ENTRY_TYPE: Draft -> Option<EntryType> :=
    (d: Draft) => if d.entryType.UNKNOWN_ENTRY? then None else Some(d.entryType)
  const SIDE: Draft -> Option<AnySide> := (d: Draft) => if d.side.UNKNOWN_SIDE? then None else Some(d.side)
  const MARKET_TYPE: Draft -> Option<MarketType> :=
    (d: Draft) => if d.market.UNKNOWN_MARKET? then None else Some(d.market)
  const SYMBOL: Draft -> Option<string> := (d: Draft) => d.symbol

  /** Stop, targets, leverage and entry type come from the latest provider. */
  lemma {:induction false} LatestProviderWins(base: Draft, followUps: seq<FlowEvent>)
    ensures IsLatest(STOP_LOSS(Merged(base, followUps)), base, followUps, STOP_LOSS)
    ensures IsLatest(LEVERAGE(Merged(base, followUps)), base, followUps, LEVERAGE)
    ensures IsLatest(TARGETS(Merged(base, followUps)), base, followUps, TARGETS)
    ensures IsLatest(ENTRY_TYPE(Merged(base, followUps)), base, followUps, ENTRY_TYPE)
  {
    hide IsLatest, Merged, Step, STOP_LOSS, LEVERAGE, TARGETS, ENTRY_TYPE;
    forall i | 0 <= i < |followUps|
      ensures TakesLatest(base, followUps, STOP_LOSS, i) && TakesLatest(base, followUps, LEVERAGE, i)
      ensures TakesLatest(base, followUps, TARGETS, i) && TakesLatest(base, followUps, ENTRY_TYPE, i)
    {
      MergesOne(base, followUps, i);
      StepFields(Merged(base, followUps[..i]), followUps[i].parsed);
    }
    LatestWins(base, followUps, STOP_LOSS);
    LatestWins(base, followUps, LEVERAGE);
    LatestWins(base, followUps, TARGETS);
    LatestWins(base, followUps, ENTRY_TYPE);
  }

  /** Follow-up j gives the field a value, and none that gives one comes after it. */
  ghost predicate GivesLast<T(!new)>(r: Record, rules: Rules, field: Draft -> Option<T>, j: nat)
    requires j < |r.events|
  {
    && IsFollowUp(r, rules, j) && field(r.events[j].parsed).Some?
    && forall i :: 0 <= i < |r.events| && i != j && IsFollowUp(r, rules, i) && field(r.events[i].parsed).Some? ==>
         ComesBefore(Placed(i, r.events[i]), Placed(j, r.events[j]))
  }

  /** The value comes from the follow-up that is latest in time and record among those that give one, else from the
      opening. */
  ghost predicate IsLatestInTime<T(!new)>(value: Option<T>, r: Record, rules: Rules, field: Draft -> Option<T>)
    requires OpenIndex(r.events, r.id) < |r.events|
  {
    if exists i :: 0 <= i < |r.events| && IsFollowUp(r, rules, i) && field(r.events[i].parsed).Some? then
      exists j :: 0 <= j < |r.events| && GivesLast(r, rules, field, j) && value == field(r.events[j].parsed)
    else value == field(r.events[OpenIndex(r.events, r.id)].parsed)
  }

  lemma PlaceOf(r: Record, rules: Rules, i: nat) returns (a: nat)
    requires OpenIndex(r.events, r.id) < |r.events| && i < |r.events| && IsFollowUp(r, rules, i)
    ensures a < |Places(r, rules)| == |FollowUps(r, rules)|
    ensures Places(r, rules)[a] == Placed(i, r.events[i]) && FollowUps(r, rules)[a] == r.events[i]
  {
    hide Chosen, ComesBefore, OpenIndex, FollowUps, Places, IsFollowUp;
    FollowUpsInOrder(r, rules);
    assert Placed(i, r.events[i]) in Places(r, rules);
    a :| 0 <= a < |Places(r, rules)| && Places(r, rules)[a] == Placed(i, r.events[i]);
  }

  lemma LastGiven<T(!new)>(r: Record, rules: Rules, field: Draft -> Option<T>, a: nat)
    requires OpenIndex(r.events, r.id) < |r.events| && a < |FollowUps(r, rules)|
    requires field(FollowUps(r, rules)[a].parsed).Some?
    requires forall b :: a < b < |FollowUps(r, rules)| ==> field(FollowUps(r, rules)[b].parsed).None?
    ensures a < |Places(r, rules)| && Places(r, rules)[a].index < |r.events|
    ensures GivesLast(r, rules, field, Places(r, rules)[a].index)
    ensures FollowUps(r, rules)[a] == r.events[Places(r, rules)[a].index]
  {
    hide Chosen, ComesBefore, OpenIndex, FollowUps, Places, IsFollowUp;
    FollowUpsInOrder(r, rules);
    var j := Places(r, rules)[a].index;
    assert Places(r, rules)[a] in Places(r, rules);
    forall i | 0 <= i < |r.events| && i != j && IsFollowUp(r, rules, i) && field(r.events[i].parsed).Some?
      ensures ComesBefore(Placed(i, r.events[i]), Placed(j, r.events[j]))
    {
      var b := PlaceOf(r, rules, i);
      assert b < a;
    }
  }

  lemma LatestIsInTime<T(!new)>(value: Option<T>, r: Record, rules: Rules, field: Draft -> Option<T>)
    requires OpenIndex(r.events, r.id) < |r.events|
    requires IsLatest(value, r.events[OpenIndex(r.events, r.id)].parsed, FollowUps(r, rules), field)
    ensures IsLatestInTime(value, r, rules, field)
  {
    hide Chosen, ComesBefore, OpenIndex, FollowUps, Places, IsFollowUp, GivesLast;
    var followUps := FollowUps(r, rules);
    if i :| 0 <= i < |r.events| && IsFollowUp(r, rules, i) && field(r.events[i].parsed).Some? {
      var b := PlaceOf(r, rules, i);
      var a :| 0 <= a < |followUps| && field(followUps[a].parsed).Some? && value == field(followUps[a].parsed)
               && forall c :: a < c < |followUps| ==> field(followUps[c].parsed).None?;
      LastGiven(r, rules, field, a);
    } else {
      forall a | 0 <= a < |followUps|
        ensures field(followUps[a].parsed).None?
      {
        FollowUpsInOrder(r, rules);
        assert Places(r, rules)[a] in Places(r, rules);
      }
    }
  }

  /** Over a record, the stop, the targets, the leverage and the entry type of the merged opening come from the latest
      follow-up in time that gives one. */
  lemma LatestInTimeWins(r: Record, rules: Rules)
    requires OpenIndex(r.events, r.id) < |r.events|
    ensures var merged := Merged(r.events[OpenIndex(r.events, r.id)].parsed, FollowUps(r, rules));
            && IsLatestInTime(STOP_LOSS(merged), r, rules, STOP_LOSS)
            && IsLatestInTime(LEVERAGE(merged), r, rules, LEVERAGE)
            && IsLatestInTime(TARGETS(merged), r, rules, TARGETS)
            && IsLatestInTime(ENTRY_TYPE(merged), r, rules, ENTRY_TYPE)
  {
    hide IsLatest, IsLatestInTime, Merged, FollowUps, OpenIndex, STOP_LOSS, LEVERAGE, TARGETS, ENTRY_TYPE;
    var base, followUps := r.events[OpenIndex(r.events, r.id)].parsed, FollowUps(r, rules);
    LatestProviderWins(base, followUps);
    LatestIsInTime(STOP_LOSS(Merged(base, followUps)), r, rules, STOP_LOSS);
    LatestIsInTime(LEVERAGE(Merged(base, followUps)), r, rules, LEVERAGE);
    LatestIsInTime(TARGETS(Merged(base, followUps)), r, rules, TARGETS);
    LatestIsInTime(ENTRY_TYPE(Merged(base, followUps)), r, rules, ENTRY_TYPE);
  }

  lemma StepFields(c: Draft, u: Draft)
    ensures STOP_LOSS(Step(c, u)) == Latest(STOP_LOSS(u), STOP_LOSS(c))
    ensures LEVERAGE(Step(c, u)) == Latest(LEVERAGE(u), LEVERAGE(c))
    ensures TARGETS(Step(c, u)) == Latest(TARGETS(u), TARGETS(c))
    ensures ENTRY_TYPE(Step(c, u)) == Latest(ENTRY_TYPE(u), ENTRY_TYPE(c))
    ensures SIDE(Step(c, u)) == First(SIDE(c), SIDE(u))
    ensures MARKET_TYPE(Step(c, u)) == First(MARKET_TYPE(c), MARKET_TYPE(u))
    ensures SYMBOL(Step(c, u)) == Normalized(First(SYMBOL(c), SYMBOL(u)))
  {
    hide Normalized;
  }

  /** A symbol that building a signal leaves alone. */
  predicate Settles(symbol: Option<string>) { Normalized(symbol) == symbol }

  /** Side and market come from the first provider; so does the symbol, as long as building a signal again
      leaves the symbols alone, which it does not for every string. */
  lemma {:induction false} FirstProviderWins(base: Draft, followUps: seq<FlowEvent>)
    ensures IsFirst(SIDE(Merged(base, followUps)), base, followUps, SIDE)
    ensures IsFirst(MARKET_TYPE(Merged(base, followUps)), base, followUps, MARKET_TYPE)
    ensures Settles(base.symbol) && (forall e :: e in followUps ==> Settles(e.parsed.symbol))
        ==> IsFirst(SYMBOL(Merged(base, followUps)), base, followUps, SYMBOL)
  {
    hide Normalized, IsFirst, Merged, Step, SIDE, MARKET_TYPE;
    forall i | 0 <= i < |followUps|
      ensures TakesFirst(base, followUps, SIDE, i) && TakesFirst(base, followUps, MARKET_TYPE, i)
    {
      MergesOne(base, followUps, i);
      StepFields(Merged(base, followUps[..i]), followUps[i].parsed);
    }
    FirstWins(base, followUps, SIDE);
    FirstWins(base, followUps, MARKET_TYPE);
    if Settles(base.symbol) && (forall e :: e in followUps ==> Settles(e.parsed.symbol)) {
      forall i | 0 <= i < |followUps|
        ensures TakesFirst(base, followUps, SYMBOL, i)
      {
        SymbolStaysSettled(base, followUps, i);
        MergesOne(base, followUps, i);
        StepFields(Merged(base, followUps[..i]), followUps[i].parsed);
        assert followUps[i] in followUps;
      }
      FirstWins(base, followUps, SYMBOL);
    }
  }

  lemma {:induction false} SymbolStaysSettled(base: Draft, followUps: seq<FlowEvent>, i: nat)
    requires i <= |followUps| && Settles(base.symbol) && forall e :: e in followUps ==> Settles(e.parsed.symbol)
    ensures Settles(Merged(base, followUps[..i]).symbol)
  {
    hide Normalized, Merged;
    if i == 0 {
      NothingMerged(base);
    } else {
      SymbolStaysSettled(base, followUps, i - 1);
      MergesOne(base, followUps, i - 1);
      assert followUps[i - 1] in followUps;
    }
  }

  predicate Crossed(low: Option<real>, high: Option<real>) { low.Some? && high.Some? && high.value < low.value }

  /** Each entry bound comes from the latest provider exactly when the two bounds so chosen do not cross. */
  lemma BoundsLatestExactly(current: Draft, update: Draft)
    ensures var low, high := Latest(update.entryLow, current.entryLow), Latest(update.entryHigh, current.entryHigh);
            var merged := Step(current, update);
            && (merged.entryLow == low && merged.entryHigh == high <==> !Crossed(low, high))
            && (Crossed(low, high) ==> merged.entryLow == high && merged.entryHigh == low)
  {
    hide Normalized;
  }

  const ENTRY_LOW: Draft -> Option<real> := (d: Draft) => d.entryLow
  const ENTRY_HIGH: Draft -> Option<real> := (d: Draft) => d.entryHigh

  /** Merge i would leave the low bound above the high one, and swaps them. */
  ghost predicate CrossesAt(base: Draft, followUps: seq<FlowEvent>, i: nat)
    requires i < |followUps|
  {
    var current, update := Merged(base, followUps[..i]), followUps[i].parsed;
    Crossed(Latest(update.entryLow, current.entryLow), Latest(update.entryHigh, current.entryHigh))
  }

  /** Nothing after follow-up i gives the field a value. */
  ghost predicate SilentAfter<T>(followUps: seq<FlowEvent>, i: nat, field: Draft -> Option<T>)
  {
    forall j :: i < j < |followUps| ==> field(followUps[j].parsed).None?
  }

  /** No merge crosses the bounds from the field's latest provider on. */
  ghost predicate UncrossedSince<T>(base: Draft, followUps: seq<FlowEvent>, field: Draft -> Option<T>)
  {
    forall i :: 0 <= i < |followUps| && SilentAfter(followUps, i, field) ==> !CrossesAt(base, followUps, i)
  }

  /** The value of the latest provider. */
  function Given<T>(base: Draft, followUps: seq<FlowEvent>, field: Draft -> Option<T>): Option<T>
  {
    if followUps == [] then field(base)
    else
      var n := |followUps| - 1;
      Latest(field(followUps[n].parsed), Given(base, followUps[..n], field))
  }

  lemma {:induction false} GivenIsLatest<T(!new)>(base: Draft, followUps: seq<FlowEvent>, field: Draft -> Option<T>)
    ensures IsLatest(Given(base, followUps, field), base, followUps, field)
  {
    hide IsLatest;
    if followUps == [] {
      NothingGiven(base, field);
    } else {
      var n := |followUps| - 1;
      GivenIsLatest(base, followUps[..n], field);
      LatestExtends(Given(base, followUps[..n], field), base, followUps[..n], followUps[n], field);
      assert followUps[..n] + [followUps[n]] == followUps;
    }
  }

  lemma LatestIsUnique<T(!new)>(a: Option<T>, b: Option<T>, base: Draft, followUps: seq<FlowEvent>,
                                field: Draft -> Option<T>)
    requires IsLatest(a, base, followUps, field) && IsLatest(b, base, followUps, field)
    ensures a == b
  {
  }

  lemma CrossesInFront(base: Draft, followUps: seq<FlowEvent>, n: nat, i: nat)
    requires i < n <= |followUps|
    ensures CrossesAt(base, followUps[..n], i) <==> CrossesAt(base, followUps, i)
  {
    assert followUps[..n][..i] == followUps[..i] && followUps[..n][i] == followUps[i];
  }

  /** One more follow-up: its merge must not cross, and unless it gives the field none may have since before. */
  lemma UncrossedStep<T(!new)>(base: Draft, followUps: seq<FlowEvent>, field: Draft -> Option<T>)
    requires followUps != []
    ensures var n := |followUps| - 1;
            UncrossedSince(base, followUps, field) <==>
              !CrossesAt(base, followUps, n) &&
              (field(followUps[n].parsed).Some? || UncrossedSince(base, followUps[..n], field))
  {
    hide CrossesAt;
    var n := |followUps| - 1;
    var front := followUps[..n];
    assert SilentAfter(followUps, n, field);
    forall i | 0 <= i < n
      ensures CrossesAt(base, front, i) <==> CrossesAt(base, followUps, i)
      ensures SilentAfter(followUps, i, field)
        <==> SilentAfter(front, i, field) && field(followUps[n].parsed).None?
    {
      CrossesInFront(base, followUps, n, i);
      assert forall j :: i < j < n ==> front[j] == followUps[j];
    }
  }

  /** Either the bound is the latest one given, or it lies strictly outside it. */
  ghost predicate LowAtMost(low: Option<real>, given: Option<real>, uncrossed: bool)
  {
    if uncrossed then low == given else low.Some? && given.Some? && low.value < given.value
  }

  ghost predicate HighAtLeast(high: Option<real>, given: Option<real>, uncrossed: bool)
  {
    if uncrossed then high == given else high.Some? && given.Some? && given.value < high.value
  }

  /** After a crossing the low bound lies strictly below the latest one given and the high bound strictly above;
      further crossings only widen the gap. */
  lemma {:induction false} CrossingsWiden(base: Draft, followUps: seq<FlowEvent>)
    ensures LowAtMost(Merged(base, followUps).entryLow, Given(base, followUps, ENTRY_LOW),
                      UncrossedSince(base, followUps, ENTRY_LOW))
    ensures HighAtLeast(Merged(base, followUps).entryHigh, Given(base, followUps, ENTRY_HIGH),
                        UncrossedSince(base, followUps, ENTRY_HIGH))
  {
    hide Merged, Step, UncrossedSince;
    if followUps == [] {
      NothingMerged(base);
      NothingToCross(base);
    } else {
      var n := |followUps| - 1;
      assert followUps[..n + 1] == followUps;
      CrossingsWiden(base, followUps[..n]);
      MergesOne(base, followUps, n);
      BoundsLatestExactly(Merged(base, followUps[..n]), followUps[n].parsed);
      UncrossedStep(base, followUps, ENTRY_LOW);
      UncrossedStep(base, followUps, ENTRY_HIGH);
    }
  }

  lemma NothingToCross(base: Draft)
    ensures UncrossedSince(base, [], ENTRY_LOW) && UncrossedSince(base, [], ENTRY_HIGH)
  {
  }

  /** Over the whole fold an entry bound comes from its latest provider if and only if no merge from that provider
      on crosses the bounds. */
  lemma BoundsLatestOverFoldExactly(base: Draft, followUps: seq<FlowEvent>)
    ensures IsLatest(ENTRY_LOW(Merged(base, followUps)), base, followUps, ENTRY_LOW)
        <==> UncrossedSince(base, followUps, ENTRY_LOW)
    ensures IsLatest(ENTRY_HIGH(Merged(base, followUps)), base, followUps, ENTRY_HIGH)
        <==> UncrossedSince(base, followUps, ENTRY_HIGH)
  {
    hide IsLatest, Merged, UncrossedSince;
    var merged := Merged(base, followUps);
    CrossingsWiden(base, followUps);
    GivenIsLatest(base, followUps, ENTRY_LOW);
    GivenIsLatest(base, followUps, ENTRY_HIGH);
    if IsLatest(ENTRY_LOW(merged), base, followUps, ENTRY_LOW) {
      LatestIsUnique(ENTRY_LOW(merged), Given(base, followUps, ENTRY_LOW), base, followUps, ENTRY_LOW);
    }
    if IsLatest(ENTRY_HIGH(merged), base, followUps, ENTRY_HIGH) {
      LatestIsUnique(ENTRY_HIGH(merged), Given(base, followUps, ENTRY_HIGH), base, followUps, ENTRY_HIGH);
    }
  }

  /** No merge of the fold crosses the two entry bounds. */
  ghost predicate NeverCrosses(base: Draft, followUps: seq<FlowEvent>)
  {
    forall i :: 0 <= i < |followUps| ==> !CrossesAt(base, followUps, i)
  }

  /** In particular both come from their latest providers when no merge crosses them. */
  lemma BoundsLatestOverFold(base: Draft, followUps: seq<FlowEvent>)
    requires NeverCrosses(base, followUps)
    ensures IsLatest(ENTRY_LOW(Merged(base, followUps)), base, followUps, ENTRY_LOW)
    ensures IsLatest(ENTRY_HIGH(Merged(base, followUps)), base, followUps, ENTRY_HIGH)
  {
    hide IsLatest, Merged, CrossesAt;
    BoundsLatestOverFoldExactly(base, followUps);
  }

  /** The merged signal is an opening, tied to its first message, and as confident as the most confident part. */
  lemma {:induction false} MergedIsOpening(base: Draft, followUps: seq<FlowEvent>)
    ensures followUps != [] ==> Merged(base, followUps).action == Action.OPEN
    ensures Merged(base, followUps).messageId == base.messageId
    ensures base.confidence <= Merged(base, followUps).confidence
    ensures forall e :: e in followUps ==> e.parsed.confidence <= Merged(base, followUps).confidence
    ensures Merged(base, followUps).confidence == base.confidence
         || exists e :: e in followUps && e.parsed.confidence == Merged(base, followUps).confidence
  {
    hide Normalized;
    if followUps != [] {
      var n := |followUps| - 1;
      MergedIsOpening(base, followUps[..n]);
      assert followUps == followUps[..n] + [followUps[n]];
    }
  }
}
