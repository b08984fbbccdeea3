/** The consolidation pass as it runs: records, counters and the global list are rewritten in place. */
module Consolidator {
  import opened Core
  import opened Market
  import opened Drafts
  import opened Consolidation
  import opened RecordLists
  import Symbols

  type Key = (string, int)

  /** The pairs say which messages of the given records were used up. */
  ghost predicate Marks(consumed: set<Key>, ids: seq<string>, records: map<string, Record>, rules: Rules)
    requires forall id :: id in ids ==> id in records
  {
    forall id, n :: (id, n) in consumed <==> id in ids && n in Consumed(records[id], rules)
  }

  /** Each moved opening is filed under its signal and its message. */
  ghost predicate Files(openings: map<Key, FlowEvent>, ids: seq<string>, records: map<string, Record>, rules: Rules)
    requires forall id :: id in ids ==> id in records
  {
    forall id, n ::
      && ((id, n) in openings <==> id in ids && FateOf(records[id], rules).Moved? && n == records[id].sourceId)
      && ((id, n) in openings ==> openings[(id, n)] == FateOf(records[id], rules).opening)
  }

  function RejectedIds(records: map<string, Record>, rules: Rules): set<string>
  {
    set id | id in records && FateOf(records[id], rules).Rejected?
  }

  function Paired(id: string, messages: set<int>): set<Key> { set n | n in messages :: (id, n) }

  lemma MessagesOneMore(events: seq<FlowEvent>, e: FlowEvent)
    ensures MessagesOf(events + [e])
         == MessagesOf(events) + if e.messageId.Some? then {e.messageId.value} else {}
  {
    assert forall f :: f in events + [e] <==> f in events || f == e;
  }

  lemma PairedOneMore(id: string, messages: set<int>, n: int)
    ensures Paired(id, messages + {n}) == Paired(id, messages) + {(id, n)}
  {
  }

  lemma PickOneMore(ps: seq<Placed>, i: nat, k: nat, deadline: int)
    requires i < |ps|
    ensures Pick(ps[..i + 1], k, deadline)
         == Pick(ps[..i], k, deadline) + if Chosen(ps[i], k, deadline) then [ps[i].event] else []
  {
    assert ps[..i + 1][..i] == ps[..i];
  }

  lemma MergedOneMore(base: Draft, followUps: seq<FlowEvent>, e: FlowEvent)
    ensures Merged(base, followUps + [e]) == Step(Merged(base, followUps), e.parsed)
  {
    hide Step;
    assert (followUps + [e])[..|followUps|] == followUps;
  }

  /** Merges every other mergeable event up to the deadline, in time order, and notes their messages. */
  method MergeFollowUps(r: Record, k: nat, deadline: int, known: set<Key>) returns (merged: Draft, consumed: set<Key>)
    requires k < |r.events|
    ensures var followUps := Pick(InTimeOrder(r.events), k, deadline);
            && merged == Merged(r.events[k].parsed, followUps)
            && consumed == known + Paired(r.id, MessagesOf(followUps))
  {
    hide Merged, Step, MessagesOf, Paired, InTimeOrder, Pick;
    var ordered := InTimeOrder(r.events);
    merged, consumed := r.events[k].parsed, known;
    NothingPicked(r.events[k].parsed, k, deadline, r.id);
    for i := 0 to |ordered|
      invariant merged == Merged(r.events[k].parsed, Pick(ordered[..i], k, deadline))
      invariant consumed == known + Paired(r.id, MessagesOf(Pick(ordered[..i], k, deadline)))
    {
      var followUp := ordered[i];
      ghost var picked := Pick(ordered[..i], k, deadline);
      PickOneMore(ordered, i, k, deadline);
      if followUp.index == k || followUp.event.timestamp > deadline || !Mergeable(followUp.event.action) {
        assert picked + [] == picked;
        continue;
      }
      MergedOneMore(r.events[k].parsed, picked, followUp.event);
      MessagesOneMore(picked, followUp.event);
      merged := StepOnce(merged, followUp.event.parsed);
      if followUp.event.messageId.Some? {
        PairedOneMore(r.id, MessagesOf(picked), followUp.event.messageId.value);
        consumed := consumed + {(r.id, followUp.event.messageId.value)};
      } else {
        assert MessagesOf(picked) + {} == MessagesOf(picked);
      }
    }
    assert ordered[..|ordered|] == ordered;
  }

  method StepOnce(current: Draft, update: Draft) returns (merged: Draft)
    ensures merged == Step(current, update)
  {
    hide MergeDrafts;
    merged := MergeDrafts(current, update);
    merged := merged.(action := Action.OPEN);
  }

  lemma NothingPicked(base: Draft, k: nat, deadline: int, id: string)
    ensures Pick([], k, deadline) == [] && Merged(base, []) == base && Paired(id, MessagesOf([])) == {}
  {
  }

  /** Keeps the opening and every event whose message was not used up. */
  method DropConsumed(r: Record, opening: FlowEvent, k: nat, consumed: set<Key>, ghost used: set<int>)
    returns (kept: seq<FlowEvent>)
    requires k < |r.events| && forall n :: (r.id, n) in consumed <==> n in used
    ensures kept == Survivors(r.events[k := opening], k, used)
  {
    hide KeyOf;
    var events := r.events[k := opening];
    kept := [];
    for j := 0 to |events|
      invariant kept == Survivors(events[..j], k, used)
    {
      SurvivorsStep(events, k, used, j + 1);
      if j == k || (r.id, KeyOf(events[j])) !in consumed {
        kept := kept + [events[j]];
      }
    }
    assert events[..|events|] == events;
  }

  lemma NothingUsed(r: Record, rules: Rules)
    requires OpenIndex(r.events, r.id) == |r.events|
    ensures Consumed(r, rules) == {} && forall known: set<Key> :: known + Paired(r.id, {}) == known
  {
  }

  lemma MarksOneMore(consumed: set<Key>, ids: seq<string>, i: nat, records: map<string, Record>, rules: Rules)
    requires i < |ids| && forall id :: id in ids ==> id in records
    requires Marks(consumed, ids[..i], records, rules)
    ensures Marks(consumed + Paired(ids[i], Consumed(records[ids[i]], rules)), ids[..i + 1], records, rules)
  {
    hide Consumed;
    assert ids[..i + 1] == ids[..i] + [ids[i]];
  }

  lemma FilesOneMore(openings: map<Key, FlowEvent>, ids: seq<string>, i: nat, records: map<string, Record>,
        rules: Rules)
    requires i < |ids| && (forall id :: id in ids ==> id in records) && ids[i] !in ids[..i]
    requires Files(openings, ids[..i], records, rules)
    ensures var r := records[ids[i]];
            Files(if FateOf(r, rules).Moved? then openings[(ids[i], r.sourceId) := FateOf(r, rules).opening]
                  else openings,
                  ids[..i + 1], records, rules)
  {
    hide FateOf;
    assert ids[..i + 1] == ids[..i] + [ids[i]];
  }

  /** One record: its fate, what it becomes, and the messages used up, even by a record that is then rejected. */
  method ConsolidateRecord(r: Record, rules: Rules, known: set<Key>)
    returns (fate: Fate, record: Record, consumed: set<Key>)
    requires forall n :: (r.id, n) !in known
    ensures fate == FateOf(r, rules) && record == Rewritten(r, rules)
    ensures consumed == known + Paired(r.id, Consumed(r, rules))
  {
    hide Merged, Survivors, KeyOf, InTimeOrder, Pick, MessagesOf, Symbols.MarketSymbol;
    var k := OpenIndex(r.events, r.id);
    if k == |r.events| {
      NothingUsed(r, rules);
      return NoOpen, r, known;
    }
    var opening := r.events[k];
    var deadline := opening.timestamp + rules.seconds;
    var merged;
    merged, consumed := MergeFollowUps(r, k, deadline, known);
    var normalized := rules.normalize(merged.(action := Action.OPEN));
    if rules.misplaced(merged.(action := Action.OPEN)) || !rules.openable(normalized) {
      return Rejected, r, consumed;
    }
    var moved := opening.(timestamp := deadline, parsed := normalized, leverage := normalized.leverage);
    var kept := DropConsumed(r, moved, k, consumed, Consumed(r, rules));
    var symbol := if normalized.symbol.Some? then Symbols.MarketSymbol(normalized.symbol.value) else None;
    fate := Moved(k, moved);
    record := r.(events := kept, symbol := if symbol.Some? then symbol.value else r.symbol, side := normalized.side);
  }

  /** Drops what was merged or rejected from the global list, and puts the moved openings in place. */
  method RewriteEvents(events: seq<FlowEvent>, rejected: set<string>, consumed: set<Key>,
                       openings: map<Key, FlowEvent>, ghost ids: seq<string>, ghost records: map<string, Record>,
                       ghost rules: Rules) returns (updated: seq<FlowEvent>)
    requires forall id :: id in ids <==> id in records
    requires rejected == RejectedIds(records, rules)
    requires Marks(consumed, ids, records, rules) && Files(openings, ids, records, rules)
    ensures updated == RewriteGlobal(events, records, rules)
  {
    hide FateOf, Consumed, KeyOf;
    updated := [];
    for i := 0 to |events|
      invariant updated == RewriteGlobal(events[..i], records, rules)
    {
      var event := events[i];
      assert events[..i + 1][..i] == events[..i];
      if (event.signalId.Some? && event.signalId.value in rejected)
         || (event.relatedId.Some? && event.relatedId.value in rejected) {
        continue;
      }
      if (OwnerOf(event), KeyOf(event)) in consumed {
        continue;
      }
      var key := (SignalKey(event), KeyOf(event));
      updated := updated + [if key in openings then openings[key] else event];
    }
    assert events[..|events|] == events;
  }

  /** Where the pass over the records stands once the given ones are done. */
  ghost predicate Swept(was: map<string, Record>, records: map<string, Record>, done: seq<string>,
                        rejected: set<string>, rules: Rules)
  {
    && records.Keys == was.Keys
    && (forall id :: id in was ==> records[id] == if id in done then Rewritten(was[id], rules) else was[id])
    && (forall id :: id in rejected <==> id in done && id in was && FateOf(was[id], rules).Rejected?)
  }

  lemma NothingMarked(was: map<string, Record>, rules: Rules)
    ensures Marks({}, [], was, rules) && Files(map[], [], was, rules) && Swept(was, was, [], {}, rules)
  {
  }

  lemma NotYetMarked(consumed: set<Key>, ids: seq<string>, records: map<string, Record>, rules: Rules, id: string)
    requires forall id :: id in ids ==> id in records
    requires Marks(consumed, ids, records, rules) && id !in ids
    ensures forall n :: (id, n) !in consumed
  {
  }

  lemma SweepsOne(was: map<string, Record>, records: map<string, Record>, ids: seq<string>, i: nat,
                  rejected: set<string>, rules: Rules)
    requires i < |ids| && ids[i] in was && ids[i] !in ids[..i]
    requires Swept(was, records, ids[..i], rejected, rules)
    ensures records.Keys == was.Keys && records[ids[i]] == was[ids[i]]
    ensures Swept(was, records[ids[i] := Rewritten(was[ids[i]], rules)], ids[..i + 1],
                  if FateOf(was[ids[i]], rules).Rejected? then rejected + {ids[i]} else rejected, rules)
  {
    hide FateOf, Rewritten;
    assert ids[..i + 1] == ids[..i] + [ids[i]];
  }

  lemma SweptAll(was: map<string, Record>, records: map<string, Record>, ids: seq<string>, rejected: set<string>,
                 rules: Rules)
    requires Swept(was, records, ids, rejected, rules) && forall id :: id in was <==> id in ids
    ensures rejected == RejectedIds(was, rules)
    ensures records - rejected == map id | id in was && !FateOf(was[id], rules).Rejected? :: Rewritten(was[id], rules)
    ensures rejected == {} ==> records - rejected == records
  {
    hide FateOf, Rewritten;
  }

  lemma RewritingKeepsNames(r: Record, rules: Rules)
    ensures Rewritten(r, rules).id == r.id && Rewritten(r, rules).sourceId == r.sourceId
  {
    hide FateOf, Survivors, Consumed, Symbols.MarketSymbol;
  }

  function WithoutIds(ids: seq<string>, gone: set<string>): seq<string>
  {
    if ids == [] then []
    else (if ids[0] in gone then [] else [ids[0]]) + WithoutIds(ids[1..], gone)
  }

  lemma {:induction false} WithoutIdsExactly(ids: seq<string>, gone: set<string>)
    requires forall i, j :: 0 <= i < j < |ids| ==> ids[i] != ids[j]
    ensures forall id :: id in WithoutIds(ids, gone) <==> id in ids && id !in gone
    ensures forall i, j :: 0 <= i < j < |WithoutIds(ids, gone)| ==> WithoutIds(ids, gone)[i] != WithoutIds(ids, gone)[j]
    ensures gone == {} ==> WithoutIds(ids, gone) == ids
  {
    if ids != [] {
      WithoutIdsExactly(ids[1..], gone);
      assert ids == [ids[0]] + ids[1..];
    }
  }

  /** The records by id, and each id once, in the order the signals came up. */
  ghost predicate Listed(order: seq<string>, records: map<string, Record>)
  {
    && (forall i, j :: 0 <= i < j < |order| ==> order[i] != order[j])
    && (forall id :: id in order <==> id in records)
    && (forall id :: id in records ==> records[id].id == id)
  }

  lemma SurvivorsListed(was: map<string, Record>, ids: seq<string>, rules: Rules)
    requires Listed(ids, was)
    ensures var gone := RejectedIds(was, rules);
            && Listed(WithoutIds(ids, gone), map id | id in was && !FateOf(was[id], rules).Rejected?
                                               :: Rewritten(was[id], rules))
            && (gone == {} ==> WithoutIds(ids, gone) == ids)
  {
    hide FateOf, Rewritten;
    WithoutIdsExactly(ids, RejectedIds(was, rules));
    forall id | id in was
      ensures Rewritten(was[id], rules).id == was[id].id
    {
      RewritingKeepsNames(was[id], rules);
    }
  }

  lemma EachOnce(order: seq<string>, records: map<string, Record>, i: nat)
    requires Listed(order, records) && i < |order|
    ensures order[i] in records && order[i] !in order[..i] && records[order[i]].id == order[i]
  {
    assert order[i] in order;
  }

  class BacktestRecords {
    var order: seq<string>
    var records: map<string, Record>
    var events: seq<FlowEvent>
    var tracked: set<string>
    var validSignals: nat
    var invalidSignals: nat

    ghost predicate Valid()
      reads this
    {
      Listed(order, records)
    }

    /** Every record meets its fate; rejected ones leave every list and move from one counter to the other. */
    method ApplyLiveConsolidation(rules: Rules)
      requires Valid()
      modifies this
      ensures Valid() && order == WithoutIds(old(order), RejectedIds(old(records), rules))
      ensures records == map id | id in old(records) && !FateOf(old(records)[id], rules).Rejected?
                           :: Rewritten(old(records)[id], rules)
      ensures events == RewriteGlobal(old(events), old(records), rules)
      ensures tracked == old(tracked) - RejectedIds(old(records), rules)
      ensures invalidSignals == old(invalidSignals) + |RejectedIds(old(records), rules)|
      ensures validSignals + invalidSignals == old(validSignals) + old(invalidSignals)
          <==> |RejectedIds(old(records), rules)| <= old(validSignals)
    {
      hide FateOf, Rewritten, Consumed, RewriteGlobal, Marks, Files, Paired, Swept, RejectedIds;
      ghost var was, ids := records, order;
      var rejected: set<string>, consumed: set<Key>, openings: map<Key, FlowEvent> := {}, {}, map[];
      NothingMarked(was, rules);
      assert order[..0] == [] && forall id :: id in was <==> id in ids;
      hide Listed;
      for i := 0 to |order|
        invariant order == ids && events == old(events) && tracked == old(tracked)
        invariant validSignals == old(validSignals) && invalidSignals == old(invalidSignals)
        invariant Swept(was, records, ids[..i], rejected, rules)
        invariant Marks(consumed, ids[..i], was, rules) && Files(openings, ids[..i], was, rules)
      {
        var id := order[i];
        EachOnce(ids, was, i);
        MarksOneMore(consumed, ids, i, was, rules);
        FilesOneMore(openings, ids, i, was, rules);
        NotYetMarked(consumed, ids[..i], was, rules, id);
        SweepsOne(was, records, ids, i, rejected, rules);
        var fate, record;
        fate, record, consumed := ConsolidateRecord(records[id], rules, consumed);
        RewritingKeepsNames(was[id], rules);
        records := records[id := record];
        if fate.Rejected? {
          rejected := rejected + {id};
        } else if fate.Moved? {
          openings := openings[(id, record.sourceId) := fate.opening];
        }
      }
      assert ids[..|ids|] == ids;
      SweptAll(was, records, ids, rejected, rules);
      SurvivorsListed(was, ids, rules);
      if rejected != {} {
        records := records - rejected;
        order := WithoutIds(order, rejected);
        tracked := tracked - rejected;
        validSignals := if |rejected| <= validSignals then validSignals - |rejected| else 0;
        invalidSignals := invalidSignals + |rejected|;
      }
      events := RewriteEvents(events, rejected, consumed, openings, ids, was, rules);
    }
  }
}
