/** The agent of one channel: it waits for a signal's follow-ups, decides once, and proposes actions. */
module ChannelAgents {
  import opened Core
  import opened Market
  import opened Drafts
  import opened ChannelContexts
  import opened AgentLogs

  /** The classifier's verdict on a message. */
  datatype Classified = Classified(parsed: Draft, isNew: bool, isRelated: bool, relatedId: Option<SignalId>)

  datatype Deadline = Deadline(id: SignalId, at: int)

  // ---- what a message relates to ----

  function TheOnly(s: set<SignalId>): (r: Option<SignalId>)
    ensures r == None <==> |s| != 1
    ensures r.Some? ==> s == {r.value}
  {
    if |s| != 1 then None
    else
      OnlyMember(s);
      var x :| x in s;
      Some(x)
  }

  lemma OnlyMember<T>(s: set<T>)
    requires |s| == 1
    ensures exists x :: s == {x}
    ensures forall x, y :: x in s && y in s ==> x == y
  {
    var x :| x in s;
    assert |s - {x}| == 0;
    assert s == {x};
  }

  predicate ActsOnSignals(a: Action)
  {
    a in {Action.OPEN, Action.UPDATE_SL, Action.UPDATE_TP, Action.UPDATE_LEVERAGE, Action.CANCEL, Action.CLOSE}
  }

  const LOOK_BACK: nat := 3

  function ByPending(recent: seq<Message>, active: map<SignalId, SignalState>, pendingIds: set<SignalId>,
                     index: map<int, SignalId>, m: Message, parsed: Draft): Option<SignalId>
  {
    if !ActsOnSignals(parsed.action) && !m.fragment then None
    else
      match TheOnly(FindRecentPending(recent, pendingIds, index, m.id, LOOK_BACK))
      case None => None
      case Some(s) =>
        if s in active && (parsed.symbol.None? || parsed.symbol == active[s].current.symbol) then Some(s) else None
  }

  /** The signal a message is about: as classified, else by reply, by symbol, or by a lone pending neighbour. */
  function Related(recent: seq<Message>, active: map<SignalId, SignalState>, pendingIds: set<SignalId>,
                   index: map<int, SignalId>, m: Message, c: Classified): Option<SignalId>
  {
    if c.relatedId.Some? then c.relatedId
    else
      var byReply := FindByReply(active, index, m.replyTo);
      var bySymbol := if c.parsed.symbol.Some? then TheOnly(FindBySymbol(active, c.parsed.symbol.value)) else None;
      if byReply.Some? then byReply
      else if bySymbol.Some? then bySymbol
      else ByPending(recent, active, pendingIds, index, m, c.parsed)
  }

  /** Without the classifier's help a message is only ever tied to a signal on file, and a reply to a
      message of a signal is always tied to that signal. */
  lemma RelatedIsOnFile(recent: seq<Message>, active: map<SignalId, SignalState>, pendingIds: set<SignalId>,
                        index: map<int, SignalId>, m: Message, c: Classified)
    requires IndexAgrees(active, index) && c.relatedId.None?
    ensures var r := Related(recent, active, pendingIds, index, m, c);
            && (r.Some? ==> r.value in active)
            && (forall s :: s in active && m.replyTo.Some? && m.replyTo.value in active[s].related ==> r == Some(s))
  {
    hide SameSymbol;
    if c.parsed.symbol.Some? {
      assert forall s :: s in FindBySymbol(active, c.parsed.symbol.value) ==> s in active;
    }
    forall s | s in active && m.replyTo.Some? && m.replyTo.value in active[s].related
      ensures Related(recent, active, pendingIds, index, m, c) == Some(s)
    {
      ReplyIsSearch(active, index, m.replyTo, s);
    }
  }

  /** The recent messages between the third before a message and that message. */
  predicate JustBefore(recent: seq<Message>, m: Message, k: nat)
  {
    var i := IndexOfMessage(recent, m.id);
    k < i && i <= k + 3
  }

  /** A pending signal that one of the three messages just before belongs to. */
  ghost predicate Neighbour(recent: seq<Message>, active: map<SignalId, SignalState>, pendingIds: set<SignalId>,
                            m: Message, s: SignalId)
  {
    && s in pendingIds && s in active
    && exists k: nat :: k < |recent| && JustBefore(recent, m, k) && recent[k].id in active[s].related
  }

  /** How a message that the classifier ties to nothing finds its signal: by the message it replies to; else by the one
      signal of its symbol; else, if it acts on signals or looks like part of one, by the one pending signal among the
      last three messages, unless the symbols differ. */
  lemma RelatedExactly(recent: seq<Message>, active: map<SignalId, SignalState>, pendingIds: set<SignalId>,
                       index: map<int, SignalId>, m: Message, c: Classified, s: SignalId)
    requires IndexAgrees(active, index) && pendingIds <= active.Keys && c.relatedId.None?
    ensures var replied := m.replyTo.Some? && exists t :: t in active && m.replyTo.value in active[t].related;
            var named := c.parsed.symbol.Some?
                         && exists t :: FindBySymbol(active, c.parsed.symbol.value) == {t};
            Related(recent, active, pendingIds, index, m, c) == Some(s)
            <==> if replied then s in active && m.replyTo.value in active[s].related
                 else if named then FindBySymbol(active, c.parsed.symbol.value) == {s}
                 else
                   && (m.fragment || c.parsed.action !in {Action.UPDATE_ENTRY, Action.IGNORE, Action.UNKNOWN})
                   && Neighbour(recent, active, pendingIds, m, s)
                   && (forall t :: Neighbour(recent, active, pendingIds, m, t) ==> t == s)
                   && (c.parsed.symbol.Some? ==> c.parsed.symbol == active[s].current.symbol)
  {
    hide FindBySymbol, IndexAgrees, FindByReply, TheOnly, Neighbour, ByPending;
    forall t
      ensures FindByReply(active, index, m.replyTo) == Some(t)
          <==> m.replyTo.Some? && t in active && m.replyTo.value in active[t].related
    {
      ReplyIsSearch(active, index, m.replyTo, t);
    }
    if c.parsed.symbol.Some? {
      NamedExactly(FindBySymbol(active, c.parsed.symbol.value));
    }
    PendingExactly(recent, active, pendingIds, index, m, c.parsed, s);
  }

  lemma NamedExactly(s: set<SignalId>)
    ensures TheOnly(s).Some? <==> exists t :: s == {t}
    ensures TheOnly(s).Some? ==> s == {TheOnly(s).value}
  {
    if t :| s == {t} { OnlyExactly(s, t); }
  }

  lemma PendingExactly(recent: seq<Message>, active: map<SignalId, SignalState>, pendingIds: set<SignalId>,
                       index: map<int, SignalId>, m: Message, parsed: Draft, s: SignalId)
    requires IndexAgrees(active, index) && pendingIds <= active.Keys
    ensures ByPending(recent, active, pendingIds, index, m, parsed) == Some(s)
        <==> && (m.fragment || parsed.action !in {Action.UPDATE_ENTRY, Action.IGNORE, Action.UNKNOWN})
             && Neighbour(recent, active, pendingIds, m, s)
             && (forall t :: Neighbour(recent, active, pendingIds, m, t) ==> t == s)
             && (parsed.symbol.Some? ==> parsed.symbol == active[s].current.symbol)
  {
    hide IndexAgrees, FindRecentPending, TheOnly;
    var found := FindRecentPending(recent, pendingIds, index, m.id, LOOK_BACK);
    forall t
      ensures t in found <==> Neighbour(recent, active, pendingIds, m, t)
    {
      NeighboursFound(recent, active, pendingIds, index, m, t);
    }
    hide Neighbour;
    NeighbourIsActive(recent, active, pendingIds, m, s);
    OnlyExactly(found, s);
    var alone := forall t :: t in found ==> t == s;
    assert alone <==> forall t :: Neighbour(recent, active, pendingIds, m, t) ==> t == s by {
      if alone {
        forall t | Neighbour(recent, active, pendingIds, m, t)
          ensures t == s
        {
          assert t in found;
        }
      }
    }
    assert TheOnly(found) == Some(s) <==> s in found && alone;
    ActsMeans(parsed.action);
  }

  lemma ActsMeans(a: Action)
    ensures ActsOnSignals(a) <==> a !in {Action.UPDATE_ENTRY, Action.IGNORE, Action.UNKNOWN}
  {
    assert a.OPEN? || a.CLOSE? || a.UPDATE_SL? || a.UPDATE_TP? || a.UPDATE_ENTRY? || a.UPDATE_LEVERAGE? || a.CANCEL?
           || a.IGNORE? || a.UNKNOWN?;
  }

  lemma NeighbourIsActive(recent: seq<Message>, active: map<SignalId, SignalState>, pendingIds: set<SignalId>,
                          m: Message, s: SignalId)
    ensures Neighbour(recent, active, pendingIds, m, s) ==> s in active
  {
  }

  lemma OnlyExactly(s: set<SignalId>, x: SignalId)
    ensures TheOnly(s) == Some(x) <==> s == {x}
    ensures s == {x} <==> x in s && forall t :: t in s ==> t == x
  {
    if |s| == 1 { OnlyMember(s); }
    if x in s && forall t :: t in s ==> t == x { assert s == {x}; }
  }

  lemma NeighboursFound(recent: seq<Message>, active: map<SignalId, SignalState>, pendingIds: set<SignalId>,
                        index: map<int, SignalId>, m: Message, s: SignalId)
    requires IndexAgrees(active, index) && pendingIds <= active.Keys
    ensures s in FindRecentPending(recent, pendingIds, index, m.id, LOOK_BACK)
        <==> Neighbour(recent, active, pendingIds, m, s)
  {
    hide IndexAgrees, FindRecentPending;
    RecentPendingIsSearch(recent, active, pendingIds, index, m.id, LOOK_BACK, s);
    var i := IndexOfMessage(recent, m.id);
    if s in FindRecentPending(recent, pendingIds, index, m.id, LOOK_BACK) {
      var k :| MaxInt(0, i - LOOK_BACK) <= k < i && recent[k].id in active[s].related;
      assert JustBefore(recent, m, k);
    }
    if Neighbour(recent, active, pendingIds, m, s) {
      var k: nat :| k < |recent| && JustBefore(recent, m, k) && recent[k].id in active[s].related;
      assert MaxInt(0, i - LOOK_BACK) <= k < i;
    }
  }

  // ---- the actions ----

  function Decision(s: SignalState, valid: bool): Proposal
  {
    if valid then Proposal(CREATE_ORDER, Some(s.id), CONSOLIDATED, s.current.confidence, true, s.related)
    else Proposal(IGNORE_MESSAGE, Some(s.id), INVALID_AFTER_CONSOLIDATION, s.current.confidence, false, [])
  }

  function Settled(s: SignalState, valid: bool, now: int): SignalState
  {
    s.(status := if valid then ORDER_PLANNED else INVALID, updatedAt := now)
  }

  function FollowUp(id: SignalId, parsed: Draft): seq<Proposal>
  {
    var propose := (kind, risky) => [Proposal(kind, Some(id), FOLLOW_UP, parsed.confidence, risky, [])];
    match parsed.action
    case CANCEL => propose(CANCEL_PENDING_ORDER, false)
    case CLOSE => propose(CLOSE_POSITION_FULL, true)
    case UPDATE_LEVERAGE => propose(ProposalKind.UPDATE_LEVERAGE, true)
    case UPDATE_SL => propose(MOVE_STOP_LOSS, false)
    case UPDATE_TP => propose(UPDATE_TAKE_PROFIT, false)
    case UNKNOWN => [Proposal(IGNORE_MESSAGE, Some(id), AMBIGUOUS_FOLLOW_UP, parsed.confidence, false, [])]
    case _ => []
  }

  /** What a related message proposes once its signal is decided: at most one action, about that signal, of the kind
      that goes with it; closing and changing the leverage count as raising the risk, and a message that says nothing
      clear is passed on to be ignored. */
  lemma FollowUpMeans(id: SignalId, parsed: Draft)
    ensures var actions := FollowUp(id, parsed);
            && |actions| <= 1
            && (actions == [] <==> parsed.action in {Action.OPEN, Action.UPDATE_ENTRY, Action.IGNORE})
            && forall a :: a in actions ==>
                 && a.signalId == Some(id) && a.confidence == parsed.confidence && a.messages == []
                 && (a.kind == CANCEL_PENDING_ORDER <==> parsed.action == Action.CANCEL)
                 && (a.kind == CLOSE_POSITION_FULL <==> parsed.action == Action.CLOSE)
                 && (a.kind == ProposalKind.UPDATE_LEVERAGE <==> parsed.action == Action.UPDATE_LEVERAGE)
                 && (a.kind == MOVE_STOP_LOSS <==> parsed.action == Action.UPDATE_SL)
                 && (a.kind == UPDATE_TAKE_PROFIT <==> parsed.action == Action.UPDATE_TP)
                 && (a.kind == IGNORE_MESSAGE <==> parsed.action == Action.UNKNOWN)
                 && (a.reason == (if a.kind == IGNORE_MESSAGE then AMBIGUOUS_FOLLOW_UP else FOLLOW_UP))
                 && (a.riskIncreasing <==> parsed.action in {Action.CLOSE, Action.UPDATE_LEVERAGE})
  {
  }

  /** The one decision: an accepted signal becomes a risky order that names its messages, any other is dropped. */
  lemma DecisionMeans(s: SignalState, valid: bool)
    ensures var d := Decision(s, valid);
            && d.signalId == Some(s.id) && d.confidence == s.current.confidence
            && (valid <==> d.kind == CREATE_ORDER) && (valid <==> d.reason == CONSOLIDATED)
            && (valid <==> d.riskIncreasing)
            && (!valid <==> d.kind == IGNORE_MESSAGE) && (!valid ==> d.reason == INVALID_AFTER_CONSOLIDATION)
            && d.messages == (if valid then s.related else [])
            && (valid <==> Settled(s, valid, 0).status == ORDER_PLANNED)
  {
  }

  function Stamped(actions: seq<Proposal>, now: int): seq<Entry>
  {
    seq(|actions|, i requires 0 <= i < |actions| => Emitted(actions[i], now))
  }

  // ---- deadlines ----

  function Due(pending: seq<Deadline>, now: int): seq<Deadline>
  {
    if pending == [] then []
    else Due(pending[..|pending| - 1], now)
         + (if pending[|pending| - 1].at <= now then [pending[|pending| - 1]] else [])
  }

  function Later(pending: seq<Deadline>, now: int): seq<Deadline>
  {
    if pending == [] then []
    else Later(pending[..|pending| - 1], now)
         + (if pending[|pending| - 1].at <= now then [] else [pending[|pending| - 1]])
  }

  /** Every deadline is on one side, and on the side its time says. */
  lemma {:induction false} DueAndLater(pending: seq<Deadline>, now: int, d: Deadline)
    ensures d in Due(pending, now) <==> d in pending && d.at <= now
    ensures d in Later(pending, now) <==> d in pending && now < d.at
  {
    if pending != [] {
      DueAndLater(pending[..|pending| - 1], now, d);
      assert pending == pending[..|pending| - 1] + [pending[|pending| - 1]];
    }
  }

  function Without(pending: seq<Deadline>, id: SignalId): seq<Deadline>
  {
    if pending == [] then []
    else if pending[0].id == id then Without(pending[1..], id)
    else [pending[0]] + Without(pending[1..], id)
  }

  ghost predicate DistinctDeadlines(pending: seq<Deadline>)
  {
    forall i, j :: 0 <= i < j < |pending| ==> pending[i].id != pending[j].id
  }

  lemma {:induction false} WithoutAbsent(pending: seq<Deadline>, id: SignalId)
    requires forall d :: d in pending ==> d.id != id
    ensures Without(pending, id) == pending
  {
    if pending != [] {
      WithoutAbsent(pending[1..], id);
    }
  }

  lemma {:induction false} WithoutAppend(a: seq<Deadline>, b: seq<Deadline>, id: SignalId)
    ensures Without(a + b, id) == Without(a, id) + Without(b, id)
  {
    if a == [] {
      assert a + b == b;
    } else {
      assert (a + b)[1..] == a[1..] + b;
      WithoutAppend(a[1..], b, id);
    }
  }

  lemma WithoutDropsOne(front: seq<Deadline>, d: Deadline, back: seq<Deadline>)
    requires DistinctDeadlines(front + [d] + back)
    ensures Without(front + [d] + back, d.id) == front + back
  {
    OthersDiffer(front, d, back);
    hide DistinctDeadlines, Without;
    WithoutAppend(front + [d], back, d.id);
    WithoutAppend(front, [d], d.id);
    WithoutAbsent(front, d.id);
    WithoutAbsent(back, d.id);
    WithoutItself(d);
    assert front + [] == front;
  }

  lemma WithoutItself(d: Deadline)
    ensures Without([d], d.id) == []
  {
  }

  lemma OthersDiffer(front: seq<Deadline>, d: Deadline, back: seq<Deadline>)
    requires DistinctDeadlines(front + [d] + back)
    ensures forall e :: e in front ==> e.id != d.id
    ensures forall e :: e in back ==> e.id != d.id
  {
    var all, n := front + [d] + back, |front|;
    assert forall i :: 0 <= i < n ==> all[i] == front[i] && all[i].id != all[n].id;
    assert forall i :: 0 <= i < |back| ==> all[n + 1 + i] == back[i] && all[n].id != all[n + 1 + i].id;
  }

  /** What is left when one deadline is dropped: all the others, and no other id twice. */
  lemma DroppedExactly(front: seq<Deadline>, d: Deadline, back: seq<Deadline>)
    requires DistinctDeadlines(front + [d] + back)
    ensures DistinctDeadlines(front + back)
    ensures forall e :: e in front + back <==> e in front + [d] + back && e.id != d.id
  {
    var all, left := front + [d] + back, front + back;
    assert all[|front|] == d;
    assert forall i :: 0 <= i < |left| ==> left[i] == all[if i < |front| then i else i + 1];
    forall e
      ensures e in left <==> e in all && e.id != d.id
    {
      if e in left {
        var k :| 0 <= k < |left| && left[k] == e;
        assert e == all[if k < |front| then k else k + 1];
      }
      if e in all && e.id != d.id {
        var k :| 0 <= k < |all| && all[k] == e;
        assert e == left[if k < |front| then k else k - 1];
      }
    }
  }

  // ---- the invariant ----

  function StatusOf(p: Phase): SignalStatus
  {
    if p.Waiting? then PENDING_CONSOLIDATION else if p.accepted then ORDER_PLANNED else INVALID
  }

  /** Statuses, pending ids and deadlines all say what the log says. */
  ghost predicate InStep(phases: map<SignalId, Phase>, active: map<SignalId, SignalState>,
                         pendingIds: set<SignalId>, pending: seq<Deadline>)
  {
    && phases.Keys == active.Keys
    && DistinctDeadlines(pending)
    && (forall id :: id in active ==> active[id].status == StatusOf(phases[id]))
    && (forall id :: id in pendingIds <==> id in phases && phases[id].Waiting?)
    && (forall d :: d in pending <==> d.id in phases && phases[d.id] == Waiting(d.at))
    && (forall d :: d in pending && d.id in active ==> active[d.id].createdAt <= d.at)
  }

  /** Pending deadlines, pending ids and signals still in consolidation are one and the same set. */
  lemma PendingIsOneSet(phases: map<SignalId, Phase>, active: map<SignalId, SignalState>,
                        pendingIds: set<SignalId>, pending: seq<Deadline>, id: SignalId)
    requires InStep(phases, active, pendingIds, pending)
    ensures id in pendingIds <==> id in active && active[id].status == PENDING_CONSOLIDATION
    ensures id in pendingIds <==> exists d :: d in pending && d.id == id
    ensures forall d, e :: d in pending && e in pending && d.id == e.id ==> d == e
  {
    if id in pendingIds {
      assert Deadline(id, phases[id].deadline) in pending;
    }
  }

  /** Filing a new waiting signal under a fresh id keeps everything in step. */
  lemma OpeningKeepsStep(phases: map<SignalId, Phase>, active: map<SignalId, SignalState>,
                         pendingIds: set<SignalId>, pending: seq<Deadline>, s: SignalState, at: int)
    requires InStep(phases, active, pendingIds, pending) && s.id !in phases
    requires s.status == PENDING_CONSOLIDATION && s.createdAt <= at
    ensures InStep(phases[s.id := Waiting(at)], active[s.id := s], pendingIds + {s.id},
                   pending + [Deadline(s.id, at)])
  {
    var grown := pending + [Deadline(s.id, at)];
    forall d
      ensures d in grown <==> d.id in phases[s.id := Waiting(at)] && phases[s.id := Waiting(at)][d.id] == Waiting(d.at)
    {
      assert d in grown <==> d in pending || d == Deadline(s.id, at);
    }
    forall i, j | 0 <= i < j < |grown|
      ensures grown[i].id != grown[j].id
    {
      assert grown[i] in pending;
    }
  }

  lemma SettlingKeepsStep(phases: map<SignalId, Phase>, active: map<SignalId, SignalState>, pendingIds: set<SignalId>,
                          front: seq<Deadline>, d: Deadline, back: seq<Deadline>, valid: bool, now: int)
    requires InStep(phases, active, pendingIds, front + [d] + back) && d.id in active
    ensures InStep(phases[d.id := Decided(valid)], active[d.id := Settled(active[d.id], valid, now)],
                   pendingIds - {d.id}, front + back)
  {
    DroppedExactly(front, d, back);
    hide DistinctDeadlines;
  }

  lemma DecidingIsLegal(phases: map<SignalId, Phase>, active: map<SignalId, SignalState>, pendingIds: set<SignalId>,
                        front: seq<Deadline>, d: Deadline, back: seq<Deadline>, valid: bool, now: int)
    requires InStep(phases, active, pendingIds, front + [d] + back) && d.id in active && d.at <= now
    requires AllWellFormed(active)
    ensures Legal(phases, Emitted(Decision(active[d.id], valid), now))
    ensures Advance(phases, Emitted(Decision(active[d.id], valid), now)) == phases[d.id := Decided(valid)]
    ensures WellFormed(d.id, Settled(active[d.id], valid, now)) && active[d.id].id == d.id
    ensures Without(front + [d] + back, d.id) == front + back
  {
    assert (front + [d] + back)[|front|] == d;
    WithoutDropsOne(front, d, back);
    assert WellFormed(d.id, active[d.id]);
  }

  lemma DecidingKeepsVersions(active: map<SignalId, SignalState>, log: seq<Entry>, id: SignalId, s: SignalState,
                              action: Proposal, now: int)
    requires Disciplined(log) && VersionsCountMerges(active, log) && Legal(Phases(log), Emitted(action, now))
    requires id in active && s.version == active[id].version
    ensures Disciplined(log + [Emitted(action, now)])
    ensures Phases(log + [Emitted(action, now)]) == Advance(Phases(log), Emitted(action, now))
    ensures VersionsCountMerges(active[id := s], log + [Emitted(action, now)])
  {
    hide Disciplined, Phases, Merges;
    LogGrows(log, Emitted(action, now));
  }

  function Ids(ms: seq<Message>): set<int> { set m | m in ms :: m.id }

  ghost predicate VersionsCountMerges(active: map<SignalId, SignalState>, log: seq<Entry>)
  {
    forall id :: id in active ==> active[id].version == 1 + Merges(log, id)
  }

  ghost predicate UpdatedBy(active: map<SignalId, SignalState>, now: int)
  {
    forall id :: id in active ==> active[id].updatedAt <= now
  }

  function NewSignal(m: Message, parsed: Draft, now: int): SignalState
  {
    SignalState(SignalOf(m.id), PENDING_CONSOLIDATION, m.id, [m.id], parsed, 1, now, now)
  }

  /** A signal once a message is attached to it and merged into it. */
  function Joined(s: SignalState, m: Message, parsed: Draft): SignalState
  {
    s.(related := if m.id in s.related then s.related else s.related + [m.id],
       updatedAt := MaxInt(MaxInt(s.createdAt, s.updatedAt), m.date),
       current := MergeDrafts(s.current, parsed),
       version := s.version + 1)
  }

  function Decisions(due: seq<Deadline>, active: map<SignalId, SignalState>, accepts: Draft -> bool): seq<Proposal>
    requires forall d :: d in due ==> d.id in active
  {
    seq(|due|, i requires 0 <= i < |due| => Decision(active[due[i].id], accepts(active[due[i].id].current)))
  }

  lemma RefilingChangesNothing(active: map<SignalId, SignalState>, index: map<int, SignalId>, id: SignalId)
    requires IndexAgrees(active, index) && id in active
    ensures forall m :: m in active[id].related ==> m in index && index[m] == id
    ensures Filed(index, active[id].related, id) == index
  {
    forall m | m in active[id].related
      ensures m in index && index[m] == id
    {
    }
  }

  /** The signals whose deadline was due are settled; the others are as they were. */
  ghost predicate AfterTick(was: map<SignalId, SignalState>, active: map<SignalId, SignalState>,
                            due: seq<Deadline>, accepts: Draft -> bool, now: int)
  {
    && active.Keys == was.Keys
    && forall id :: id in was ==>
         active[id] == if exists d :: d in due && d.id == id then Settled(was[id], accepts(was[id].current), now)
                       else was[id]
  }

  lemma SettlesOneMore(was: map<SignalId, SignalState>, active: map<SignalId, SignalState>, due: seq<Deadline>,
                       d: Deadline, accepts: Draft -> bool, now: int)
    requires AfterTick(was, active, due, accepts, now) && d.id in was && forall e :: e in due ==> e.id != d.id
    ensures active[d.id] == was[d.id]
    ensures AfterTick(was, active[d.id := Settled(was[d.id], accepts(was[d.id].current), now)], due + [d], accepts, now)
  {
    hide Settled;
    assert (due + [d])[|due|] == d;
    forall id | id in was
      ensures (exists e :: e in due + [d] && e.id == id) <==> (exists e :: e in due && e.id == id) || id == d.id
    {
      if e :| e in due && e.id == id { assert e in due + [d]; }
    }
  }

  ghost predicate AllActive(pending: seq<Deadline>, active: map<SignalId, SignalState>)
  {
    forall d :: d in pending ==> d.id in active
  }

  lemma OneIsActive(pending: seq<Deadline>, active: map<SignalId, SignalState>, d: Deadline)
    requires AllActive(pending, active) && d in pending
    ensures d.id in active
  {
  }

  /** Where the tick loop stands once the given deadlines have been decided. */
  ghost predicate Ticked(was: map<SignalId, SignalState>, active: map<SignalId, SignalState>, due: seq<Deadline>,
                         accepts: Draft -> bool, now: int, actions: seq<Proposal>,
                         start: seq<Entry>, log: seq<Entry>)
  {
    && (forall d :: d in due ==> d.id in was)
    && actions == Decisions(due, was, accepts)
    && AfterTick(was, active, due, accepts, now)
    && log == start + Stamped(actions, now)
  }

  lemma TickStarts(was: map<SignalId, SignalState>, accepts: Draft -> bool, now: int, log: seq<Entry>)
    ensures Ticked(was, was, [], accepts, now, [], log, log)
  {
  }

  lemma TickSteps(was: map<SignalId, SignalState>, active: map<SignalId, SignalState>, pending: seq<Deadline>, i: nat,
                  accepts: Draft -> bool, now: int, actions: seq<Proposal>, start: seq<Entry>, log: seq<Entry>)
    requires DistinctDeadlines(pending) && i < |pending| && pending[i].id in was
    requires Ticked(was, active, DueBefore(pending, i, now), accepts, now, actions, start, log)
    ensures var d := pending[i]; var state := was[d.id]; var action := Decision(state, accepts(state.current));
            && active[d.id] == state
            && Ticked(was, active[d.id := Settled(state, accepts(state.current), now)],
                      DueBefore(pending, i, now) + [d], accepts, now, actions + [action], start,
                      log + [Emitted(action, now)])
  {
    hide Decision, Settled, AfterTick, Decisions, Stamped, Due;
    var d := pending[i];
    var due := Due(pending[..i], now);
    DueIsDistinct(pending, i, now);
    SettlesOneMore(was, active, due, d, accepts, now);
    DecisionsStep(due, d, was, accepts, now);
    StampedStep(actions, Decision(was[d.id], accepts(was[d.id].current)), now);
  }

  lemma TickEnds(was: map<SignalId, SignalState>, active: map<SignalId, SignalState>, pending: seq<Deadline>,
                 accepts: Draft -> bool, now: int, actions: seq<Proposal>, start: seq<Entry>, log: seq<Entry>)
    requires Ticked(was, active, Due(pending, now), accepts, now, actions, start, log)
    ensures forall d :: d in Later(pending, now) ==> now < d.at
    ensures forall d :: d in Due(pending, now) ==> d.id in was
    ensures actions == Decisions(Due(pending, now), was, accepts)
    ensures AfterTick(was, active, Due(pending, now), accepts, now)
    ensures log == start + Stamped(actions, now)
    ensures UpdatedBy(was, now) ==> UpdatedBy(active, now)
  {
    hide Decisions, Stamped;
    forall d | d in Later(pending, now)
      ensures now < d.at
    {
      DueAndLater(pending, now, d);
    }
  }

  /** What is pending before the i-th deadline is looked at. */
  function Rest(pending: seq<Deadline>, i: nat, now: int): seq<Deadline>
    requires i <= |pending|
  {
    Later(pending[..i], now) + pending[i..]
  }

  function DueBefore(pending: seq<Deadline>, i: nat, now: int): seq<Deadline>
    requires i <= |pending|
  {
    Due(pending[..i], now)
  }

  lemma LoopSteps(pending: seq<Deadline>, i: nat, now: int)
    requires i < |pending|
    ensures var front, d, back := Later(pending[..i], now), pending[i], pending[i + 1..];
            && Rest(pending, i, now) == front + [d] + back && d in Rest(pending, i, now)
            && Rest(pending, i + 1, now) == (if d.at <= now then front + back else Rest(pending, i, now))
            && DueBefore(pending, i + 1, now)
               == (if d.at <= now then DueBefore(pending, i, now) + [d] else DueBefore(pending, i, now))
  {
    var front, d, back := Later(pending[..i], now), pending[i], pending[i + 1..];
    assert pending[..i + 1][..i] == pending[..i];
    assert pending[i..] == [d] + back;
    assert (front + [d] + back)[|front|] == d;
  }

  lemma LoopEnds(pending: seq<Deadline>, now: int)
    ensures Rest(pending, 0, now) == pending && DueBefore(pending, 0, now) == []
    ensures Rest(pending, |pending|, now) == Later(pending, now)
    ensures DueBefore(pending, |pending|, now) == Due(pending, now)
  {
    assert pending[..|pending|] == pending;
  }

  lemma DecisionsStep(due: seq<Deadline>, d: Deadline, active: map<SignalId, SignalState>, accepts: Draft -> bool,
                      now: int)
    requires d.id in active && forall e :: e in due ==> e.id in active
    ensures forall e :: e in due + [d] ==> e.id in active
    ensures Decisions(due + [d], active, accepts)
         == Decisions(due, active, accepts) + [Decision(active[d.id], accepts(active[d.id].current))]
  {
    hide Decision;
  }

  lemma StampedStep(actions: seq<Proposal>, action: Proposal, now: int)
    ensures Stamped(actions + [action], now) == Stamped(actions, now) + [Emitted(action, now)]
  {
  }

  lemma DueIsDistinct(pending: seq<Deadline>, i: nat, now: int)
    requires DistinctDeadlines(pending) && i < |pending|
    ensures forall e :: e in Due(pending[..i], now) ==> e.id != pending[i].id
  {
    forall e | e in Due(pending[..i], now)
      ensures e.id != pending[i].id
    {
      DueAndLater(pending[..i], now, e);
      var k :| 0 <= k < i && pending[k] == e;
    }
  }

  /** A tick keeps every update time from going back exactly when its clock is behind none of the due ones. */
  lemma TickGoesForwardExactly(was: map<SignalId, SignalState>, active: map<SignalId, SignalState>,
                               due: seq<Deadline>, accepts: Draft -> bool, now: int)
    requires AfterTick(was, active, due, accepts, now) && forall d :: d in due ==> d.id in was
    ensures (forall id :: id in was ==> was[id].updatedAt <= active[id].updatedAt)
        <==> (forall d :: d in due ==> was[d.id].updatedAt <= now)
  {
    forall d | d in due
      ensures active[d.id].updatedAt == now
    {
    }
  }

  /** A follow-up dated after the clock, merged before the deadline, is enough to make the tick go back. */
  lemma TickCanGoBack(parsed: Draft, accepts: Draft -> bool)
    ensures var filed := NewSignal(Message(1, 0, None, false), parsed, 0);
            var joined := Joined(filed, Message(2, 100, Some(1), true), parsed);
            Settled(joined, accepts(joined.current), 60).updatedAt < joined.updatedAt
  {
    hide MergeDrafts;
  }

  /** Growing a signal without touching its status keeps everything in step. */
  lemma JoiningKeepsStep(phases: map<SignalId, Phase>, active: map<SignalId, SignalState>,
                         pendingIds: set<SignalId>, pending: seq<Deadline>, id: SignalId, s: SignalState)
    requires InStep(phases, active, pendingIds, pending) && id in active
    requires s.status == active[id].status && s.createdAt == active[id].createdAt
    ensures InStep(phases, active[id := s], pendingIds, pending)
  {
  }

  datatype Intake = Opens | Joins(id: SignalId) | OutsideWindow | Ambiguous | Unrelated

  /** What becomes of a message, given the signal it was tied to. */
  function IntakeOf(related: Option<SignalId>, active: map<SignalId, SignalState>, c: Classified, now: int, window: int)
    : Intake
  {
    if related.None? && c.isNew then Opens
    else if related.Some? && related.value in active then
      if now <= active[related.value].updatedAt + window then Joins(related.value) else OutsideWindow
    else if c.isRelated then Ambiguous
    else Unrelated
  }

  /** A message opens a signal when it is new and tied to none; it joins the signal on file that it is tied to up to the
      end of the window after that signal's last message, and is passed over afterwards; one that should belong to
      something, but is tied to nothing on file, is ambiguous. */
  lemma IntakeMeans(related: Option<SignalId>, active: map<SignalId, SignalState>, c: Classified, now: int,
                    window: int, id: SignalId)
    ensures var intake := IntakeOf(related, active, c, now, window);
            && (intake == Opens <==> related == None && c.isNew)
            && (intake == Joins(id) <==> related == Some(id) && id in active && now - active[id].updatedAt <= window)
            && (related == Some(id) && id in active && window < now - active[id].updatedAt ==> intake == OutsideWindow)
            && (related == Some(id) && id !in active ==> (intake == Ambiguous <==> c.isRelated))
            && (related == None && !c.isNew ==> (intake == Ambiguous <==> c.isRelated))
            && (intake == Unrelated ==> !c.isRelated)
  {
  }

  function FollowUps(s: SignalState, parsed: Draft): seq<Proposal>
  {
    if s.status == PENDING_CONSOLIDATION then [] else FollowUp(s.id, parsed)
  }

  function AmbiguousRelation(parsed: Draft): Proposal
  {
    Proposal(IGNORE_MESSAGE, None, AMBIGUOUS_RELATION, parsed.confidence, false, [])
  }

  /** The message a signal was opened by leads to it, so a message that leads nowhere has opened none. */
  lemma OpenerIsIndexed(active: map<SignalId, SignalState>, index: map<int, SignalId>, messageId: int)
    requires IndexAgrees(active, index) && AllWellFormed(active)
    ensures SignalOf(messageId) in active ==> messageId in index
  {
    if SignalOf(messageId) in active {
      assert messageId in active[SignalOf(messageId)].related;
    }
  }

  lemma MemberId(ms: seq<Message>, m: Message)
    requires m in ms
    ensures m.id in Ids(ms)
  {
  }

  lemma SameSignals(phases: map<SignalId, Phase>, active: map<SignalId, SignalState>, pendingIds: set<SignalId>,
                    pending: seq<Deadline>)
    requires InStep(phases, active, pendingIds, pending)
    ensures phases.Keys == active.Keys
    ensures forall id :: id in active ==> active[id].status == StatusOf(phases[id])
  {
  }

  lemma FilesOne(index: map<int, SignalId>, m: int, id: SignalId, history: seq<Message>)
    requires index.Keys <= Ids(history) && m in Ids(history)
    ensures Filed(index, [m], id) == index[m := id] && index[m := id].Keys <= Ids(history)
  {
  }

  lemma OpeningKeepsVersions(active: map<SignalId, SignalState>, log: seq<Entry>, s: SignalState, at: int)
    requires Disciplined(log) && VersionsCountMerges(active, log) && s.id !in Phases(log) && s.version == 1
    ensures Disciplined(log + [Opened(s.id, at)])
    ensures VersionsCountMerges(active[s.id := s], log + [Opened(s.id, at)])
  {
    hide Disciplined, Phases, Merges;
    LogGrows(log, Opened(s.id, at));
    NoMergesYet(log, s.id);
  }

  lemma JoiningKeepsVersions(active: map<SignalId, SignalState>, log: seq<Entry>, id: SignalId, s: SignalState)
    requires Disciplined(log) && VersionsCountMerges(active, log) && id in Phases(log) && id in active
    requires s.version == active[id].version + 1
    ensures Disciplined(log + [Merged(id)]) && Phases(log + [Merged(id)]) == Phases(log)
    ensures VersionsCountMerges(active[id := s], log + [Merged(id)])
  {
    hide Disciplined, Phases, Merges;
    LogGrows(log, Merged(id));
  }

  lemma {:induction false} NoMergesYet(log: seq<Entry>, id: SignalId)
    requires Disciplined(log) && id !in Phases(log)
    ensures Merges(log, id) == 0
  {
    if log != [] {
      NoMergesYet(log[..|log| - 1], id);
    }
  }

  lemma IdsGrow(history: seq<Message>, m: Message)
    ensures Ids(history + [m]) == Ids(history) + {m.id}
  {
  }

  lemma OpeningKeepsTime(active: map<SignalId, SignalState>, m: Message, parsed: Draft, now: int)
    ensures UpdatedBy(active, now) ==> UpdatedBy(active[SignalOf(m.id) := NewSignal(m, parsed, now)], now)
  {
  }

  lemma JoiningKeepsTime(active: map<SignalId, SignalState>, id: SignalId, m: Message, parsed: Draft, now: int)
    requires AllWellFormed(active) && id in active
    ensures active[id].id == id && Joined(active[id], m, parsed).status == active[id].status
    ensures active[id].updatedAt <= Joined(active[id], m, parsed).updatedAt
    ensures UpdatedBy(active, now) && m.date <= now ==> UpdatedBy(active[id := Joined(active[id], m, parsed)], now)
  {
    hide MergeDrafts;
    assert WellFormed(id, active[id]);
  }

  /** An action that needs no decision of its own: about no signal, or about one already decided. */
  predicate Quiet(phases: map<SignalId, Phase>, action: Proposal)
  {
    action.reason !in {CONSOLIDATED, INVALID_AFTER_CONSOLIDATION}
    && (action.signalId.Some? ==> action.signalId.value in phases && phases[action.signalId.value].Decided?)
  }

  lemma FollowUpIsLegal(phases: map<SignalId, Phase>, active: map<SignalId, SignalState>, pendingIds: set<SignalId>,
                        pending: seq<Deadline>, id: SignalId, parsed: Draft)
    requires InStep(phases, active, pendingIds, pending) && id in active
    requires active[id].status != PENDING_CONSOLIDATION
    ensures |FollowUp(id, parsed)| <= 1 && forall a :: a in FollowUp(id, parsed) ==> Quiet(phases, a)
  {
  }

  lemma EmitsQuietly(active: map<SignalId, SignalState>, log: seq<Entry>, actions: seq<Proposal>, now: int)
    requires Disciplined(log) && VersionsCountMerges(active, log)
    requires |actions| <= 1 && forall a :: a in actions ==> Quiet(Phases(log), a)
    ensures var grown := log + Stamped(actions, now);
            Disciplined(grown) && Phases(grown) == Phases(log) && VersionsCountMerges(active, grown)
  {
    hide Disciplined, Phases, Merges;
    if actions == [] {
      assert log + Stamped(actions, now) == log;
    } else {
      assert actions[0] in actions && Quiet(Phases(log), actions[0]);
      assert Stamped(actions, now) == [Emitted(actions[0], now)];
      LogGrows(log, Emitted(actions[0], now));
    }
  }

  class ChannelAgent {
    const context: ChannelContext
    const seconds: nat
    const accepts: Draft -> bool
    var pending: seq<Deadline>
    ghost var log: seq<Entry>

    ghost predicate Valid()
      reads this, context
    {
      && context.Valid() && Disciplined(log)
      && InStep(Phases(log), context.active, context.pendingIds, pending)
      && VersionsCountMerges(context.active, log)
      && context.signalByMessage.Keys <= Ids(context.history)
    }

    constructor (limit: nat, window: int, seconds: nat, accepts: Draft -> bool)
      requires 1 <= limit
      ensures Valid() && fresh(context) && log == [] && pending == [] && context.history == []
      ensures this.seconds == seconds && this.accepts == accepts
      ensures context.limit == limit && context.window == window
    {
      this.seconds, this.accepts := seconds, accepts;
      pending, log := [], [];
      context := new ChannelContext(limit, window);
    }

    /** One pass of the tick loop: the signal's only decision. */
    method Conclude(ghost front: seq<Deadline>, d: Deadline, ghost back: seq<Deadline>, now: int)
      returns (action: Proposal)
      requires Valid() && pending == front + [d] + back && d.at <= now
      requires d.id in context.active
      modifies this`pending, this`log, context`active, context`pendingIds, context`signalByMessage
      ensures Valid() && pending == front + back
      ensures var was := old(context.active)[d.id];
              && action == Decision(was, accepts(was.current))
              && context.active == old(context.active)[d.id := Settled(was, accepts(was.current), now)]
      ensures log == old(log) + [Emitted(action, now)]
      ensures context.signalByMessage == old(context.signalByMessage)
    {
      hide Disciplined, Phases, Merges, InStep, VersionsCountMerges, IndexAgrees, AllWellFormed, Filed, Decision;
      hide ChannelContext.RecentOk, Ids;
      var signal := context.active[d.id];
      var valid := accepts(signal.current);
      action := Decision(signal, valid);
      DecidingIsLegal(Phases(log), context.active, context.pendingIds, front, d, back, valid, now);
      DecidingKeepsVersions(context.active, log, d.id, Settled(signal, valid, now), action, now);
      SettlingKeepsStep(Phases(log), context.active, context.pendingIds, front, d, back, valid, now);
      RefilingChangesNothing(context.active, context.signalByMessage, d.id);
      context.AddSignal(Settled(signal, valid, now), false);
      pending := Without(pending, d.id);
      log := log + [Emitted(action, now)];
    }

    lemma PendingIsActive()
      requires Valid()
      ensures DistinctDeadlines(pending) && AllActive(pending, context.active)
    {
      hide ChannelContext.Valid, Disciplined, Phases, Merges;
    }

    /** Decides every signal whose deadline has come, in the order they were filed, and no other. */
    method Tick(now: int) returns (actions: seq<Proposal>)
      requires Valid()
      modifies this`pending, this`log, context`active, context`pendingIds, context`signalByMessage
      ensures Valid() && pending == Later(old(pending), now) && forall d :: d in pending ==> now < d.at
      ensures forall d :: d in Due(old(pending), now) ==> d.id in old(context.active)
      ensures actions == Decisions(Due(old(pending), now), old(context.active), accepts)
      ensures AfterTick(old(context.active), context.active, Due(old(pending), now), accepts, now)
      ensures log == old(log) + Stamped(actions, now)
      ensures context.signalByMessage == old(context.signalByMessage)
      ensures UpdatedBy(old(context.active), now) ==> UpdatedBy(context.active, now)
    {
      hide Valid, UpdatedBy, AfterTick, Due, Later, Decisions, Stamped, Ticked, Decision, Settled, AllActive,
        DistinctDeadlines, Rest, DueBefore;
      var snapshot := pending;
      ghost var was, start := context.active, log;
      actions := [];
      PendingIsActive();
      TickStarts(was, accepts, now, log);
      LoopEnds(snapshot, now);
      for i := 0 to |snapshot|
        invariant Valid() && pending == Rest(snapshot, i, now)
        invariant Ticked(was, context.active, DueBefore(snapshot, i, now), accepts, now, actions, start, log)
        invariant context.signalByMessage == old(context.signalByMessage)
      {
        LoopSteps(snapshot, i, now);
        if snapshot[i].at <= now {
          OneIsActive(snapshot, was, snapshot[i]);
          TickSteps(was, context.active, snapshot, i, accepts, now, actions, start, log);
          PendingIsActive();
          OneIsActive(pending, context.active, snapshot[i]);
          var action := Conclude(Later(snapshot[..i], now), snapshot[i], snapshot[i + 1..], now);
          actions := actions + [action];
        }
      }
      TickEnds(was, context.active, snapshot, accepts, now, actions, start, log);
    }

    method OpenSignal(m: Message, parsed: Draft, now: int)
      requires Valid() && m in context.history && m.id !in context.signalByMessage
      modifies this`pending, this`log, context`active, context`pendingIds, context`signalByMessage
      ensures Valid() && pending == old(pending) + [Deadline(SignalOf(m.id), now + seconds)]
      ensures context.active == old(context.active)[SignalOf(m.id) := NewSignal(m, parsed, now)]
      ensures SignalOf(m.id) !in old(context.active)
      ensures context.signalByMessage == old(context.signalByMessage)[m.id := SignalOf(m.id)]
      ensures log == old(log) + [Opened(SignalOf(m.id), now + seconds)]
    {
      hide Disciplined, Phases, Merges, InStep, VersionsCountMerges, IndexAgrees, AllWellFormed, Filed;
      hide ChannelContext.RecentOk, Ids;
      var state := NewSignal(m, parsed, now);
      OpenerIsIndexed(context.active, context.signalByMessage, m.id);
      assert SignalOf(m.id) !in Phases(log) by {
        SameSignals(Phases(log), context.active, context.pendingIds, pending);
      }
      assert m.id in Ids(context.history) by { MemberId(context.history, m); }
      OpeningKeepsVersions(context.active, log, state, now + seconds);
      LogGrows(log, Opened(state.id, now + seconds));
      OpeningKeepsStep(Phases(log), context.active, context.pendingIds, pending, state, now + seconds);
      FilesOne(context.signalByMessage, m.id, state.id, context.history);
      context.AddSignal(state, true);
      pending := pending + [Deadline(state.id, now + seconds)];
      log := log + [Opened(state.id, now + seconds)];
    }

    method JoinSignal(id: SignalId, m: Message, parsed: Draft)
      requires Valid() && m in context.history && m.id !in context.signalByMessage && id in context.active
      modifies this`log, context`active, context`signalByMessage
      ensures Valid()
      ensures context.active == old(context.active)[id := Joined(old(context.active)[id], m, parsed)]
      ensures context.signalByMessage == old(context.signalByMessage)[m.id := id]
      ensures log == old(log) + [Merged(id)]
    {
      hide Disciplined, Phases, Merges, InStep, VersionsCountMerges, IndexAgrees, AllWellFormed, MergeDrafts;
      hide ChannelContext.RecentOk, Ids;
      assert id in Phases(log) by { SameSignals(Phases(log), context.active, context.pendingIds, pending); }
      assert m.id in Ids(context.history) by { MemberId(context.history, m); }
      JoiningKeepsVersions(context.active, log, id, Joined(context.active[id], m, parsed));
      JoiningKeepsStep(Phases(log), context.active, context.pendingIds, pending, id,
                       Joined(context.active[id], m, parsed));
      context.AttachMessage(id, m);
      context.MergeSignal(id, parsed, m.date);
      log := log + [Merged(id)];
      assert context.active == old(context.active)[id := Joined(old(context.active)[id], m, parsed)];
      assert context.signalByMessage.Keys == old(context.signalByMessage).Keys + {m.id};
    }

    /** Files a message, ties it to a signal or opens one, and proposes what follows. */
    method IngestMessage(m: Message, c: Classified, now: int) returns (actions: seq<Proposal>)
      requires Valid() && m.id !in Ids(context.history)
      modifies this`pending, this`log, context
      ensures Valid() && context.history == old(context.history) + [m]
      ensures var was, index := old(context.active), old(context.signalByMessage);
              var window := LastOf(old(context.history) + [m], context.limit);
              match IntakeOf(Related(window, was, old(context.pendingIds), index, m, c), was, c, now, context.window)
              case Opens =>
                && context.active == was[SignalOf(m.id) := NewSignal(m, c.parsed, now)] && SignalOf(m.id) !in was
                && context.signalByMessage == index[m.id := SignalOf(m.id)]
                && pending == old(pending) + [Deadline(SignalOf(m.id), now + seconds)]
                && actions == [] && log == old(log) + [Opened(SignalOf(m.id), now + seconds)]
              case Joins(id) =>
                && context.active == was[id := Joined(was[id], m, c.parsed)]
                && context.signalByMessage == index[m.id := id] && pending == old(pending)
                && actions == FollowUps(was[id], c.parsed)
                && log == old(log) + [Merged(id)] + Stamped(actions, now)
              case other =>
                && context.active == was && context.signalByMessage == index && pending == old(pending)
                && actions == (if other.Ambiguous? then [AmbiguousRelation(c.parsed)] else [])
                && log == old(log) + Stamped(actions, now)
      ensures UpdatedBy(old(context.active), now) && m.date <= now ==> UpdatedBy(context.active, now)
    {
      hide Disciplined, Phases, Merges, InStep, VersionsCountMerges, IndexAgrees, AllWellFormed;
      hide Related, Joined, FollowUp, NewSignal, ChannelContext.RecentOk, LastOf, UpdatedBy;
      actions := [];
      IdsGrow(context.history, m);
      RecentIsWindow();
      context.AddRecentMessage(m);
      RecentIsWindow();
      ghost var was := context.active;
      var related := Related(context.recent, context.active, context.pendingIds, context.signalByMessage, m, c);
      if related.None? && c.isNew {
        OpeningKeepsTime(was, m, c.parsed, now);
        OpenSignal(m, c.parsed, now);
      } else if related.Some? && related.value in context.active {
        if context.WithinWindow(context.active[related.value], now) {
          JoiningKeepsTime(was, related.value, m, c.parsed, now);
          JoinSignal(related.value, m, c.parsed);
          if context.active[related.value].status != PENDING_CONSOLIDATION {
            actions := FollowUp(related.value, c.parsed);
            FollowUpIsLegal(Phases(log), context.active, context.pendingIds, pending, related.value, c.parsed);
          }
        }
      } else if c.isRelated {
        actions := [AmbiguousRelation(c.parsed)];
      }
      EmitsQuietly(context.active, log, actions, now);
      log := log + Stamped(actions, now);
    }

    lemma RecentIsWindow()
      requires context.RecentOk()
      ensures context.recent == LastOf(context.history, context.limit)
      ensures forall h :: h in context.history ==> h.id in Ids(context.history)
    {
    }
  }
}
