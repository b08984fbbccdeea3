/** The per-channel context: recent messages, active signals, and the indexes over them. */
module ChannelContexts {
  import opened Core
  import opened Drafts

  /** The id made from the message that created the signal; its hash is taken to be injective. */
  datatype SignalId = SignalOf(messageId: int)

  datatype SignalStatus = PENDING_CONSOLIDATION | ORDER_PLANNED | INVALID

  /** fragment: the text mentions a stop, a target, leverage, an entry and the like. */
  datatype Message = Message(id: int, date: int, replyTo: Option<int>, fragment: bool)

  datatype SignalState = SignalState(
    id: SignalId, status: SignalStatus, createdFrom: int, related: seq<int>, current: Draft,
    version: nat, createdAt: int, updatedAt: int)

  /** A state filed under its own id, never updated before it was created. */
  predicate WellFormed(id: SignalId, s: SignalState)
  {
    && s.id == id && id == SignalOf(s.createdFrom) && s.createdFrom in s.related
    && 1 <= s.version && s.createdAt <= s.updatedAt
  }

  ghost predicate AllWellFormed(active: map<SignalId, SignalState>)
  {
    forall s :: s in active ==> WellFormed(s, active[s])
  }

  function LastOf<T>(s: seq<T>, n: nat): seq<T> { if |s| <= n then s else s[|s| - n..] }

  ghost predicate DistinctIds(ms: seq<Message>)
  {
    forall i, j :: 0 <= i < j < |ms| ==> ms[i].id != ms[j].id
  }

  /** Dropping the oldest of a full window and appending gives the window of the longer history. */
  lemma WindowSlides<T>(s: seq<T>, x: T, n: nat)
    requires 1 <= n
    ensures LastOf(s + [x], n) == (if |LastOf(s, n)| == n then LastOf(s, n)[1..] else LastOf(s, n)) + [x]
  {
  }

  /** The dictionary holds exactly the given messages, each under its id. */
  ghost predicate Catalogues(byId: map<int, Message>, ms: seq<Message>)
  {
    && (forall m :: m in ms ==> m.id in byId && byId[m.id] == m)
    && (forall id :: id in byId ==> byId[id] in ms && byId[id].id == id)
  }

  lemma CatalogueForgetsFirst(byId: map<int, Message>, ms: seq<Message>)
    requires ms != [] && DistinctIds(ms) && Catalogues(byId, ms)
    ensures Catalogues(byId - {ms[0].id}, ms[1..])
  {
    forall m | m in ms[1..]
      ensures m in ms && m.id != ms[0].id
    {
      var k :| 0 <= k < |ms[1..]| && ms[1..][k] == m;
      assert ms[k + 1] == m;
    }
    forall id | id in byId && id != ms[0].id
      ensures byId[id] in ms[1..]
    {
      var k :| 0 <= k < |ms| && ms[k] == byId[id];
      assert ms[1..][k - 1] == byId[id];
    }
  }

  lemma CatalogueLearns(byId: map<int, Message>, ms: seq<Message>, m: Message)
    requires Catalogues(byId, ms) && forall h :: h in ms ==> h.id != m.id
    ensures Catalogues(byId[m.id := m], ms + [m])
  {
    assert (ms + [m])[|ms|] == m;
    forall id | id in byId && id != m.id
      ensures byId[id] in ms + [m]
    {
      assert byId[id] in ms;
    }
  }

  lemma LastIsDistinct(history: seq<Message>, n: nat, m: Message)
    requires 1 <= n && DistinctIds(history) && forall h :: h in history ==> h.id != m.id
    ensures DistinctIds(history + [m]) && DistinctIds(LastOf(history, n))
    ensures LastOf(history, n) != [] ==> DistinctIds(LastOf(history, n)[1..])
    ensures forall h :: h in LastOf(history, n) ==> h.id != m.id
    ensures |LastOf(history, n)| <= n
    ensures forall h :: LastOf(history, n) != [] && h in LastOf(history, n)[1..] ==> h.id != m.id
  {
    forall h | h in LastOf(history, n)
      ensures h in history
    {
    }
  }

  function IndexOfMessage(ms: seq<Message>, id: int): (i: nat)
    ensures i <= |ms| && (i < |ms| ==> ms[i].id == id)
    ensures forall j :: 0 <= j < i ==> ms[j].id != id
  {
    if ms == [] || ms[0].id == id then 0 else 1 + IndexOfMessage(ms[1..], id)
  }

  /** The reverse index answers what a search through the related messages would. */
  ghost predicate IndexAgrees(active: map<SignalId, SignalState>, index: map<int, SignalId>)
  {
    && (forall m :: m in index ==> index[m] in active && m in active[index[m]].related)
    && (forall s, m :: s in active && m in active[s].related ==> m in index && index[m] == s)
  }

  /** The index once the given messages all lead to the signal. */
  function Filed(index: map<int, SignalId>, messages: seq<int>, id: SignalId): map<int, SignalId>
  {
    index + map m | m in messages :: id
  }

  lemma FiledSteps(index: map<int, SignalId>, messages: seq<int>, m: int, id: SignalId)
    ensures Filed(index, [], id) == index
    ensures Filed(index, messages + [m], id) == Filed(index, messages, id)[m := id]
  {
  }

  /** Filing a signal that claims no message of another one keeps the index right. */
  lemma FilingKeepsIndex(active: map<SignalId, SignalState>, index: map<int, SignalId>, signal: SignalState)
    requires IndexAgrees(active, index)
    requires forall m :: m in signal.related && m in index ==> index[m] == signal.id
    requires signal.id in active ==> forall m :: m in active[signal.id].related ==> m in signal.related
    ensures IndexAgrees(active[signal.id := signal], Filed(index, signal.related, signal.id))
  {
    var active2 := active[signal.id := signal];
    var index2 := Filed(index, signal.related, signal.id);
    forall m | m in index2
      ensures index2[m] in active2 && m in active2[index2[m]].related
    {
      if m !in signal.related { assert index[m] in active; }
    }
    forall s, m | s in active2 && m in active2[s].related
      ensures m in index2 && index2[m] == s
    {
      if s != signal.id { assert m in index && index[m] == s; }
    }
  }

  function FindByReply(active: map<SignalId, SignalState>, index: map<int, SignalId>, reply: Option<int>)
    : Option<SignalId>
  {
    match reply
    case None => None
    case Some(m) => if m in index && index[m] in active then Some(index[m]) else None
  }

  /** The index finds a signal exactly when a search of every active signal would. */
  lemma ReplyIsSearch(active: map<SignalId, SignalState>, index: map<int, SignalId>, reply: Option<int>, s: SignalId)
    requires IndexAgrees(active, index)
    ensures FindByReply(active, index, reply) == Some(s)
        <==> reply.Some? && s in active && reply.value in active[s].related
  {
    if reply.Some? && reply.value in index {
      assert index[reply.value] in active;
    }
  }

  function FindBySymbol(active: map<SignalId, SignalState>, symbol: string): set<SignalId>
  {
    set s | s in active && SameSymbol(active[s].current.symbol, symbol)
  }

  /** The pending signals that the index gives for the few messages just before the given one. */
  function FindRecentPending(recent: seq<Message>, pendingIds: set<SignalId>, index: map<int, SignalId>,
                             before: int, count: nat): set<SignalId>
  {
    var i := IndexOfMessage(recent, before);
    set k | MaxInt(0, i - count) <= k < i && recent[k].id in index && index[recent[k].id] in pendingIds
      :: index[recent[k].id]
  }

  lemma RecentPendingIsSearch(recent: seq<Message>, active: map<SignalId, SignalState>, pendingIds: set<SignalId>,
                              index: map<int, SignalId>, before: int, count: nat, s: SignalId)
    requires IndexAgrees(active, index) && pendingIds <= active.Keys
    ensures s in FindRecentPending(recent, pendingIds, index, before, count)
        <==> s in pendingIds
             && exists k :: MaxInt(0, IndexOfMessage(recent, before) - count) <= k < IndexOfMessage(recent, before)
                            && recent[k].id in active[s].related
  {
    var i := IndexOfMessage(recent, before);
    if s in FindRecentPending(recent, pendingIds, index, before, count) {
      var k :| MaxInt(0, i - count) <= k < i && recent[k].id in index && index[recent[k].id] == s;
      assert recent[k].id in active[s].related;
    }
  }

  class ChannelContext {
    const limit: nat
    const window: int
    var recent: seq<Message>
    var messageById: map<int, Message>
    var active: map<SignalId, SignalState>
    var pendingIds: set<SignalId>
    var signalByMessage: map<int, SignalId>
    ghost var history: seq<Message>

    /** The catalogue holds exactly the last messages, each under its id. */
    ghost predicate RecentOk()
      reads this`recent, this`messageById, this`history
    {
      1 <= limit && DistinctIds(history) && recent == LastOf(history, limit) && Catalogues(messageById, recent)
    }

    ghost predicate Valid()
      reads this
    {
      RecentOk() && IndexAgrees(active, signalByMessage) && AllWellFormed(active) && pendingIds <= active.Keys
    }

    constructor (limit: nat, window: int)
      requires 1 <= limit
      ensures Valid() && history == [] && active == map[] && pendingIds == {} && signalByMessage == map[]
      ensures this.limit == limit && this.window == window
    {
      this.limit, this.window := limit, window;
      recent, messageById, active, pendingIds, signalByMessage := [], map[], map[], {}, map[];
      history := [];
    }

    method AddRecentMessage(m: Message)
      requires RecentOk() && forall h :: h in history ==> h.id != m.id
      modifies this`recent, this`messageById, this`history
      ensures RecentOk() && history == old(history) + [m]
    {
      hide DistinctIds, Catalogues, LastOf;
      WindowSlides(history, m, limit);
      LastIsDistinct(history, limit, m);
      if |recent| == limit {
        CatalogueForgetsFirst(messageById, recent);
        messageById := messageById - {recent[0].id};
        recent := recent[1..];
      }
      CatalogueLearns(messageById, recent, m);
      recent := recent + [m];
      messageById := messageById[m.id := m];
      history := history + [m];
    }

    /** Files a signal and every message related to it; claims no message of another signal. */
    method AddSignal(signal: SignalState, pending: bool)
      requires IndexAgrees(active, signalByMessage) && AllWellFormed(active) && pendingIds <= active.Keys
      requires WellFormed(signal.id, signal)
      requires forall m :: m in signal.related && m in signalByMessage ==> signalByMessage[m] == signal.id
      requires signal.id in active ==> forall m :: m in active[signal.id].related ==> m in signal.related
      modifies this`active, this`pendingIds, this`signalByMessage
      ensures IndexAgrees(active, signalByMessage) && AllWellFormed(active) && pendingIds <= active.Keys
      ensures active == old(active)[signal.id := signal]
      ensures pendingIds == if pending then old(pendingIds) + {signal.id} else old(pendingIds) - {signal.id}
      ensures signalByMessage == Filed(old(signalByMessage), signal.related, signal.id)
    {
      hide IndexAgrees, Filed, WellFormed;
      FilingKeepsIndex(active, signalByMessage, signal);
      FiledSteps(signalByMessage, [], 0, signal.id);
      active := active[signal.id := signal];
      for i := 0 to |signal.related|
        invariant active == old(active)[signal.id := signal] && pendingIds == old(pendingIds)
        invariant signalByMessage == Filed(old(signalByMessage), signal.related[..i], signal.id)
      {
        assert signal.related[..i + 1] == signal.related[..i] + [signal.related[i]];
        FiledSteps(old(signalByMessage), signal.related[..i], signal.related[i], signal.id);
        signalByMessage := signalByMessage[signal.related[i] := signal.id];
      }
      assert signal.related[..|signal.related|] == signal.related;
      pendingIds := if pending then pendingIds + {signal.id} else pendingIds - {signal.id};
    }

    predicate WithinWindow(s: SignalState, now: int) { now <= s.updatedAt + window }

    method AttachMessage(id: SignalId, m: Message)
      requires Valid() && id in active && (m.id in signalByMessage ==> signalByMessage[m.id] == id)
      modifies this`active, this`signalByMessage
      ensures Valid()
      ensures var was := old(active)[id];
              active == old(active)[id := was.(
                related := if m.id in was.related then was.related else was.related + [m.id],
                updatedAt := MaxInt(MaxInt(was.createdAt, was.updatedAt), m.date))]
      ensures signalByMessage == old(signalByMessage)[m.id := id]
    {
      var signal := active[id];
      if m.id !in signal.related {
        signal := signal.(related := signal.related + [m.id]);
      }
      signal := signal.(updatedAt := MaxInt(MaxInt(signal.createdAt, signal.updatedAt), m.date));
      active := active[id := signal];
      signalByMessage := signalByMessage[m.id := id];
    }

    method MergeSignal(id: SignalId, parsed: Draft, at: int)
      requires Valid() && id in active
      modifies this`active
      ensures Valid()
      ensures var was := old(active)[id];
              active == old(active)[id := was.(
                current := MergeDrafts(was.current, parsed),
                updatedAt := MaxInt(MaxInt(was.createdAt, was.updatedAt), at),
                version := was.version + 1)]
    {
      hide MergeDrafts;
      var signal := active[id];
      signal := signal.(current := MergeDrafts(signal.current, parsed));
      signal := signal.(updatedAt := MaxInt(MaxInt(signal.createdAt, signal.updatedAt), at));
      active := active[id := signal.(version := signal.version + 1)];
    }
  }
}
