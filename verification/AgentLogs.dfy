/** What an agent did, as a log, and the discipline that every such log keeps. */
module AgentLogs {
  import opened Core
  import opened ChannelContexts

  datatype ProposalKind = CREATE_ORDER | IGNORE_MESSAGE | CANCEL_PENDING_ORDER | CLOSE_POSITION_FULL
                        | UPDATE_LEVERAGE | MOVE_STOP_LOSS | UPDATE_TAKE_PROFIT

  datatype Reason = CONSOLIDATED | INVALID_AFTER_CONSOLIDATION | FOLLOW_UP | AMBIGUOUS_FOLLOW_UP | AMBIGUOUS_RELATION

  datatype Proposal = Proposal(kind: ProposalKind, signalId: Option<SignalId>, reason: Reason,
                               confidence: real, riskIncreasing: bool, messages: seq<int>)

  datatype Entry = Opened(id: SignalId, deadline: int) | Merged(into: SignalId) | Emitted(proposal: Proposal, at: int)

  datatype Phase = Waiting(deadline: int) | Decided(accepted: bool)

  predicate Decides(e: Entry, id: SignalId)
  {
    e.Emitted? && e.proposal.signalId == Some(id) && e.proposal.reason in {CONSOLIDATED, INVALID_AFTER_CONSOLIDATION}
  }

  /** An action about a signal other than its consolidation decision. */
  predicate Follows(e: Entry, id: SignalId)
  {
    e.Emitted? && e.proposal.signalId == Some(id)
    && e.proposal.reason !in {CONSOLIDATED, INVALID_AFTER_CONSOLIDATION}
  }

  function Advance(phases: map<SignalId, Phase>, e: Entry): map<SignalId, Phase>
  {
    match e
    case Opened(id, deadline) => phases[id := Waiting(deadline)]
    case Merged(_) => phases
    case Emitted(p, _) =>
      if p.signalId.Some? && Decides(e, p.signalId.value)
      then phases[p.signalId.value := Decided(p.kind.CREATE_ORDER?)]
      else phases
  }

  /** Where each signal stands after the log. */
  function Phases(log: seq<Entry>): map<SignalId, Phase>
  {
    if log == [] then map[] else Advance(Phases(log[..|log| - 1]), log[|log| - 1])
  }

  function Merges(log: seq<Entry>, id: SignalId): nat
  {
    if log == [] then 0
    else Merges(log[..|log| - 1], id) + (if log[|log| - 1] == Merged(id) then 1 else 0)
  }

  predicate Legal(phases: map<SignalId, Phase>, e: Entry)
  {
    match e
    case Opened(id, _) => id !in phases
    case Merged(id) => id in phases
    case Emitted(p, at) =>
      if p.reason in {CONSOLIDATED, INVALID_AFTER_CONSOLIDATION} then
        && p.signalId.Some? && p.signalId.value in phases
        && phases[p.signalId.value].Waiting? && phases[p.signalId.value].deadline <= at
      else p.signalId.Some? ==> p.signalId.value in phases && phases[p.signalId.value].Decided?
  }

  ghost predicate Disciplined(log: seq<Entry>)
  {
    log != [] ==> Disciplined(log[..|log| - 1]) && Legal(Phases(log[..|log| - 1]), log[|log| - 1])
  }

  lemma LogGrows(log: seq<Entry>, e: Entry)
    requires Disciplined(log) && Legal(Phases(log), e)
    ensures Disciplined(log + [e]) && Phases(log + [e]) == Advance(Phases(log), e)
    ensures forall id :: Merges(log + [e], id) == Merges(log, id) + (if e == Merged(id) then 1 else 0)
  {
    assert (log + [e])[..|log|] == log;
  }

  lemma {:induction false} DisciplinedPrefix(log: seq<Entry>, n: nat)
    requires Disciplined(log) && n <= |log|
    ensures Disciplined(log[..n])
    ensures n < |log| ==> Legal(Phases(log[..n]), log[n]) && Phases(log[..n + 1]) == Advance(Phases(log[..n]), log[n])
  {
    if n == |log| {
      assert log[..n] == log;
    } else if n == |log| - 1 {
      assert log[..n + 1] == log;
    } else {
      var shorter := log[..|log| - 1];
      DisciplinedPrefix(shorter, n);
      assert shorter[..n] == log[..n] && shorter[..n + 1] == log[..n + 1];
    }
  }

  /** A signal never leaves the log, and a decided one stays decided the same way. */
  lemma {:induction false} PhasesPersist(log: seq<Entry>, i: nat, j: nat, id: SignalId)
    requires Disciplined(log) && i <= j <= |log| && id in Phases(log[..i])
    ensures id in Phases(log[..j])
    ensures Phases(log[..i])[id].Decided? ==> Phases(log[..j])[id] == Phases(log[..i])[id]
    decreases j
  {
    if i < j {
      PhasesPersist(log, i, j - 1, id);
      DisciplinedPrefix(log, j - 1);
    }
  }

  /** A phase comes from an entry: the opening with that deadline, or the decision with that verdict. */
  lemma {:induction false} PhaseHasOrigin(log: seq<Entry>, n: nat, id: SignalId) returns (i: nat)
    requires Disciplined(log) && n <= |log| && id in Phases(log[..n])
    ensures i < n
    ensures match Phases(log[..n])[id]
            case Waiting(deadline) => log[i] == Opened(id, deadline)
            case Decided(accepted) => Decides(log[i], id) && accepted == log[i].proposal.kind.CREATE_ORDER?
    decreases n
  {
    if n > 0 {
      DisciplinedPrefix(log, n - 1);
      if id in Phases(log[..n - 1]) && Phases(log[..n])[id] == Phases(log[..n - 1])[id] {
        i := PhaseHasOrigin(log, n - 1, id);
      } else {
        i := n - 1;
      }
    }
  }

  /** A signal is decided at most once. */
  lemma DecidedOnce(log: seq<Entry>, i: nat, j: nat, id: SignalId)
    requires Disciplined(log) && i < |log| && j < |log| && Decides(log[i], id) && Decides(log[j], id)
    ensures i == j
  {
    if i != j {
      var first, second := if i < j then i else j, if i < j then j else i;
      DisciplinedPrefix(log, first);
      DisciplinedPrefix(log, second);
      PhasesPersist(log, first + 1, second, id);
    }
  }

  /** It is opened once, before it is decided, and the decision does not come before its deadline. */
  lemma DecidedNotBeforeDeadline(log: seq<Entry>, j: nat, id: SignalId)
    requires Disciplined(log) && j < |log| && Decides(log[j], id)
    ensures exists i :: 0 <= i < j && log[i].Opened? && log[i].id == id && log[i].deadline <= log[j].at
  {
    DisciplinedPrefix(log, j);
    var i := PhaseHasOrigin(log, j, id);
  }

  lemma OpenedOnce(log: seq<Entry>, i: nat, j: nat)
    requires Disciplined(log) && i < |log| && j < |log| && log[i].Opened? && log[j].Opened? && log[i].id == log[j].id
    ensures i == j
  {
    if i != j {
      var first, second := if i < j then i else j, if i < j then j else i;
      DisciplinedPrefix(log, first);
      DisciplinedPrefix(log, second);
      PhasesPersist(log, first + 1, second, log[i].id);
    }
  }

  /** Every follow-up action about a signal comes after its one decision. */
  lemma FollowUpsComeAfter(log: seq<Entry>, j: nat, id: SignalId)
    requires Disciplined(log) && j < |log| && Follows(log[j], id)
    ensures exists i :: 0 <= i < j && Decides(log[i], id)
  {
    DisciplinedPrefix(log, j);
    var i := PhaseHasOrigin(log, j, id);
  }
}
