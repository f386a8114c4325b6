/** The counter that debounces contract updates, and the mailbox its messages go through. */
module Debounce {
  /** `Work` is any other message; its handler asks for an update that many times. */
  datatype Msg = Work(triggers: nat) | UpdateContracts

  /** What the actor does about updates, in order; `sent` says whether the message went out, and
      `complete` whether the pass over the contracts got to its end. */
  datatype Event = Trigger(sent: bool) | Skip | Pass(complete: bool) | Panic

  /** `busy` counts the updates the running handler is still going to ask for. */
  datatype State = State(triggers: nat, mailbox: seq<Msg>, busy: nat, log: seq<Event>)

  /** `Take` with the outcome of the pass, should there be one. */
  datatype Action = Post(triggers: nat) | Take(complete: bool) | Ask(sent: bool)

  const START: State := State(0, [], 0, [])

  /** `trigger_update_contracts`; a message that cannot be sent is dropped. */
  function Triggered(s: State, sent: bool): State {
    s.(triggers := s.triggers + 1,
       mailbox := if sent then s.mailbox + [UpdateContracts] else s.mailbox,
       log := s.log + [Trigger(sent)])
  }

  /** `update_contracts`; the unsigned counter cannot go below zero. */
  function Updated(s: State, complete: bool): State {
    if s.triggers == 0 then s.(log := s.log + [Panic])
    else if s.triggers > 1 then s.(triggers := s.triggers - 1, log := s.log + [Skip])
    else s.(triggers := 0, log := s.log + [Pass(complete)])
  }

  /** Outsiders post at any time; the actor takes one message at a time; other steps change nothing. */
  function Step(s: State, a: Action): State {
    match a
    case Post(n) => s.(mailbox := s.mailbox + [Work(n)])
    case Ask(sent) =>
      if s.busy == 0 then s else Triggered(s.(busy := s.busy - 1), sent)
    case Take(complete) =>
      if s.busy > 0 || s.mailbox == [] then s
      else
        var rest := s.(mailbox := s.mailbox[1..]);
        match s.mailbox[0]
        case Work(n) => rest.(busy := n)
        case UpdateContracts => Updated(rest, complete)
  }

  function Run(actions: seq<Action>): State {
    if actions == [] then START else Step(Run(actions[..|actions| - 1]), actions[|actions| - 1])
  }

  // ----- what the log says -----------------------------------------------------------------

  function Queued(mailbox: seq<Msg>): nat {
    if mailbox == [] then 0
    else Queued(mailbox[..|mailbox| - 1]) + if mailbox[|mailbox| - 1].UpdateContracts? then 1 else 0
  }

  function Passes(log: seq<Event>): nat {
    if log == [] then 0 else Passes(log[..|log| - 1]) + if log[|log| - 1].Pass? then 1 else 0
  }

  function Lost(log: seq<Event>): nat {
    if log == [] then 0 else Lost(log[..|log| - 1]) + if log[|log| - 1] == Trigger(false) then 1 else 0
  }

  /** Updates asked for and not handled yet. */
  function Pending(log: seq<Event>): int {
    if log == [] then 0
    else
      match log[|log| - 1]
      case Trigger(_) => Pending(log[..|log| - 1]) + 1
      case Skip => Pending(log[..|log| - 1]) - 1
      case Pass(_) => Pending(log[..|log| - 1]) - 1
      case Panic => Pending(log[..|log| - 1])
  }

  /** A burst begins with an update asked for while none is pending. */
  function Bursts(log: seq<Event>): nat {
    if log == [] then 0
    else
      var before := log[..|log| - 1];
      Bursts(before) + if log[|log| - 1].Trigger? && Pending(before) == 0 then 1 else 0
  }

  /** Every update asked for is followed by a complete pass over the contracts. */
  ghost predicate AllServed(log: seq<Event>) {
    forall i :: 0 <= i < |log| && log[i].Trigger? ==> exists j :: i < j < |log| && log[j] == Pass(true)
  }

  /** The latest pass, if there was one, got to its end. */
  predicate LastPassCompleted(log: seq<Event>) {
    log == [] || (if log[|log| - 1].Pass? then log[|log| - 1].complete else LastPassCompleted(log[..|log| - 1]))
  }

  // ----- the actor's two members -----------------------------------------------------------

  class SolArtifactsActor {
    var updateContractsTriggers: nat
    var mailbox: seq<Msg>
    var busy: nat
    ghost var log: seq<Event>

    ghost function Now(): State
      reads this
    {
      State(updateContractsTriggers, mailbox, busy, log)
    }

    method TriggerUpdateContracts(sent: bool)
      modifies this
      ensures Now() == Triggered(old(Now()), sent)
    {
      updateContractsTriggers := updateContractsTriggers + 1;
      if sent {
        mailbox := mailbox + [Msg.UpdateContracts];
      }
      log := log + [Trigger(sent)];
    }

    /** Says whether the contracts were gone over; the database decides whether to the end. */
    method UpdateContracts(complete: bool) returns (passed: bool)
      modifies this
      ensures Now() == Updated(old(Now()), complete)
      ensures passed <==> old(updateContractsTriggers) == 1
    {
      if updateContractsTriggers == 0 {
        log := log + [Panic];
        return false;
      }
      updateContractsTriggers := updateContractsTriggers - 1;
      if updateContractsTriggers > 0 {
        log := log + [Skip];
        return false;
      }
      log := log + [Pass(complete)];
      return true;
    }
  }

  // ----- what every run keeps --------------------------------------------------------------

  lemma {:induction false} QueuedOfTail(mailbox: seq<Msg>)
    requires mailbox != []
    ensures Queued(mailbox) == Queued(mailbox[1..]) + if mailbox[0].UpdateContracts? then 1 else 0
  {
    if |mailbox| > 1 {
      var front := mailbox[..|mailbox| - 1];
      QueuedOfTail(front);
      assert front[1..] == mailbox[1..][..|mailbox| - 2];
    }
  }

  lemma QueuedOfSnoc(mailbox: seq<Msg>, m: Msg)
    ensures Queued(mailbox + [m]) == Queued(mailbox) + if m.UpdateContracts? then 1 else 0
  {
    assert (mailbox + [m])[..|mailbox|] == mailbox;
  }

  lemma LogOfSnoc(log: seq<Event>, e: Event)
    ensures Passes(log + [e]) == Passes(log) + if e.Pass? then 1 else 0
    ensures Lost(log + [e]) == Lost(log) + if e == Trigger(false) then 1 else 0
    ensures Pending(log + [e])
            == Pending(log) + (match e case Trigger(_) => 1 case Skip => -1 case Pass(_) => -1 case Panic => 0)
    ensures Bursts(log + [e]) == Bursts(log) + if e.Trigger? && Pending(log) == 0 then 1 else 0
    ensures LastPassCompleted(log + [e]) <==> if e.Pass? then e.complete else LastPassCompleted(log)
  {
    assert (log + [e])[..|log|] == log;
  }

  lemma {:induction false} LostMeans(log: seq<Event>)
    ensures Lost(log) == 0 <==> forall i :: 0 <= i < |log| ==> log[i] != Trigger(false)
  {
    if log != [] {
      var front := log[..|log| - 1];
      LostMeans(front);
      assert forall i :: 0 <= i < |front| ==> front[i] == log[i];
    }
  }

  /** After a lost message no pass happens any more. */
  ghost predicate LossIsFinal(log: seq<Event>) {
    forall i, j :: 0 <= i < j < |log| && log[i] == Trigger(false) ==> !log[j].Pass?
  }

  ghost predicate Counted(s: State) {
    s.triggers == Queued(s.mailbox) + Lost(s.log) && s.triggers == Pending(s.log)
  }

  ghost predicate Invariant(s: State) {
    && Counted(s)
    && (forall i :: 0 <= i < |s.log| ==> !s.log[i].Panic?)
    && Passes(s.log) + (if s.triggers > 0 then 1 else 0) == Bursts(s.log)
    && (s.triggers > 0 ==> !AllServed(s.log))
    && (s.triggers == 0 ==> (AllServed(s.log) <==> LastPassCompleted(s.log)))
    && LossIsFinal(s.log)
  }

  lemma AskKeeps(s: State, sent: bool)
    requires Invariant(s)
    ensures Invariant(Triggered(s, sent))
  {
    QueuedOfSnoc(s.mailbox, UpdateContracts);
    LogOfSnoc(s.log, Trigger(sent));
    ServedAfter(s.log, Trigger(sent));
  }

  lemma HandlingKeeps(s: State, complete: bool)
    requires Invariant(s) && s.mailbox != [] && s.mailbox[0].UpdateContracts?
    ensures Invariant(Updated(s.(mailbox := s.mailbox[1..]), complete))
  {
    QueuedOfTail(s.mailbox);
    LogOfSnoc(s.log, Skip);
    LogOfSnoc(s.log, Pass(complete));
    if s.triggers == 1 {
      LostMeans(s.log);
      ServedAfter(s.log, Pass(complete));
    } else {
      ServedAfter(s.log, Skip);
    }
  }

  /** A complete pass serves everything asked for before, any other event nothing. */
  lemma ServedAfter(log: seq<Event>, e: Event)
    ensures AllServed(log + [e]) <==> e == Pass(true) || (AllServed(log) && !e.Trigger?)
  {
    var longer := log + [e];
    assert longer[|log|] == e;
    if AllServed(log) && !e.Trigger? {
      forall i | 0 <= i < |longer| && longer[i].Trigger?
        ensures exists j :: i < j < |longer| && longer[j] == Pass(true)
      {
        assert log[i].Trigger?;
        var j :| i < j < |log| && log[j] == Pass(true);
        assert longer[j] == Pass(true);
      }
    }
    if AllServed(longer) && e != Pass(true) {
      forall i | 0 <= i < |log| && log[i].Trigger?
        ensures exists j :: i < j < |log| && log[j] == Pass(true)
      {
        assert longer[i].Trigger?;
        var j :| i < j < |longer| && longer[j] == Pass(true);
        assert log[j] == Pass(true);
      }
    }
  }

  lemma StepKeeps(s: State, a: Action)
    requires Invariant(s)
    ensures Invariant(Step(s, a))
  {
    match a
    case Post(n) => QueuedOfSnoc(s.mailbox, Work(n));
    case Ask(sent) =>
      if s.busy > 0 {
        AskKeeps(s.(busy := s.busy - 1), sent);
      }
    case Take(complete) =>
      if s.busy == 0 && s.mailbox != [] {
        if s.mailbox[0].UpdateContracts? {
          HandlingKeeps(s, complete);
        } else {
          QueuedOfTail(s.mailbox);
        }
      }
  }

  lemma EmptyIsFine(s: State)
    requires s.log == [] && s.mailbox == [] && s.triggers == 0
    ensures Invariant(s)
  {
  }

  lemma {:induction false} RunsKeepInvariant(actions: seq<Action>)
    ensures Invariant(Run(actions))
  {
    if actions == [] {
      EmptyIsFine(START);
    } else {
      var before := Run(actions[..|actions| - 1]);
      RunsKeepInvariant(actions[..|actions| - 1]);
      StepKeeps(before, actions[|actions| - 1]);
    }
  }

  // ----- the claims ------------------------------------------------------------------------

  /** The counter is the number of queued updates plus those that could not be sent, and never
      goes below zero. */
  lemma CounterCountsQueue(actions: seq<Action>)
    ensures var s := Run(actions);
            && s.triggers == Queued(s.mailbox) + Lost(s.log)
            && forall i :: 0 <= i < |s.log| ==> !s.log[i].Panic?
  {
    RunsKeepInvariant(actions);
  }

  /** Each maximal burst of updates asked for gets one pass, when its last message is handled. */
  lemma OnePassPerBurst(actions: seq<Action>)
    ensures var s := Run(actions);
            Passes(s.log) == Bursts(s.log) - if s.triggers > 0 then 1 else 0
  {
    RunsKeepInvariant(actions);
  }

  /** Once no update is queued, every update asked for was followed by a complete pass, if and only
      if every message could be sent and the last pass got to its end. */
  lemma ServedIffSentAndCompleted(actions: seq<Action>)
    requires Queued(Run(actions).mailbox) == 0
    ensures AllServed(Run(actions).log) <==>
            Lost(Run(actions).log) == 0 && LastPassCompleted(Run(actions).log)
  {
    RunsKeepInvariant(actions);
  }

  lemma RunOfSnoc(actions: seq<Action>, a: Action)
    ensures Run(actions + [a]) == Step(Run(actions), a)
  {
    assert (actions + [a])[..|actions|] == actions;
  }

  /** One message that could not be sent stops all later passes. */
  lemma {:induction false} OneLossStopsAllPasses(before: seq<Action>, after: seq<Action>)
    requires Lost(Run(before).log) > 0
    ensures Lost(Run(before + after).log) > 0
    ensures Passes(Run(before + after).log) == Passes(Run(before).log)
    decreases |after|
  {
    if after == [] {
      assert before + after == before;
    } else {
      var front, last := after[..|after| - 1], after[|after| - 1];
      OneLossStopsAllPasses(before, front);
      assert before + after == (before + front) + [last];
      RunOfSnoc(before + front, last);
      LossBlocksPass(before + front, last);
    }
  }

  lemma LossBlocksPass(actions: seq<Action>, a: Action)
    requires Lost(Run(actions).log) > 0
    ensures Lost(Step(Run(actions), a).log) > 0
    ensures Passes(Step(Run(actions), a).log) == Passes(Run(actions).log)
  {
    var s := Run(actions);
    RunsKeepInvariant(actions);
    forall e: Event
      ensures Passes(s.log + [e]) == Passes(s.log) + if e.Pass? then 1 else 0
      ensures Lost(s.log + [e]) >= Lost(s.log)
    {
      LogOfSnoc(s.log, e);
    }
    if s.mailbox != [] {
      QueuedOfTail(s.mailbox);
    }
  }

  /** A concrete case: once the first update's message is lost, nothing that follows is a pass. */
  lemma LostMessageFreezesUpdates(after: seq<Action>)
    ensures Passes(Run([Post(1), Take(true), Ask(false)] + after).log) == 0
  {
    RunOfSnoc([], Post(1));
    RunOfSnoc([Post(1)], Take(true));
    RunOfSnoc([Post(1), Take(true)], Ask(false));
    assert [] + [Post(1)] == [Post(1)] && [Post(1)] + [Take(true)] == [Post(1), Take(true)];
    assert [Post(1), Take(true)] + [Ask(false)] == [Post(1), Take(true), Ask(false)];
    LogOfSnoc([], Trigger(false));
    assert [] + [Trigger(false)] == [Trigger(false)];
    OneLossStopsAllPasses([Post(1), Take(true), Ask(false)], after);
  }
}
