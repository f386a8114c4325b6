/** What becomes of proposals: settled, refused, failed or delivered twice. */
module Proposals {
  import opened Types
  import opened MethodFilter
  import opened WalletConnect

  // ----- a proposal the user approves ------------------------------------------------------

  /** One proposal the user approves, from its start to its end, undisturbed. */
  function Settlement(i: nat, payload: Payload, topic: Topic, address: Address): seq<Action> {
    Opening(i, payload, topic, address) + [InsertHandler(i), InsertSession(i), RemovePairing(i), FinishProposal(i)]
  }

  function Opening(i: nat, payload: Payload, topic: Topic, address: Address): seq<Action> {
    [StartProposal(i, Some(payload)), Answer(i, true), Derive(i, topic, address)]
  }

  function Approvable(payload: Payload, supported: set<string>): bool {
    Filtered(payload.required, payload.optional, supported).Ok?
  }

  function SettledSession(s: State, i: nat, payload: Payload, address: Address, supported: set<string>): Session
    requires Approvable(payload, supported)
  {
    Session(Filtered(payload.required, payload.optional, supported).value, s.clock + LIFETIME, address, i)
  }

  /** The task waits for the in-flight mark, which is free, and the topic is fresh. */
  predicate CanOpen(s: State, i: nat, pairing: Topic, topic: Topic) {
    i < |s.tasks| && s.tasks[i] == Checking(pairing) && pairing !in s.inFlight && topic !in s.used
  }

  lemma OpeningDerives(s: State, i: nat, pairing: Topic, payload: Payload, topic: Topic, address: Address,
                       supported: set<string>)
    requires CanOpen(s, i, pairing, topic) && Approvable(payload, supported)
    ensures var session := SettledSession(s, i, payload, address, supported);
            StepAll(s, Opening(i, payload, topic, address), supported) ==
            Some(s.(inFlight := s.inFlight + {pairing}, used := s.used + {topic},
                    trace := s.trace + [Approved(i, payload.required, payload.optional, session.methods)],
                    tasks := s.tasks[i := Keyed(pairing, topic, session)]))
  {
    hide Filtered;
    var session := SettledSession(s, i, payload, address, supported);
    var opening := Opening(i, payload, topic, address);
    var one := Step(s, opening[0], supported);
    var two := Step(one, Answer(i, true), supported);
    assert two.tasks == s.tasks[i := Settling(pairing, session.methods)];
    var three := Step(two, Derive(i, topic, address), supported);
    assert three.tasks == s.tasks[i := Keyed(pairing, topic, session)];
    assert opening[1..] == [Answer(i, true), Derive(i, topic, address)];
    assert opening[1..][1..] == [Derive(i, topic, address)];
    assert StepAll(two, [Derive(i, topic, address)], supported) == Some(three);
  }

  /** A delivery that found its pairing settles a session whether or not the pairing still exists
      when it asks for the mark. */
  lemma DeliverySettles(s: State, i: nat, pairing: Topic, payload: Payload, topic: Topic, address: Address,
                        supported: set<string>)
    requires CanOpen(s, i, pairing, topic) && Approvable(payload, supported)
    ensures var t := StepAll(s, Settlement(i, payload, topic, address), supported);
            && t.Some?
            && t.value.sessions == s.sessions[topic := SettledSession(s, i, payload, address, supported)]
            && t.value.sessions[topic].expiry == s.clock + 7 * 24 * 60 * 60
            && t.value.sessions[topic].address == address && t.value.sessions[topic].proposal == i
            && t.value.inFlight == s.inFlight && t.value.pairings == s.pairings - {pairing}
            && t.value.used == s.used + {topic} && t.value.tasks == s.tasks[i := Finished]
  {
    hide Filtered;
    var opening := Opening(i, payload, topic, address);
    OpeningDerives(s, i, pairing, payload, topic, address, supported);
    var keyed := StepAll(s, opening, supported).value;
    var store, close := [InsertHandler(i), InsertSession(i)], [RemovePairing(i), FinishProposal(i)];
    assert Settlement(i, payload, topic, address) == opening + (store + close);
    StepAllSplits(s, opening, store + close, supported);
    StepAllSplits(keyed, store, close, supported);
    StepAllOfTwo(keyed, InsertHandler(i), InsertSession(i), supported);
    var stored := StepAll(keyed, store, supported).value;
    assert stored.tasks == s.tasks[i := Stored(pairing)];
    StepAllOfTwo(stored, RemovePairing(i), FinishProposal(i), supported);
  }

  /** So the mark keeps two dialogs from being open at once, but does not make a pairing
      single-use: two deliveries that both found the pairing, one handled after the other, settle
      two sessions. */
  lemma LateDeliverySettlesAgain(s: State, i: nat, j: nat, pairing: Topic, payload: Payload, a: Topic, b: Topic,
                                 address: Address, supported: set<string>)
    requires CanOpen(s, i, pairing, a) && CanOpen(s, j, pairing, b) && i != j && a != b
    requires Approvable(payload, supported)
    ensures var t := StepAll(s, Settlement(i, payload, a, address) + Settlement(j, payload, b, address), supported);
            && t.Some? && a in t.value.sessions && b in t.value.sessions
            && t.value.sessions[a].proposal == i && t.value.sessions[b].proposal == j
            && pairing !in t.value.pairings
  {
    hide Filtered, Settlement, StepAll;
    DeliverySettles(s, i, pairing, payload, a, address, supported);
    var between := StepAll(s, Settlement(i, payload, a, address), supported).value;
    DeliverySettles(between, j, pairing, payload, b, address, supported);
    StepAllSplits(s, Settlement(i, payload, a, address), Settlement(j, payload, b, address), supported);
  }

  // ----- from the first message on -----------------------------------------------------------

  /** A pairing made and used: its proposal, delivered and approved, settles a session and uses the
      pairing up. */
  lemma PairedProposalSettles(s: State, pairing: Topic, payload: Payload, topic: Topic, address: Address,
                              supported: set<string>)
    requires pairing !in s.inFlight && topic !in s.used && Approvable(payload, supported)
    ensures var t := StepAll(s, [Pair(pairing), DeliverProposal(pairing)]
                                + Settlement(|s.tasks|, payload, topic, address), supported);
            && t.Some?
            && t.value.sessions == s.sessions[topic := SettledSession(s, |s.tasks|, payload, address, supported)]
            && t.value.inFlight == s.inFlight && t.value.pairings == s.pairings - {pairing}
  {
    hide Filtered, Settlement;
    var deliver := [Pair(pairing), DeliverProposal(pairing)];
    StepAllOfTwo(s, Pair(pairing), DeliverProposal(pairing), supported);
    var t := StepAll(s, deliver, supported).value;
    assert t == s.(pairings := s.pairings + {pairing}, tasks := s.tasks + [Checking(pairing)]);
    StepAllSplits(s, deliver, Settlement(|s.tasks|, payload, topic, address), supported);
    DeliverySettles(t, |s.tasks|, pairing, payload, topic, address, supported);
    assert s.pairings + {pairing} - {pairing} == s.pairings - {pairing};
  }

  /** Giving up a pairing changes nothing else, and no later proposal finds it until it is paired
      again. */
  lemma UnpairedIsNotFound(s: State, pairing: Topic, supported: set<string>)
    ensures var t := Step(s, Unpair(pairing), supported);
            t == s.(pairings := t.pairings) && t.pairings == s.pairings - {pairing}
            && !Enabled(t, DeliverProposal(pairing))
  {
  }

  // ----- refused proposals -----------------------------------------------------------------

  /** Nothing has come of task `i`: no event, no session, no session on its way. */
  ghost predicate NothingFrom(s: State, i: nat) {
    && (forall k :: 0 <= k < |s.trace| ==> s.trace[k].proposal != i)
    && (forall topic :: topic in s.sessions ==> s.sessions[topic].proposal != i)
    && (forall j :: 0 <= j < |s.tasks| ==> CarriesNothingFrom(s.tasks[j], i))
  }

  predicate CarriesNothingFrom(t: Task, i: nat) {
    t.Keyed? || t.Storing? || t.Forwarding? ==> t.session.proposal != i
  }

  lemma TasksCarryNothingMore(s: State, a: Action, i: nat, supported: set<string>, j: nat)
    requires NothingFrom(s, i) && Enabled(s, a) && !(a.Derive? && a.task == i)
    requires j < |Step(s, a, supported).tasks|
    ensures CarriesNothingFrom(Step(s, a, supported).tasks[j], i)
  {
    hide Filtered;
    if a.CheckRequest? || a.InsertSession? || a.InsertHandler? || a.ForwardRequest? {
      assert CarriesNothingFrom(s.tasks[a.task], i);
    }
    assert j < |s.tasks| ==> CarriesNothingFrom(s.tasks[j], i);
  }

  lemma MapsShowNothingMore(s: State, a: Action, i: nat, supported: set<string>)
    requires NothingFrom(s, i) && Enabled(s, a) && a != Answer(i, true)
    ensures var t := Step(s, a, supported);
            && (forall k :: 0 <= k < |t.trace| ==> t.trace[k].proposal != i)
            && (forall topic :: topic in t.sessions ==> t.sessions[topic].proposal != i)
  {
    hide Considered, Authorised;
    if a.InsertSession? || a.ForwardRequest? {
      assert CarriesNothingFrom(s.tasks[a.task], i);
    }
  }

  lemma StepBringsNothingFrom(s: State, a: Action, i: nat, supported: set<string>)
    requires NothingFrom(s, i) && Enabled(s, a) && a != Answer(i, true) && !(a.Derive? && a.task == i)
    ensures NothingFrom(Step(s, a, supported), i)
  {
    hide Step, Enabled, CarriesNothingFrom;
    MapsShowNothingMore(s, a, i, supported);
    forall j | 0 <= j < |Step(s, a, supported).tasks|
      ensures CarriesNothingFrom(Step(s, a, supported).tasks[j], i)
    {
      TasksCarryNothingMore(s, a, i, supported, j);
    }
  }

  /** Before its dialog is answered with yes, nothing comes of a proposal task. */
  predicate IsEarly(s: State, i: nat) {
    i >= |s.tasks| || s.tasks[i].Checking? || s.tasks[i].Proposing? || s.tasks[i].Rejecting?
  }

  lemma EarlyStaysEarly(s: State, a: Action, i: nat, supported: set<string>)
    requires Enabled(s, a) && IsEarly(Step(s, a, supported), i)
    ensures IsEarly(s, i) && a != Answer(i, true) && !(a.Derive? && a.task == i)
  {
    hide Authorised, Considered;
  }

  lemma NothingAtFirst(i: nat)
    ensures NothingFrom(INITIAL, i)
  {
  }

  lemma {:induction false} NothingFromEarly(states: seq<State>, actions: seq<Action>, supported: set<string>, n: nat,
                                            i: nat)
    requires IsRun(states, actions, supported) && n < |states| && IsEarly(states[n], i)
    ensures NothingFrom(states[n], i)
  {
    hide Step, NothingFrom, IsEarly, Enabled;
    if n == 0 {
      NothingAtFirst(i);
    } else {
      EarlyStaysEarly(states[n - 1], actions[n - 1], i, supported);
      NothingFromEarly(states, actions, supported, n - 1, i);
      StepBringsNothingFrom(states[n - 1], actions[n - 1], i, supported);
    }
  }

  /** The user says no in the dialog of task `i`, or task `i` finds a required method unsupported. */
  ghost predicate Refuses(s: State, a: Action, i: nat, pairing: Topic, supported: set<string>) {
    && Enabled(s, a) && i < |s.tasks|
    && ((a == Answer(i, false) && s.tasks[i].pairing == pairing)
        || (a.StartProposal? && a.task == i && s.tasks[i] == Checking(pairing) && pairing !in s.inFlight
            && a.payload.Some? && exists m :: m in a.payload.value.required && m !in supported))
  }

  /** A refusal opens no dialog and touches nothing but the mark, which it sets or keeps. */
  lemma RefusalRejects(s: State, a: Action, i: nat, pairing: Topic, supported: set<string>)
    requires Refuses(s, a, i, pairing, supported)
    ensures Step(s, a, supported) == s.(tasks := s.tasks[i := Rejecting(pairing)],
                                        inFlight := if a.Answer? then s.inFlight else s.inFlight + {pairing})
  {
    if a.StartProposal? {
      FilterIsExact(a.payload.value.required, a.payload.value.optional, supported);
    }
  }

  /** A refused task is about to remove its pairing, or the pairing is gone. */
  predicate Refused(s: State, i: nat, pairing: Topic) {
    && i < |s.tasks|
    && (s.tasks[i] == Rejecting(pairing)
        || ((s.tasks[i] == Closing(pairing) || s.tasks[i] == Finished) && pairing !in s.pairings))
  }

  lemma StepKeepsRefused(s: State, a: Action, i: nat, pairing: Topic, supported: set<string>)
    requires Refused(s, i, pairing) && Enabled(s, a) && a != Abort(i) && a != Pair(pairing)
    ensures Refused(Step(s, a, supported), i, pairing)
    ensures a != Answer(i, true) && !(a.Derive? && a.task == i)
  {
    hide Authorised, Considered;
  }

  lemma {:induction false} RefusedUntil(states: seq<State>, actions: seq<Action>, supported: set<string>,
                                        k: nat, n: nat, i: nat, pairing: Topic)
    requires IsRun(states, actions, supported) && k < n < |states|
    requires Refuses(states[k], actions[k], i, pairing, supported)
    requires forall j :: k < j < n ==> actions[j] != Abort(i) && actions[j] != Pair(pairing)
    ensures Refused(states[n], i, pairing) && NothingFrom(states[n], i)
  {
    hide Step, NothingFrom, Enabled;
    if n == k + 1 {
      RefusalRejects(states[k], actions[k], i, pairing, supported);
      NothingFromEarly(states, actions, supported, n, i);
    } else {
      RefusedUntil(states, actions, supported, k, n - 1, i, pairing);
      StepKeepsRefused(states[n - 1], actions[n - 1], i, pairing, supported);
      StepBringsNothingFrom(states[n - 1], actions[n - 1], i, supported);
    }
  }

  /** However other tasks interleave, a refused proposal that is not cut short never leads to an
      approval, a session or a request, and once its task is done the pairing is gone, unless it
      was paired again.  Until then a step that brings it closer to its end is always enabled. */
  lemma RefusalEndsThePairing(states: seq<State>, actions: seq<Action>, supported: set<string>,
                              k: nat, n: nat, i: nat, pairing: Topic)
    requires IsRun(states, actions, supported) && k < n < |states|
    requires Refuses(states[k], actions[k], i, pairing, supported)
    requires forall j :: k < j < n ==> actions[j] != Abort(i) && actions[j] != Pair(pairing)
    ensures i < |states[n].tasks|
    ensures states[n].tasks[i].Finished? ==> pairing !in states[n].pairings
    ensures !states[n].tasks[i].Finished? ==>
              Enabled(states[n], RemovePairing(i)) || Enabled(states[n], FinishProposal(i))
    ensures forall e :: e in states[n].trace ==> e.proposal != i
    ensures forall topic :: topic in states[n].sessions ==> states[n].sessions[topic].proposal != i
  {
    RefusedUntil(states, actions, supported, k, n, i, pairing);
  }

  /** Undisturbed, a refusal removes the pairing, frees the mark and changes nothing else. */
  lemma RefusalUndisturbed(s: State, a: Action, i: nat, pairing: Topic, supported: set<string>)
    requires Refuses(s, a, i, pairing, supported)
    ensures StepAll(s, [a, RemovePairing(i), FinishProposal(i)], supported) ==
            Some(s.(pairings := s.pairings - {pairing}, inFlight := s.inFlight - {pairing},
                    tasks := s.tasks[i := Finished]))
  {
    RefusalRejects(s, a, i, pairing, supported);
    var t, close := Step(s, a, supported), [RemovePairing(i), FinishProposal(i)];
    assert [a, RemovePairing(i), FinishProposal(i)][1..] == close;
    StepAllOfTwo(t, RemovePairing(i), FinishProposal(i), supported);
    assert t.inFlight - {pairing} == s.inFlight - {pairing};
    assert t.tasks[i := Closing(pairing)][i := Finished] == s.tasks[i := Finished];
  }

  /** A task that is cut short, or whose proposal is malformed, frees the mark but keeps the pairing,
      so that a redelivery can be handled. */
  lemma FailureKeepsThePairing(s: State, i: nat, supported: set<string>)
    requires i < |s.tasks|
    ensures s.tasks[i].Proposing? || s.tasks[i].Rejecting? || s.tasks[i].Settling? || s.tasks[i].Keyed? ==>
              StepAll(s, [Abort(i), FinishProposal(i)], supported) ==
              Some(s.(inFlight := s.inFlight - {s.tasks[i].pairing}, tasks := s.tasks[i := Finished]))
    ensures s.tasks[i].Checking? && s.tasks[i].pairing !in s.inFlight ==>
              StepAll(s, [StartProposal(i, None), FinishProposal(i)], supported) ==
              Some(s.(tasks := s.tasks[i := Finished]))
  {
    if s.tasks[i].Proposing? || s.tasks[i].Rejecting? || s.tasks[i].Settling? || s.tasks[i].Keyed? {
      StepAllOfTwo(s, Abort(i), FinishProposal(i), supported);
      assert s.tasks[i := Closing(s.tasks[i].pairing)][i := Finished] == s.tasks[i := Finished];
    } else if s.tasks[i].Checking? && s.tasks[i].pairing !in s.inFlight {
      StepAllOfTwo(s, StartProposal(i, None), FinishProposal(i), supported);
      assert s.inFlight + {s.tasks[i].pairing} - {s.tasks[i].pairing} == s.inFlight;
      assert s.tasks[i := Closing(s.tasks[i].pairing)][i := Finished] == s.tasks[i := Finished];
    }
  }

  // ----- exactly when a pairing settles again ----------------------------------------------

  /** The action stores a session of the pairing. */
  predicate Stores(s: State, a: Action, pairing: Topic) {
    Enabled(s, a) && a.InsertSession? && s.tasks[a.task].pairing == pairing
  }

  /** A run that stores a session of the pairing. */
  ghost predicate SettlesFor(s: State, actions: seq<Action>, pairing: Topic, supported: set<string>)
    decreases |actions|
  {
    && actions != [] && Enabled(s, actions[0])
    && (Stores(s, actions[0], pairing)
        || SettlesFor(Step(s, actions[0], supported), actions[1..], pairing, supported))
  }

  predicate Delivered(s: State, pairing: Topic) {
    exists i :: 0 <= i < |s.tasks| && s.tasks[i] == Checking(pairing)
  }

  /** Nothing is left that could still settle the pairing. */
  ghost predicate Spent(s: State, pairing: Topic) {
    && pairing !in s.pairings
    && forall i :: 0 <= i < |s.tasks| ==> s.tasks[i] != Checking(pairing) && LivePairing(s.tasks[i]) != Some(pairing)
  }

  lemma StepKeepsSpent(s: State, a: Action, pairing: Topic, supported: set<string>)
    requires Spent(s, pairing) && Enabled(s, a) && a != Pair(pairing)
    ensures Spent(Step(s, a, supported), pairing) && !Stores(s, a, pairing)
  {
    hide Authorised, Filtered;
  }

  lemma {:induction false} SpentNeverSettles(s: State, actions: seq<Action>, pairing: Topic, supported: set<string>)
    requires Spent(s, pairing) && Pair(pairing) !in actions
    ensures !SettlesFor(s, actions, pairing, supported)
    decreases |actions|
  {
    if actions != [] && Enabled(s, actions[0]) {
      hide Spent, Step, Stores;
      StepKeepsSpent(s, actions[0], pairing, supported);
      SpentNeverSettles(Step(s, actions[0], supported), actions[1..], pairing, supported);
    }
  }

  lemma {:induction false} SettlesAfter(s: State, a: seq<Action>, b: seq<Action>, pairing: Topic,
                                        supported: set<string>)
    requires StepAll(s, a, supported).Some? && SettlesFor(StepAll(s, a, supported).value, b, pairing, supported)
    ensures SettlesFor(s, a + b, pairing, supported)
    decreases |a|
  {
    if a == [] {
      assert a + b == b;
    } else {
      hide Step, Stores;
      assert (a + b)[1..] == a[1..] + b;
      SettlesAfter(Step(s, a[0], supported), a[1..], b, pairing, supported);
    }
  }

  lemma KeyedSettles(s: State, i: nat, supported: set<string>)
    requires i < |s.tasks| && s.tasks[i].Keyed?
    ensures SettlesFor(s, [InsertHandler(i), InsertSession(i)], s.tasks[i].pairing, supported)
  {
    var actions, t := [InsertHandler(i), InsertSession(i)], Step(s, InsertHandler(i), supported);
    assert actions[1..] == [InsertSession(i)];
    assert Stores(t, InsertSession(i), s.tasks[i].pairing);
  }

  lemma DeliveredSettles(s: State, i: nat, pairing: Topic, topic: Topic, supported: set<string>)
    returns (actions: seq<Action>)
    requires CanOpen(s, i, pairing, topic)
    ensures Pair(pairing) !in actions && SettlesFor(s, actions, pairing, supported)
  {
    var payload := Payload(NO_METHODS, NO_METHODS);
    assert NO_METHODS + NO_METHODS == NO_METHODS;
    assert Filtered(NO_METHODS, NO_METHODS, supported) == Ok(NO_METHODS);
    hide Filtered;
    var opening := Opening(i, payload, topic, 0);
    OpeningDerives(s, i, pairing, payload, topic, 0, supported);
    KeyedSettles(StepAll(s, opening, supported).value, i, supported);
    SettlesAfter(s, opening, [InsertHandler(i), InsertSession(i)], pairing, supported);
    actions := opening + [InsertHandler(i), InsertSession(i)];
  }

  /** A pairing that is neither stored nor in flight, as after any settlement, can settle a session
      without being paired again if and only if a delivery that found it earlier still waits for the
      mark. */
  lemma SettlesAgainIffDelivered(s: State, pairing: Topic, topic: Topic, supported: set<string>)
    requires OneLiveProposal(s) && pairing !in s.pairings && pairing !in s.inFlight && topic !in s.used
    ensures (exists actions :: Pair(pairing) !in actions && SettlesFor(s, actions, pairing, supported))
            <==> Delivered(s, pairing)
  {
    if Delivered(s, pairing) {
      var i :| 0 <= i < |s.tasks| && s.tasks[i] == Checking(pairing);
      var actions := DeliveredSettles(s, i, pairing, topic, supported);
    } else {
      forall i | 0 <= i < |s.tasks|
        ensures LivePairing(s.tasks[i]) != Some(pairing)
      {
        assert !IsLive(s, i, pairing);
      }
      forall actions | Pair(pairing) !in actions
        ensures !SettlesFor(s, actions, pairing, supported)
      {
        SpentNeverSettles(s, actions, pairing, supported);
      }
    }
  }
}
