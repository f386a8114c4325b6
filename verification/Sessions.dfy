/** What becomes of sessions: requests, account switches, removal; and the shared maps. */
module Sessions {
  import opened Types
  import opened MethodFilter
  import opened WalletConnect

  // ----- requests --------------------------------------------------------------------------

  /** Undisturbed, a request is passed on exactly if its session is stored, has not expired, allows
      the method and has its handler; whatever happens, no map changes. */
  lemma RequestIsForwardedIff(s: State, i: nat, supported: set<string>)
    requires i < |s.tasks| && s.tasks[i].Requesting?
    ensures var topic, method_ := s.tasks[i].topic, s.tasks[i].method_;
            var checked := Step(s, CheckRequest(i), supported);
            var passes := topic in s.sessions && s.clock <= s.sessions[topic].expiry
                          && method_ in s.sessions[topic].methods;
            && (Enabled(checked, ForwardRequest(i)) <==> passes)
            && (!passes ==> checked == s.(tasks := s.tasks[i := Finished]))
            && (passes ==>
                  Step(checked, ForwardRequest(i), supported) ==
                  s.(tasks := s.tasks[i := Finished],
                     trace := s.trace + if topic !in s.handlers then []
                              else [Forwarded(topic, method_, s.sessions[topic].proposal, s.sessions[topic].expiry,
                                              s.clock)]))
  {
  }

  /** Switching the account of a session changes its address and nothing else, whatever became of
      the session meanwhile. */
  lemma AccountSwitchChangesTheAddress(s: State, i: nat, supported: set<string>)
    requires i < |s.tasks| && s.tasks[i].SwitchingAccount?
    ensures var t, topic := Step(s, WriteAccount(i), supported), s.tasks[i].topic;
            && t.sessions.Keys == s.sessions.Keys
            && (forall other :: other in s.sessions && other != topic ==> t.sessions[other] == s.sessions[other])
            && (topic in s.sessions ==>
                  && t.sessions[topic].address == s.tasks[i].address
                  && t.sessions[topic].methods == s.sessions[topic].methods
                  && t.sessions[topic].expiry == s.sessions[topic].expiry
                  && t.sessions[topic].proposal == s.sessions[topic].proposal)
            && t == s.(sessions := t.sessions, tasks := s.tasks[i := Finished])
  {
  }

  /** A session is removed with its handler, whether the dApp deletes it or the user disconnects. */
  lemma SessionEndsWhenAsked(s: State, a: Action, topic: Topic, supported: set<string>)
    requires topic in s.sessions && (a == DeliverDelete(topic) || a == Disconnect(topic))
    ensures StepAll(s, [a, RemoveSession(|s.tasks|), DropHandler(|s.tasks|)], supported) ==
            Some(s.(sessions := s.sessions - {topic}, handlers := s.handlers - {topic}, tasks := s.tasks + [Finished]))
  {
    var n, t, end := |s.tasks|, Step(s, a, supported), [RemoveSession(|s.tasks|), DropHandler(|s.tasks|)];
    assert [a, RemoveSession(n), DropHandler(n)][1..] == end;
    StepAllOfTwo(t, RemoveSession(n), DropHandler(n), supported);
    assert t.tasks[n := Dropping(topic)][n := Finished] == s.tasks + [Finished];
  }

  /** An account switch asked for writes the address; a request delivered waits for its checks. */
  lemma SessionTasksStart(s: State, topic: Topic, method_: string, address: Address, supported: set<string>)
    requires topic in s.sessions
    ensures StepAll(s, [SwitchAccount(topic, address), WriteAccount(|s.tasks|)], supported) ==
            Some(s.(sessions := s.sessions[topic := s.sessions[topic].(address := address)],
                    tasks := s.tasks + [Finished]))
    ensures Step(s, DeliverRequest(topic, method_), supported) == s.(tasks := s.tasks + [Requesting(topic, method_)])
  {
    var n := |s.tasks|;
    StepAllOfTwo(s, SwitchAccount(topic, address), WriteAccount(n), supported);
    assert (s.tasks + [SwitchingAccount(topic, address)])[n := Finished] == s.tasks + [Finished];
  }

  // ----- a session that was removed --------------------------------------------------------

  /** The topic was used, has no handler, and no task is about to store a session for it. */
  ghost predicate Gone(s: State, topic: Topic) {
    && topic in s.used && topic !in s.handlers
    && forall i :: 0 <= i < |s.tasks| ==> ToStore(s.tasks[i]) != Some(topic)
  }

  lemma StepKeepsGone(s: State, a: Action, topic: Topic, supported: set<string>)
    requires Gone(s, topic) && Enabled(s, a)
    ensures Gone(Step(s, a, supported), topic)
    ensures var t := Step(s, a, supported);
            t.trace == s.trace
            || (exists e :: t.trace == s.trace + [e] && !(e.Forwarded? && e.topic == topic))
  {
    hide Authorised, Filtered;
    if a.ForwardRequest? && s.tasks[a.task].topic !in s.handlers {
      assert s.trace + [] == s.trace;
    }
  }

  /** Once the handler of a used topic is gone and nobody is about to store the topic, no later step
      of any run forwards a request on it. */
  lemma {:induction false} GoneNeverForwards(s: State, actions: seq<Action>, topic: Topic, supported: set<string>)
    requires Gone(s, topic) && StepAll(s, actions, supported).Some?
    ensures var t := StepAll(s, actions, supported).value;
            && Gone(t, topic) && s.trace <= t.trace
            && forall k :: |s.trace| <= k < |t.trace| && t.trace[k].Forwarded? ==> t.trace[k].topic != topic
    decreases |actions|
  {
    if actions != [] {
      hide Gone, Step, Enabled;
      StepKeepsGone(s, actions[0], topic, supported);
      GoneNeverForwards(Step(s, actions[0], supported), actions[1..], topic, supported);
    }
  }

  /** Dropping the handler gets a topic there: nothing else can be about to store it. */
  lemma DropMakesGone(s: State, i: nat, supported: set<string>)
    requires SessionsHaveHandlers(s) && i < |s.tasks| && s.tasks[i].Dropping?
    ensures Gone(Step(s, DropHandler(i), supported), s.tasks[i].topic)
  {
    var topic, t := s.tasks[i].topic, Step(s, DropHandler(i), supported);
    forall j | 0 <= j < |t.tasks|
      ensures ToStore(t.tasks[j]) != Some(topic)
    {
      assert ToDrop(s.tasks[i]) == Some(topic);
      assert j != i ==> ToStore(s.tasks[j]).Some? ==> ToStore(s.tasks[j]) != ToDrop(s.tasks[i]);
    }
  }

  /** Until then a request that was checked before the session was removed is still forwarded. */
  lemma CheckedRequestOutlivesSession(s: State, i: nat, j: nat, supported: set<string>)
    requires SessionsHaveHandlers(s) && i < |s.tasks| && j < |s.tasks|
    requires s.tasks[i].Requesting? && s.tasks[j] == Deleting(s.tasks[i].topic)
    requires Authorised(s.sessions, s.tasks[i].topic, s.tasks[i].method_, s.clock).Some?
    ensures var topic, t := s.tasks[i].topic, StepAll(s, [CheckRequest(i), RemoveSession(j)], supported);
            && t.Some? && topic !in t.value.sessions
            && Enabled(t.value, ForwardRequest(i))
            && var u := Step(t.value, ForwardRequest(i), supported);
               |u.trace| == |s.trace| + 1 && u.trace[|s.trace|].Forwarded? && u.trace[|s.trace|].topic == topic
  {
    StepAllOfTwo(s, CheckRequest(i), RemoveSession(j), supported);
  }

  // ----- the maps as the functions of the source change them ---------------------------------

  datatype Maps = Maps(pairings: set<Topic>, sessions: map<Topic, Session>, handlers: set<Topic>)

  function MapsOf(s: State): Maps {
    Maps(s.pairings, s.sessions, s.handlers)
  }

  /** The shared maps, changed by one function at a time. */
  class SharedMaps {
    var pairings: set<Topic>
    var inFlight: set<Topic>
    var sessions: map<Topic, Session>
    var handlers: set<Topic>

    function Contents(): Maps
      reads this
    {
      Maps(pairings, sessions, handlers)
    }

    ghost predicate Valid()
      reads this
    {
      sessions.Keys <= handlers
    }

    constructor ()
      ensures Valid() && Contents() == MapsOf(INITIAL) && inFlight == {}
    {
      pairings, inFlight, sessions, handlers := {}, {}, map[], {};
    }

    /** `start_proposal`: false for a proposal that is already in flight. */
    method StartProposal(pairing: Topic) returns (started: bool)
      modifies this`inFlight
      ensures started <==> pairing !in old(inFlight)
      ensures inFlight == old(inFlight) + {pairing}
    {
      started := pairing !in inFlight;
      inFlight := inFlight + {pairing};
    }

    /** The end of `settle_session`: handler first, then session, then the pairing goes. */
    method StoreSession(pairing: Topic, topic: Topic, session: Session)
      requires Valid()
      modifies this`pairings, this`sessions, this`handlers
      ensures Valid()
      ensures Contents() == SettledMaps(old(Contents()), pairing, topic, session)
    {
      handlers := handlers + {topic};
      sessions := sessions[topic := session];
      pairings := pairings - {pairing};
    }

    /** `handle_request`: may this request be passed on to the session's handler? */
    method HandleRequest(topic: Topic, method_: string, now: nat) returns (forward: bool)
      requires Valid()
      ensures forward <==>
              topic in sessions && now <= sessions[topic].expiry && method_ in sessions[topic].methods
    {
      if topic !in sessions {
        return false;
      }
      var session := sessions[topic];
      if now > session.expiry {
        return false;
      }
      if method_ !in session.methods {
        return false;
      }
      forward := topic in handlers;
    }

    /** `disconnect`; `notified` says whether telling the dApp and the relay worked. */
    method Disconnect(topic: Topic, notified: bool) returns (ok: bool)
      requires Valid()
      modifies this`sessions, this`handlers
      ensures Valid()
      ensures ok <==> topic in old(sessions) && notified
      ensures Contents() == if ok then RemovedMaps(old(Contents()), topic) else old(Contents())
    {
      if topic !in sessions || !notified {
        return false;
      }
      sessions := sessions - {topic};
      handlers := handlers - {topic};
      return true;
    }

    /** `disconnect_all`: a session whose notification fails stays, the others go. */
    method DisconnectAll(notified: Topic -> bool)
      requires Valid()
      modifies this`sessions, this`handlers
      ensures Valid()
      ensures sessions == map topic | topic in old(sessions) && !notified(topic) :: old(sessions)[topic]
      ensures handlers == old(handlers) - set topic | topic in old(sessions) && notified(topic)
    {
      var rest := sessions.Keys;
      while rest != {}
        invariant Valid() && rest <= old(sessions).Keys && rest <= sessions.Keys
        invariant sessions == map topic | topic in old(sessions) && (topic in rest || !notified(topic))
                                        :: old(sessions)[topic]
        invariant handlers == old(handlers) - set topic | topic in old(sessions) && topic !in rest && notified(topic)
        decreases |rest|
      {
        var topic :| topic in rest;
        rest := rest - {topic};
        var ok := Disconnect(topic, notified(topic));
      }
    }

    /** `switch_account`; `told` says whether both messages to the dApp went out. */
    method SwitchAccount(topic: Topic, address: Address, told: bool) returns (ok: bool)
      requires Valid()
      modifies this`sessions
      ensures Valid() && (ok <==> topic in old(sessions) && told)
      ensures sessions == if ok then old(sessions)[topic := old(sessions)[topic].(address := address)]
                          else old(sessions)
    {
      if topic !in sessions || !told {
        return false;
      }
      sessions := sessions[topic := sessions[topic].(address := address)];
      return true;
    }
  }

  function SettledMaps(m: Maps, pairing: Topic, topic: Topic, session: Session): Maps {
    Maps(m.pairings - {pairing}, m.sessions[topic := session], m.handlers + {topic})
  }

  function RemovedMaps(m: Maps, topic: Topic): Maps {
    Maps(m.pairings, m.sessions - {topic}, m.handlers - {topic})
  }

  /** Undisturbed, the lock-granular steps of a task do to the maps what its function does. */
  lemma StepsMakeUpFunctions(s: State, i: nat, supported: set<string>)
    requires i < |s.tasks|
    ensures s.tasks[i].Keyed? ==>
              var t := StepAll(s, [InsertHandler(i), InsertSession(i), RemovePairing(i)], supported);
              && t.Some?
              && MapsOf(t.value) == SettledMaps(MapsOf(s), s.tasks[i].pairing, s.tasks[i].topic, s.tasks[i].session)
    ensures s.tasks[i].Deleting? || s.tasks[i].Disconnecting? ==>
              var t := StepAll(s, [RemoveSession(i), DropHandler(i)], supported);
              t.Some? && MapsOf(t.value) == RemovedMaps(MapsOf(s), s.tasks[i].topic)
  {
    if s.tasks[i].Keyed? {
      var store, unpair := [InsertHandler(i), InsertSession(i)], [RemovePairing(i)];
      assert store + unpair == [InsertHandler(i), InsertSession(i), RemovePairing(i)];
      StepAllSplits(s, store, unpair, supported);
      StepAllOfTwo(s, InsertHandler(i), InsertSession(i), supported);
      assert unpair[1..] == [];
    } else if s.tasks[i].Deleting? || s.tasks[i].Disconnecting? {
      StepAllOfTwo(s, RemoveSession(i), DropHandler(i), supported);
    }
  }
}
