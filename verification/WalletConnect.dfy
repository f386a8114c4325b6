/** WalletConnect proposals, sessions and requests as concurrent tasks over shared maps.

    Each action is what one task does while it holds one lock (or between two locks), so a run of
    actions is an interleaving at lock granularity.  Relay, dialogs and clock are inputs. */
module WalletConnect {
  import opened Types
  import opened MethodFilter
  import Sorting

  type Topic = string

  /** One week, in seconds. */
  const LIFETIME: nat := 604800

  /** `proposal` is the task whose approved dialog the session comes from. */
  datatype Session = Session(methods: seq<string>, expiry: nat, address: Address, proposal: nat)

  datatype Task =
    // a delivered proposal that found its pairing
    | Checking(pairing: Topic)
    // the live stages of a proposal task
    | Proposing(pairing: Topic, required: seq<string>, optional: seq<string>, methods: seq<string>)
    | Rejecting(pairing: Topic)
    | Settling(pairing: Topic, methods: seq<string>)
    | Keyed(pairing: Topic, topic: Topic, session: Session)
    | Storing(pairing: Topic, topic: Topic, session: Session)
    | Stored(pairing: Topic)
    | Closing(pairing: Topic)
    // the end of a session
    | Deleting(topic: Topic)
    | Disconnecting(topic: Topic)
    | Dropping(topic: Topic)
    // a request on a session
    | Requesting(topic: Topic, method_: string)
    | Forwarding(topic: Topic, method_: string, session: Session, checked: nat)
    | SwitchingAccount(topic: Topic, address: Address)
    | Finished

  datatype Event =
    | Approved(proposal: nat, required: seq<string>, optional: seq<string>, methods: seq<string>)
    | Settled(topic: Topic, proposal: nat)
    | Forwarded(topic: Topic, method_: string, proposal: nat, expiry: nat, checked: nat)

  /** `used` collects the session topics derived so far; `clock` is the wall clock. */
  datatype State = State(pairings: set<Topic>, inFlight: set<Topic>, sessions: map<Topic, Session>,
                         handlers: set<Topic>, used: set<Topic>, tasks: seq<Task>, trace: seq<Event>,
                         clock: nat)

  const NO_METHODS: seq<string> := []

  const INITIAL := State({}, {}, map[], {}, {}, [], [], 0)

  /** The method lists of a proposal; a proposal missing a field has none. */
  datatype Payload = Payload(required: seq<string>, optional: seq<string>)

  datatype Action =
    | Pair(pairing: Topic)
    | Unpair(pairing: Topic)
    | DeliverProposal(pairing: Topic)
    | StartProposal(task: nat, payload: Option<Payload>)
    | Answer(task: nat, approved: bool)
    | Derive(task: nat, topic: Topic, address: Address)
    | InsertHandler(task: nat)
    | InsertSession(task: nat)
    | RemovePairing(task: nat)
    | Abort(task: nat)
    | FinishProposal(task: nat)
    | DeliverRequest(topic: Topic, method_: string)
    | DeliverDelete(topic: Topic)
    | Disconnect(topic: Topic)
    | RemoveSession(task: nat)
    | DropHandler(task: nat)
    | CheckRequest(task: nat)
    | ForwardRequest(task: nat)
    | SwitchAccount(topic: Topic, address: Address)
    | WriteAccount(task: nat)
    | ClockTick

  // ----- steps -----------------------------------------------------------------------------

  /** The checks of `handle_request`: the session exists, has not expired and allows the method. */
  function Authorised(sessions: map<Topic, Session>, topic: Topic, method_: string, now: nat): Option<Session> {
    if topic in sessions && now <= sessions[topic].expiry && method_ in sessions[topic].methods
    then Some(sessions[topic]) else None
  }

  predicate Enabled(s: State, a: Action) {
    match a
    case DeliverProposal(pairing) => pairing in s.pairings
    case StartProposal(i, _) => i < |s.tasks| && s.tasks[i].Checking?
    case Answer(i, _) => i < |s.tasks| && s.tasks[i].Proposing?
    case Derive(i, topic, _) => i < |s.tasks| && s.tasks[i].Settling? && topic !in s.used
    case InsertHandler(i) => i < |s.tasks| && s.tasks[i].Keyed?
    case InsertSession(i) => i < |s.tasks| && s.tasks[i].Storing?
    case RemovePairing(i) => i < |s.tasks| && (s.tasks[i].Stored? || s.tasks[i].Rejecting?)
    case Abort(i) =>
      i < |s.tasks| && (s.tasks[i].Proposing? || s.tasks[i].Rejecting? || s.tasks[i].Settling? || s.tasks[i].Keyed?
                        || s.tasks[i].Disconnecting?)
    case FinishProposal(i) => i < |s.tasks| && s.tasks[i].Closing?
    case DeliverRequest(topic, _) => topic in s.sessions
    case DeliverDelete(topic) => topic in s.sessions
    case Disconnect(topic) => topic in s.sessions
    case RemoveSession(i) => i < |s.tasks| && (s.tasks[i].Deleting? || s.tasks[i].Disconnecting?)
    case DropHandler(i) => i < |s.tasks| && s.tasks[i].Dropping?
    case CheckRequest(i) => i < |s.tasks| && s.tasks[i].Requesting?
    case ForwardRequest(i) => i < |s.tasks| && s.tasks[i].Forwarding?
    case SwitchAccount(topic, _) => topic in s.sessions
    case WriteAccount(i) => i < |s.tasks| && s.tasks[i].SwitchingAccount?
    case _ => true
  }

  function Spawned(s: State, t: Task): State {
    s.(tasks := s.tasks + [t])
  }

  function Moved(s: State, i: nat, t: Task): State
    requires i < |s.tasks|
  {
    s.(tasks := s.tasks[i := t])
  }

  /** The start of `handle_proposal`: a malformed proposal fails, an unsatisfiable one is rejected,
      any other one opens a dialog with the methods that would be approved. */
  function Considered(pairing: Topic, payload: Option<Payload>, supported: set<string>): Task {
    if payload.None? then Closing(pairing)
    else
      var Payload(required, optional) := payload.value;
      var filtered := Filtered(required, optional, supported);
      if filtered.Ok? then Proposing(pairing, required, optional, filtered.value) else Rejecting(pairing)
  }

  function Step(s: State, a: Action, supported: set<string>): State
    requires Enabled(s, a)
  {
    match a
    case Pair(pairing) => s.(pairings := s.pairings + {pairing})
    case Unpair(pairing) => s.(pairings := s.pairings - {pairing})
    case DeliverProposal(pairing) => Spawned(s, Checking(pairing))
    case StartProposal(i, payload) =>
      var pairing := s.tasks[i].pairing;
      if pairing in s.inFlight then Moved(s, i, Finished)
      else Moved(s.(inFlight := s.inFlight + {pairing}), i, Considered(pairing, payload, supported))
    case Answer(i, approved) =>
      var Proposing(pairing, required, optional, methods) := s.tasks[i];
      if approved
      then Moved(s.(trace := s.trace + [Approved(i, required, optional, methods)]), i, Settling(pairing, methods))
      else Moved(s, i, Rejecting(pairing))
    case Derive(i, topic, address) =>
      var Settling(pairing, methods) := s.tasks[i];
      Moved(s.(used := s.used + {topic}), i, Keyed(pairing, topic, Session(methods, s.clock + LIFETIME, address, i)))
    case InsertHandler(i) =>
      var Keyed(pairing, topic, session) := s.tasks[i];
      Moved(s.(handlers := s.handlers + {topic}), i, Storing(pairing, topic, session))
    case InsertSession(i) =>
      var Storing(pairing, topic, session) := s.tasks[i];
      Moved(s.(sessions := s.sessions[topic := session], trace := s.trace + [Settled(topic, session.proposal)]),
            i, Stored(pairing))
    case RemovePairing(i) =>
      Moved(s.(pairings := s.pairings - {s.tasks[i].pairing}), i, Closing(s.tasks[i].pairing))
    case Abort(i) =>
      Moved(s, i, if s.tasks[i].Disconnecting? then Finished else Closing(s.tasks[i].pairing))
    case FinishProposal(i) =>
      Moved(s.(inFlight := s.inFlight - {s.tasks[i].pairing}), i, Finished)
    case DeliverRequest(topic, method_) => Spawned(s, Requesting(topic, method_))
    case DeliverDelete(topic) => Spawned(s, Deleting(topic))
    case Disconnect(topic) => Spawned(s, Disconnecting(topic))
    case RemoveSession(i) =>
      Moved(s.(sessions := s.sessions - {s.tasks[i].topic}), i, Dropping(s.tasks[i].topic))
    case DropHandler(i) =>
      Moved(s.(handlers := s.handlers - {s.tasks[i].topic}), i, Finished)
    case CheckRequest(i) =>
      var Requesting(topic, method_) := s.tasks[i];
      var session := Authorised(s.sessions, topic, method_, s.clock);
      Moved(s, i, if session.Some? then Forwarding(topic, method_, session.value, s.clock) else Finished)
    case ForwardRequest(i) =>
      var Forwarding(topic, method_, session, checked) := s.tasks[i];
      var seen := if topic in s.handlers
                  then [Forwarded(topic, method_, session.proposal, session.expiry, checked)] else [];
      Moved(s.(trace := s.trace + seen), i, Finished)
    case SwitchAccount(topic, address) => Spawned(s, SwitchingAccount(topic, address))
    case WriteAccount(i) =>
      var SwitchingAccount(topic, address) := s.tasks[i];
      Moved(if topic in s.sessions then s.(sessions := s.sessions[topic := s.sessions[topic].(address := address)])
            else s, i, Finished)
    case ClockTick => s.(clock := s.clock + 1)
  }

  // ----- proposals -------------------------------------------------------------------------

  /** The pairing a live proposal task works on. */
  function LivePairing(t: Task): Option<Topic> {
    if t.Proposing? || t.Rejecting? || t.Settling? || t.Keyed? || t.Storing? || t.Stored? || t.Closing?
    then Some(t.pairing) else None
  }

  predicate IsLive(s: State, i: nat, pairing: Topic) {
    i < |s.tasks| && LivePairing(s.tasks[i]) == Some(pairing)
  }

  /** A pairing is marked in flight exactly when a proposal task for it is live, and there is never
      more than one. */
  ghost predicate OneLiveProposal(s: State) {
    && (forall pairing :: pairing in s.inFlight <==> exists i :: IsLive(s, i, pairing))
    && (forall i, j, pairing :: IsLive(s, i, pairing) && IsLive(s, j, pairing) ==> i == j)
  }

  lemma StartKeepsOneLive(s: State, a: Action, supported: set<string>)
    requires OneLiveProposal(s) && Enabled(s, a) && a.StartProposal?
    ensures OneLiveProposal(Step(s, a, supported))
  {
    var t := Step(s, a, supported);
    var started := s.tasks[a.task].pairing;
    assert forall i, pairing :: i != a.task ==> (IsLive(t, i, pairing) <==> IsLive(s, i, pairing));
    assert !IsLive(s, a.task, started);
    if started !in s.inFlight {
      assert IsLive(t, a.task, started);
    }
    forall pairing
      ensures pairing in t.inFlight <==> exists i :: IsLive(t, i, pairing)
    {
      if i :| IsLive(s, i, pairing) {
        assert IsLive(t, i, pairing);
      }
    }
  }

  lemma FinishKeepsOneLive(s: State, a: Action, supported: set<string>)
    requires OneLiveProposal(s) && Enabled(s, a) && a.FinishProposal?
    ensures OneLiveProposal(Step(s, a, supported))
  {
    var t := Step(s, a, supported);
    assert IsLive(s, a.task, s.tasks[a.task].pairing);
    assert forall i, pairing :: IsLive(t, i, pairing) <==> IsLive(s, i, pairing) && i != a.task;
    forall pairing
      ensures pairing in t.inFlight <==> exists i :: IsLive(t, i, pairing)
    {
      if i :| IsLive(s, i, pairing) && i != a.task {
        assert IsLive(t, i, pairing);
      }
    }
  }

  lemma OthersKeepLive(s: State, a: Action, supported: set<string>, i: nat, pairing: Topic)
    requires Enabled(s, a) && !a.StartProposal? && !a.FinishProposal?
    ensures Step(s, a, supported).inFlight == s.inFlight
    ensures IsLive(Step(s, a, supported), i, pairing) <==> IsLive(s, i, pairing)
  {
    hide Authorised, Considered;
  }

  lemma StepKeepsOneLiveProposal(s: State, a: Action, supported: set<string>)
    requires OneLiveProposal(s) && Enabled(s, a)
    ensures OneLiveProposal(Step(s, a, supported))
  {
    if a.StartProposal? {
      StartKeepsOneLive(s, a, supported);
    } else if a.FinishProposal? {
      FinishKeepsOneLive(s, a, supported);
    } else {
      forall i, pairing
        ensures Step(s, a, supported).inFlight == s.inFlight
        ensures IsLive(Step(s, a, supported), i, pairing) <==> IsLive(s, i, pairing)
      {
        OthersKeepLive(s, a, supported, i, pairing);
      }
    }
  }

  // ----- sessions and their handlers -------------------------------------------------------

  /** The topic of a session this task is about to store. */
  function ToStore(t: Task): Option<Topic> {
    if t.Keyed? || t.Storing? then Some(t.topic) else None
  }

  /** The topic of a session this task is removing. */
  function ToDrop(t: Task): Option<Topic> {
    if t.Deleting? || t.Disconnecting? || t.Dropping? then Some(t.topic) else None
  }

  ghost predicate TopicsAreSeparate(s: State) {
    && s.sessions.Keys <= s.used
    && (forall i :: 0 <= i < |s.tasks| && ToStore(s.tasks[i]).Some? ==>
          ToStore(s.tasks[i]).value in s.used && ToStore(s.tasks[i]).value !in s.sessions)
    && (forall i :: 0 <= i < |s.tasks| && ToDrop(s.tasks[i]).Some? ==> ToDrop(s.tasks[i]).value in s.used)
    && (forall i, j :: 0 <= i < j < |s.tasks| && ToStore(s.tasks[i]).Some? ==>
          ToStore(s.tasks[i]) != ToStore(s.tasks[j]))
    && (forall i, j :: 0 <= i < |s.tasks| && 0 <= j < |s.tasks| && ToStore(s.tasks[i]).Some? ==>
          ToStore(s.tasks[i]) != ToDrop(s.tasks[j]))
  }

  /** Handlers are in place before their sessions and outlive them. */
  ghost predicate SessionsHaveHandlers(s: State) {
    && TopicsAreSeparate(s)
    && s.sessions.Keys <= s.handlers
    && (forall i :: 0 <= i < |s.tasks| && s.tasks[i].Storing? ==> s.tasks[i].topic in s.handlers)
    && (forall i :: 0 <= i < |s.tasks| && s.tasks[i].Dropping? ==> s.tasks[i].topic !in s.sessions)
  }

  /** Tasks only give up topics, and sessions are only removed. */
  ghost predicate RolesShrink(s: State, t: State) {
    && t.sessions.Keys <= s.sessions.Keys && t.used == s.used && |s.tasks| <= |t.tasks|
    && (forall i :: 0 <= i < |s.tasks| ==>
          && (ToStore(t.tasks[i]).None? || ToStore(t.tasks[i]) == ToStore(s.tasks[i]))
          && (ToDrop(t.tasks[i]).None? || ToDrop(t.tasks[i]) == ToDrop(s.tasks[i])))
    && (forall i :: |s.tasks| <= i < |t.tasks| ==> ToStore(t.tasks[i]).None? && ToDrop(t.tasks[i]).None?)
  }

  lemma ShrinkingKeepsSeparate(s: State, t: State)
    requires TopicsAreSeparate(s) && RolesShrink(s, t)
    ensures TopicsAreSeparate(t)
  {
  }

  lemma DeriveKeepsSeparate(s: State, a: Action, supported: set<string>)
    requires TopicsAreSeparate(s) && Enabled(s, a) && a.Derive?
    ensures TopicsAreSeparate(Step(s, a, supported))
  {
    var t := Step(s, a, supported);
    forall i | 0 <= i < |t.tasks|
      ensures i != a.task ==> t.tasks[i] == s.tasks[i]
    {
    }
  }

  lemma InsertKeepsSeparate(s: State, a: Action, supported: set<string>)
    requires TopicsAreSeparate(s) && Enabled(s, a) && a.InsertSession?
    ensures TopicsAreSeparate(Step(s, a, supported))
  {
  }

  lemma EndKeepsSeparate(s: State, a: Action, supported: set<string>)
    requires TopicsAreSeparate(s) && Enabled(s, a) && (a.DeliverDelete? || a.Disconnect?)
    ensures TopicsAreSeparate(Step(s, a, supported))
  {
    assert a.topic in s.sessions;
  }

  lemma OthersShrinkRoles(s: State, a: Action, supported: set<string>)
    requires Enabled(s, a) && !a.Derive? && !a.InsertSession? && !a.DeliverDelete? && !a.Disconnect?
    ensures RolesShrink(s, Step(s, a, supported))
  {
    hide Authorised;
  }

  lemma StepKeepsTopicsSeparate(s: State, a: Action, supported: set<string>)
    requires TopicsAreSeparate(s) && Enabled(s, a)
    ensures TopicsAreSeparate(Step(s, a, supported))
  {
    hide Step;
    if a.Derive? {
      DeriveKeepsSeparate(s, a, supported);
    } else if a.InsertSession? {
      InsertKeepsSeparate(s, a, supported);
    } else if a.DeliverDelete? || a.Disconnect? {
      EndKeepsSeparate(s, a, supported);
    } else {
      OthersShrinkRoles(s, a, supported);
      ShrinkingKeepsSeparate(s, Step(s, a, supported));
    }
  }

  lemma SessionInsertKeepsHandlers(s: State, a: Action, supported: set<string>)
    requires SessionsHaveHandlers(s) && Enabled(s, a) && a.InsertSession?
    ensures SessionsHaveHandlers(Step(s, a, supported))
  {
    StepKeepsTopicsSeparate(s, a, supported);
    var t := Step(s, a, supported);
    forall i | 0 <= i < |t.tasks| && t.tasks[i].Dropping?
      ensures t.tasks[i].topic !in t.sessions
    {
      assert ToStore(s.tasks[a.task]) != ToDrop(s.tasks[i]);
    }
  }

  lemma DropKeepsHandlers(s: State, a: Action, supported: set<string>)
    requires SessionsHaveHandlers(s) && Enabled(s, a) && a.DropHandler?
    ensures SessionsHaveHandlers(Step(s, a, supported))
  {
    StepKeepsTopicsSeparate(s, a, supported);
    var t := Step(s, a, supported);
    forall i | 0 <= i < |t.tasks| && t.tasks[i].Storing?
      ensures t.tasks[i].topic in t.handlers
    {
      assert ToStore(s.tasks[i]) != ToDrop(s.tasks[a.task]);
    }
  }

  lemma OthersKeepHandlers(s: State, a: Action, supported: set<string>)
    requires SessionsHaveHandlers(s) && Enabled(s, a) && !a.InsertSession? && !a.DropHandler?
    requires TopicsAreSeparate(Step(s, a, supported))
    ensures SessionsHaveHandlers(Step(s, a, supported))
  {
    hide TopicsAreSeparate, Authorised;
    var t := Step(s, a, supported);
    assert t.sessions.Keys <= s.sessions.Keys && s.handlers <= t.handlers;
  }

  lemma StepKeepsHandlers(s: State, a: Action, supported: set<string>)
    requires SessionsHaveHandlers(s) && Enabled(s, a)
    ensures SessionsHaveHandlers(Step(s, a, supported))
  {
    hide Step;
    if a.InsertSession? {
      SessionInsertKeepsHandlers(s, a, supported);
    } else if a.DropHandler? {
      DropKeepsHandlers(s, a, supported);
    } else {
      StepKeepsTopicsSeparate(s, a, supported);
      OthersKeepHandlers(s, a, supported);
    }
  }

  /** A request that passed its checks but finds no handler belongs to a session that was removed
      in the meantime: nobody observes a stored session without its handler. */
  lemma MissingHandlerMeansRemoved(s: State, i: nat)
    requires SessionsHaveHandlers(s) && i < |s.tasks| && s.tasks[i].Forwarding?
    requires s.tasks[i].topic !in s.handlers
    ensures s.tasks[i].topic !in s.sessions
  {
  }

  // ----- authorisation ---------------------------------------------------------------------

  predicate Approves(e: Event, proposal: nat, methods: seq<string>, supported: set<string>) {
    e.Approved? && e.proposal == proposal && e.methods == methods
    && Filtered(e.required, e.optional, supported) == Ok(methods)
  }

  ghost predicate HasApproval(trace: seq<Event>, proposal: nat, methods: seq<string>, supported: set<string>) {
    exists k :: 0 <= k < |trace| && Approves(trace[k], proposal, methods, supported)
  }

  /** Stored sessions and tasks carry only method lists a user approved. */
  ghost predicate TaskIsVouched(s: State, i: nat, supported: set<string>)
    requires i < |s.tasks|
  {
    match s.tasks[i]
    case Proposing(_, required, optional, methods) => Filtered(required, optional, supported) == Ok(methods)
    case Settling(_, methods) => HasApproval(s.trace, i, methods, supported)
    case Keyed(_, _, session) => HasApproval(s.trace, session.proposal, session.methods, supported)
    case Storing(_, _, session) => HasApproval(s.trace, session.proposal, session.methods, supported)
    case Forwarding(topic, method_, session, checked) =>
      && HasApproval(s.trace, session.proposal, session.methods, supported)
      && Settled(topic, session.proposal) in s.trace
      && method_ in session.methods && checked <= session.expiry
    case _ => true
  }

  /** Event `k`, if it forwards a request, comes after the approval of a dialog listing the method
      and after the settlement of the session that dialog led to, and was checked in time. */
  ghost predicate ForwardIsAuthorised(trace: seq<Event>, k: nat, supported: set<string>)
    requires k < |trace|
  {
    trace[k].Forwarded? ==>
      && (exists j :: 0 <= j < k && trace[j].Approved? && trace[j].proposal == trace[k].proposal
                      && trace[k].method_ in trace[j].methods
                      && Filtered(trace[j].required, trace[j].optional, supported) == Ok(trace[j].methods))
      && Settled(trace[k].topic, trace[k].proposal) in trace[..k]
      && trace[k].checked <= trace[k].expiry
  }

  ghost predicate OnlyAuthorised(s: State, supported: set<string>) {
    && (forall topic :: topic in s.sessions ==>
          && HasApproval(s.trace, s.sessions[topic].proposal, s.sessions[topic].methods, supported)
          && Settled(topic, s.sessions[topic].proposal) in s.trace)
    && (forall i :: 0 <= i < |s.tasks| ==> TaskIsVouched(s, i, supported))
    && (forall k :: 0 <= k < |s.trace| ==> ForwardIsAuthorised(s.trace, k, supported))
  }

  lemma ApprovalLasts(trace: seq<Event>, e: Event, proposal: nat, methods: seq<string>, supported: set<string>)
    ensures HasApproval(trace, proposal, methods, supported) ==>
              HasApproval(trace + [e], proposal, methods, supported)
    ensures Approves(e, proposal, methods, supported) ==> HasApproval(trace + [e], proposal, methods, supported)
  {
    if k :| 0 <= k < |trace| && Approves(trace[k], proposal, methods, supported) {
      assert Approves((trace + [e])[k], proposal, methods, supported);
    }
    assert (trace + [e])[|trace|] == e;
  }

  lemma EventKeepsAuthorised(s: State, e: Event, supported: set<string>)
    requires OnlyAuthorised(s, supported)
    requires ForwardIsAuthorised(s.trace + [e], |s.trace|, supported)
    ensures OnlyAuthorised(s.(trace := s.trace + [e]), supported)
  {
    var t := s.(trace := s.trace + [e]);
    forall proposal, methods
      ensures HasApproval(s.trace, proposal, methods, supported) ==> HasApproval(t.trace, proposal, methods, supported)
    {
      ApprovalLasts(s.trace, e, proposal, methods, supported);
    }
    forall i | 0 <= i < |t.tasks|
      ensures TaskIsVouched(t, i, supported)
    {
      assert TaskIsVouched(s, i, supported);
    }
    forall k | 0 <= k < |s.trace|
      ensures ForwardIsAuthorised(t.trace, k, supported)
    {
      assert ForwardIsAuthorised(s.trace, k, supported);
      assert t.trace[..k] == s.trace[..k];
    }
  }

  lemma MoveKeepsAuthorised(s: State, i: nat, t: Task, supported: set<string>)
    requires OnlyAuthorised(s, supported) && i < |s.tasks|
    requires TaskIsVouched(Moved(s, i, t), i, supported)
    ensures OnlyAuthorised(Moved(s, i, t), supported)
  {
    forall j | 0 <= j < |s.tasks| && j != i
      ensures TaskIsVouched(Moved(s, i, t), j, supported)
    {
      assert TaskIsVouched(s, j, supported);
    }
  }

  lemma SpawnKeepsAuthorised(s: State, t: Task, supported: set<string>)
    requires OnlyAuthorised(s, supported)
    requires t.Checking? || t.Requesting? || t.Deleting? || t.Disconnecting? || t.SwitchingAccount?
    ensures OnlyAuthorised(Spawned(s, t), supported)
  {
    forall j | 0 <= j < |s.tasks|
      ensures TaskIsVouched(Spawned(s, t), j, supported)
    {
      assert TaskIsVouched(s, j, supported);
    }
  }

  /** Maps other than the sessions do not matter for authorisation. */
  lemma OtherMapsKeepAuthorised(s: State, t: State, supported: set<string>)
    requires OnlyAuthorised(s, supported) && t.tasks == s.tasks && t.trace == s.trace
    requires forall topic :: topic in t.sessions ==>
               && topic in s.sessions
               && t.sessions[topic].methods == s.sessions[topic].methods
               && t.sessions[topic].proposal == s.sessions[topic].proposal
    ensures OnlyAuthorised(t, supported)
  {
    forall j | 0 <= j < |t.tasks|
      ensures TaskIsVouched(t, j, supported)
    {
      assert TaskIsVouched(s, j, supported);
    }
  }

  lemma AnswerKeepsAuthorised(s: State, a: Action, supported: set<string>)
    requires OnlyAuthorised(s, supported) && Enabled(s, a) && a.Answer?
    ensures OnlyAuthorised(Step(s, a, supported), supported)
  {
    var Proposing(pairing, required, optional, methods) := s.tasks[a.task];
    assert TaskIsVouched(s, a.task, supported);
    if a.approved {
      var e := Approved(a.task, required, optional, methods);
      EventKeepsAuthorised(s, e, supported);
      ApprovalLasts(s.trace, e, a.task, methods, supported);
      MoveKeepsAuthorised(s.(trace := s.trace + [e]), a.task, Settling(pairing, methods), supported);
    } else {
      MoveKeepsAuthorised(s, a.task, Rejecting(pairing), supported);
    }
  }

  lemma InsertKeepsAuthorised(s: State, a: Action, supported: set<string>)
    requires OnlyAuthorised(s, supported) && Enabled(s, a) && a.InsertSession?
    ensures OnlyAuthorised(Step(s, a, supported), supported)
  {
    var Storing(pairing, topic, session) := s.tasks[a.task];
    var e := Settled(topic, session.proposal);
    assert TaskIsVouched(s, a.task, supported);
    EventKeepsAuthorised(s, e, supported);
    ApprovalLasts(s.trace, e, session.proposal, session.methods, supported);
    var settled := s.(trace := s.trace + [e]);
    MoveKeepsAuthorised(settled, a.task, Stored(pairing), supported);
    var moved := Moved(settled, a.task, Stored(pairing));
    var t := Step(s, a, supported);
    assert e == t.trace[|s.trace|];
    forall j | 0 <= j < |t.tasks|
      ensures TaskIsVouched(t, j, supported)
    {
      assert TaskIsVouched(moved, j, supported);
    }
  }

  lemma ForwardKeepsAuthorised(s: State, a: Action, supported: set<string>)
    requires OnlyAuthorised(s, supported) && Enabled(s, a) && a.ForwardRequest?
    ensures OnlyAuthorised(Step(s, a, supported), supported)
  {
    var Forwarding(topic, method_, session, checked) := s.tasks[a.task];
    assert TaskIsVouched(s, a.task, supported);
    if topic in s.handlers {
      var e := Forwarded(topic, method_, session.proposal, session.expiry, checked);
      assert (s.trace + [e])[..|s.trace|] == s.trace;
      var k :| 0 <= k < |s.trace| && Approves(s.trace[k], session.proposal, session.methods, supported);
      assert (s.trace + [e])[k] == s.trace[k];
      EventKeepsAuthorised(s, e, supported);
      MoveKeepsAuthorised(s.(trace := s.trace + [e]), a.task, Finished, supported);
    } else {
      assert s.trace + [] == s.trace;
      MoveKeepsAuthorised(s, a.task, Finished, supported);
    }
  }

  /** Apart from the three actions that record an event, a step moves at most one task, and what
      it moves it to is vouched for. */
  lemma MovedTaskIsVouched(s: State, a: Action, t: State, supported: set<string>, i: nat)
    requires OnlyAuthorised(s, supported) && Enabled(s, a) && t == Step(s, a, supported)
    requires !a.Answer? && !a.InsertSession? && !a.ForwardRequest?
    requires i < |s.tasks| == |t.tasks| && t.tasks[i] != s.tasks[i]
    ensures t.tasks == s.tasks[i := t.tasks[i]] && TaskIsVouched(t, i, supported)
  {
    assert TaskIsVouched(s, i, supported);
  }

  lemma QuietStepKeepsEvents(s: State, a: Action, supported: set<string>)
    requires Enabled(s, a) && !a.Answer? && !a.InsertSession? && !a.ForwardRequest?
    ensures Step(s, a, supported).trace == s.trace
    ensures forall topic :: topic in Step(s, a, supported).sessions ==>
              && topic in s.sessions
              && Step(s, a, supported).sessions[topic].methods == s.sessions[topic].methods
              && Step(s, a, supported).sessions[topic].proposal == s.sessions[topic].proposal
  {
  }

  lemma QuietStepKeepsAuthorised(s: State, a: Action, supported: set<string>)
    requires OnlyAuthorised(s, supported) && Enabled(s, a)
    requires !a.Answer? && !a.InsertSession? && !a.ForwardRequest?
    requires |Step(s, a, supported).tasks| == |s.tasks|
    ensures OnlyAuthorised(Step(s, a, supported), supported)
  {
    var t := Step(s, a, supported);
    QuietStepKeepsEvents(s, a, supported);
    var rest := t.(tasks := s.tasks);
    OtherMapsKeepAuthorised(s, rest, supported);
    if i :| 0 <= i < |s.tasks| && t.tasks[i] != s.tasks[i] {
      MovedTaskIsVouched(s, a, t, supported, i);
      assert Moved(rest, i, t.tasks[i]) == t;
      MoveKeepsAuthorised(rest, i, t.tasks[i], supported);
    } else {
      assert t.tasks == s.tasks;
    }
  }

  lemma StepKeepsAuthorised(s: State, a: Action, supported: set<string>)
    requires OnlyAuthorised(s, supported) && Enabled(s, a)
    ensures OnlyAuthorised(Step(s, a, supported), supported)
  {
    match a
    case Answer(_, _) => AnswerKeepsAuthorised(s, a, supported);
    case InsertSession(_) => InsertKeepsAuthorised(s, a, supported);
    case ForwardRequest(_) => ForwardKeepsAuthorised(s, a, supported);
    case DeliverProposal(pairing) => SpawnKeepsAuthorised(s, Checking(pairing), supported);
    case DeliverRequest(topic, method_) => SpawnKeepsAuthorised(s, Requesting(topic, method_), supported);
    case DeliverDelete(topic) => SpawnKeepsAuthorised(s, Deleting(topic), supported);
    case Disconnect(topic) => SpawnKeepsAuthorised(s, Disconnecting(topic), supported);
    case SwitchAccount(topic, address) => SpawnKeepsAuthorised(s, SwitchingAccount(topic, address), supported);
    case _ => QuietStepKeepsAuthorised(s, a, supported);
  }

  // ----- whole runs ------------------------------------------------------------------------

  ghost predicate IsRun(states: seq<State>, actions: seq<Action>, supported: set<string>) {
    && |states| == |actions| + 1
    && states[0] == INITIAL
    && forall i :: 0 <= i < |actions| ==>
         Enabled(states[i], actions[i]) && states[i + 1] == Step(states[i], actions[i], supported)
  }

  lemma {:induction false} RunsAreSafe(states: seq<State>, actions: seq<Action>, supported: set<string>, i: nat)
    requires IsRun(states, actions, supported) && i < |states|
    ensures OneLiveProposal(states[i]) && SessionsHaveHandlers(states[i]) && OnlyAuthorised(states[i], supported)
  {
    if i > 0 {
      RunsAreSafe(states, actions, supported, i - 1);
      StepKeepsOneLiveProposal(states[i - 1], actions[i - 1], supported);
      StepKeepsHandlers(states[i - 1], actions[i - 1], supported);
      StepKeepsAuthorised(states[i - 1], actions[i - 1], supported);
    }
  }

  /** In every interleaving, a forwarded request comes after an approved dialog of the proposal its
      session was settled for.  That dialog listed the method; the list is within what is
      supported, covers everything the dApp required, and has no duplicates; and the session had
      not expired when it was checked. */
  lemma ForwardedOnlyAfterApproval(states: seq<State>, actions: seq<Action>, supported: set<string>, i: nat, k: nat)
    requires IsRun(states, actions, supported) && i < |states|
    requires k < |states[i].trace| && states[i].trace[k].Forwarded?
    ensures var trace := states[i].trace;
            && trace[k].checked <= trace[k].expiry
            && Settled(trace[k].topic, trace[k].proposal) in trace[..k]
            && exists j :: 0 <= j < k && trace[j].Approved? && trace[j].proposal == trace[k].proposal
                           && trace[k].method_ in trace[j].methods
                           && IsSound(trace[j], supported)
  {
    RunsAreSafe(states, actions, supported, i);
    var trace := states[i].trace;
    assert ForwardIsAuthorised(trace, k, supported);
    var j :| 0 <= j < k && trace[j].Approved? && trace[j].proposal == trace[k].proposal
             && trace[k].method_ in trace[j].methods
             && Filtered(trace[j].required, trace[j].optional, supported) == Ok(trace[j].methods);
    FilterIsExact(trace[j].required, trace[j].optional, supported);
  }

  /** The approved list is supported, covers the required methods and repeats none. */
  ghost predicate IsSound(e: Event, supported: set<string>)
    requires e.Approved?
  {
    && Sorting.Distinct(e.methods)
    && (forall m :: m in e.methods ==> m in supported)
    && (forall m :: m in e.required ==> m in e.methods)
  }

  function StepAll(s: State, actions: seq<Action>, supported: set<string>): Option<State>
    decreases |actions|
  {
    if actions == [] then Some(s)
    else if !Enabled(s, actions[0]) then None
    else StepAll(Step(s, actions[0], supported), actions[1..], supported)
  }

  lemma {:induction false} StepAllSplits(s: State, a: seq<Action>, b: seq<Action>, supported: set<string>)
    ensures StepAll(s, a + b, supported) ==
            if StepAll(s, a, supported).None? then None else StepAll(StepAll(s, a, supported).value, b, supported)
    decreases |a|
  {
    if a == [] {
      assert a + b == b;
    } else {
      assert (a + b)[1..] == a[1..] + b;
      if Enabled(s, a[0]) {
        StepAllSplits(Step(s, a[0], supported), a[1..], b, supported);
      }
    }
  }

  lemma StepAllOfTwo(s: State, a: Action, b: Action, supported: set<string>)
    requires Enabled(s, a) && Enabled(Step(s, a, supported), b)
    ensures StepAll(s, [a, b], supported) == Some(Step(Step(s, a, supported), b, supported))
  {
    assert [a, b][1..] == [b] && [b][1..] == [];
    assert StepAll(Step(s, a, supported), [b], supported) == Some(Step(Step(s, a, supported), b, supported));
  }
}
