/** Which chain a connected peer is told about, and which one it is served.

    Affinity store, networks actor and peer broadcaster share one broadcast channel; each receiver
    reads it at its own pace, and announcements of the actor are sent by spawned tasks. */
module Routing {
  import opened Types
  import opened Networks

  type Socket = nat

  datatype ChainChanged = ChainChanged(id: NetworkId, domain: Option<string>, affinity: Affinity)

  /** `told` is the last chain id a peer heard of: what it was served on connecting, or a later
      `chainChanged` event. */
  datatype System = System(registry: Registry, affinities: map<string, Affinity>,
                           peers: map<Socket, Option<string>>, told: map<Socket, nat>,
                           netQueue: seq<ChainChanged>, peerQueue: seq<ChainChanged>,
                           spawned: seq<NetworkId>)

  // ----- affinity --------------------------------------------------------------------------

  function GetAffinity(affinities: map<string, Affinity>, domain: string): Affinity {
    if domain in affinities then affinities[domain] else Unset
  }

  function SetAffinity(affinities: map<string, Affinity>, domain: string, affinity: Affinity): map<string, Affinity> {
    if affinity.Unset? then affinities - {domain} else affinities[domain := affinity]
  }

  function AffinityOf(affinities: map<string, Affinity>, domain: Option<string>): Affinity {
    if domain.Some? then GetAffinity(affinities, domain.value) else Unset
  }

  /** `affinity_matches` */
  predicate AffinityMatches(affinities: map<string, Affinity>, own: Option<string>, m: ChainChanged) {
    if m.affinity.Sticky? then own == m.domain else !AffinityOf(affinities, own).Sticky?
  }

  /** `Ctx::chain_id` */
  function Served(first: Order, s: System, domain: Option<string>): nat
    requires IsOrder(first) && s.registry.networks != map[]
  {
    var affinity := AffinityOf(s.affinities, domain);
    if affinity.Sticky? then affinity.id.chain else Current(first, s.registry).id.chain
  }

  // ----- steps -----------------------------------------------------------------------------

  datatype Action =
    | SwitchChain(domain: Option<string>, chain: nat, lowest: nat)
    | EditAffinity(site: string, affinity: Affinity)
    | SelectNetwork(key: Key)
    | AddNetworkStep(name: string, chainId: nat)
    | NetworksReceive
    | PeersReceive
    | RunTask(task: nat)
    | Connect(socket: Socket, domain: Option<string>)
    | Disconnect(socket: Socket)

  function Sent(s: System, m: ChainChanged): System {
    s.(netQueue := s.netQueue + [m], peerQueue := s.peerQueue + [m])
  }

  /** `set_current`, with the announcement it spawns. */
  function Selected(first: Order, s: System, key: Key): System
    requires IsOrder(first) && s.registry.networks != map[]
  {
    var switch := Switched(first, s.registry, key);
    if switch.None? then s
    else
      s.(registry := switch.value.registry,
         spawned := s.spawned + if switch.value.changed then [Current(first, switch.value.registry).id] else [])
  }

  /** `broadcast_chain_changed` */
  function Announced(s: System, m: ChainChanged): map<Socket, nat>
    requires s.peers.Keys == s.told.Keys
  {
    if !ValidChain(s.registry.networks, m.id.chain) then s.told
    else
      map socket | socket in s.peers ::
        if AffinityMatches(s.affinities, s.peers[socket], m) then m.id.chain else s.told[socket]
  }

  function ChainSwitched(first: Order, s: System, domain: Option<string>, chain: nat, lowest: nat): System
    requires IsOrder(first) && s.registry.networks != map[]
  {
    if Served(first, s, domain) == chain || !ValidChain(s.registry.networks, chain) then s
    else if AffinityOf(s.affinities, domain).Global? then
      Sent(s, ChainChanged(NetworkId(chain, lowest), None, Global))
    else
      var id := NetworkId(chain, 0);
      var stored := if domain.Some? then SetAffinity(s.affinities, domain.value, Sticky(id)) else s.affinities;
      Sent(s.(affinities := stored), ChainChanged(id, domain, Sticky(id)))
  }

  function AffinityEdited(first: Order, s: System, domain: string, affinity: Affinity): System
    requires IsOrder(first) && s.registry.networks != map[]
  {
    if affinity.Sticky? && !ValidChain(s.registry.networks, affinity.id.chain) then s
    else
      var id := if affinity.Sticky? then affinity.id else Current(first, s.registry).id;
      Sent(s.(affinities := SetAffinity(s.affinities, domain, affinity)), ChainChanged(id, Some(domain), affinity))
  }

  predicate Enabled(s: System, a: Action) {
    match a
    case NetworksReceive => s.netQueue != []
    case PeersReceive => s.peerQueue != []
    case RunTask(task) => task < |s.spawned|
    case AddNetworkStep(name, _) => name !in s.registry.networks
    case _ => true
  }

  ghost predicate LowestGiven(s: System, a: Action) {
    a.SwitchChain? ==> IsLowestDedup(s.registry.networks, a.chain, a.lowest)
  }

  function Step(first: Order, s: System, a: Action): System
    requires IsOrder(first) && s.registry.networks != map[] && s.peers.Keys == s.told.Keys && Enabled(s, a)
  {
    match a
    case SwitchChain(domain, chain, lowest) => ChainSwitched(first, s, domain, chain, lowest)
    case EditAffinity(site, affinity) => AffinityEdited(first, s, site, affinity)
    case SelectNetwork(key) => Selected(first, s, key)
    case AddNetworkStep(name, chain) =>
      s.(registry := s.registry.(networks := Added(s.registry.networks, name, chain)))
    case NetworksReceive =>
      var m := s.netQueue[0];
      var popped := s.(netQueue := s.netQueue[1..]);
      if m.affinity.Sticky? then popped else Selected(first, popped, ById(m.id))
    case PeersReceive =>
      s.(peerQueue := s.peerQueue[1..], told := Announced(s, s.peerQueue[0]))
    case RunTask(task) =>
      Sent(s.(spawned := s.spawned[..task] + s.spawned[task + 1..]), ChainChanged(s.spawned[task], None, Global))
    case Connect(socket, domain) =>
      s.(peers := s.peers[socket := domain], told := s.told[socket := Served(first, s, domain)])
    case Disconnect(socket) =>
      s.(peers := s.peers - {socket}, told := s.told - {socket})
  }

  // ----- the invariant ---------------------------------------------------------------------

  ghost predicate WellFormed(first: Order, s: System) {
    && IsOrder(first) && KeysAreNames(s.registry.networks) && s.registry.networks != map[]
    && s.peers.Keys == s.told.Keys
    && (forall i :: 0 <= i < |s.spawned| ==> IdTaken(s.registry.networks, s.spawned[i]))
    && (forall i :: 0 <= i < |s.netQueue| && !s.netQueue[i].affinity.Sticky? ==>
          IdTaken(s.registry.networks, s.netQueue[i].id))
    && (forall i :: 0 <= i < |s.peerQueue| ==> ValidChain(s.registry.networks, s.peerQueue[i].id.chain))
  }

  /** Would the broadcaster pass `m` on to a peer of this domain?  Only a peer without a sticky
      affinity hears global messages. */
  predicate Reaches(m: ChainChanged, own: Option<string>, sticky: bool) {
    if m.affinity.Sticky? then m.domain == own else !sticky
  }

  /** The last chain the unread messages will tell such a peer. */
  function LastNews(queue: seq<ChainChanged>, own: Option<string>, sticky: bool): Option<nat> {
    if queue == [] then None
    else if Reaches(queue[|queue| - 1], own, sticky) then Some(queue[|queue| - 1].id.chain)
    else LastNews(queue[..|queue| - 1], own, sticky)
  }

  /** Handling the networks receiver's backlog would not change the current network again. */
  ghost predicate Settled(first: Order, s: System)
    requires WellFormed(first, s)
  {
    && s.spawned == []
    && forall i :: 0 <= i < |s.netQueue| && !s.netQueue[i].affinity.Sticky? ==>
         s.netQueue[i].id == Current(first, s.registry).id
  }

  /** What peers of one domain, or of none, have heard, or will hear last, is what they are served, unless the
      current network is still on the move. */
  ghost predicate DomainAgrees(first: Order, s: System, own: Option<string>)
    requires WellFormed(first, s)
  {
    var sticky := AffinityOf(s.affinities, own).Sticky?;
    var news := LastNews(s.peerQueue, own, sticky);
    sticky || Settled(first, s) ==>
      && (news.Some? ==> news.value == Served(first, s, own))
      && (news.None? ==>
            forall socket :: socket in s.peers && s.peers[socket] == own ==>
              s.told[socket] == Served(first, s, own))
  }

  /** `all` takes in the peers without a domain. */
  ghost predicate Invariant(first: Order, s: System, all: bool) {
    WellFormed(first, s) && forall own: Option<string> :: own.Some? || all ==> DomainAgrees(first, s, own)
  }

  /** A peer without a domain switches its chain, which the store has no place to remember. */
  predicate Stray(first: Order, s: System, a: Action)
    requires IsOrder(first) && s.registry.networks != map[]
  {
    a.SwitchChain? && a.domain.None? && Served(first, s, None) != a.chain && ValidChain(s.registry.networks, a.chain)
  }

  /** A network is added while the selected name is not stored, and thereby becomes the current one
      or lets another one become it: nobody is told. */
  predicate Silent(first: Order, s: System, a: Action)
    requires IsOrder(first) && s.registry.networks != map[]
  {
    a.AddNetworkStep? &&
    var after := s.registry.(networks := Added(s.registry.networks, a.name, a.chainId));
    Current(first, after).id != Current(first, s.registry).id
  }

  // ----- keeping it ------------------------------------------------------------------------

  lemma NewsOfSnoc(queue: seq<ChainChanged>, m: ChainChanged, own: Option<string>, sticky: bool)
    ensures LastNews(queue + [m], own, sticky) ==
            if Reaches(m, own, sticky) then Some(m.id.chain) else LastNews(queue, own, sticky)
  {
    assert (queue + [m])[..|queue|] == queue;
  }

  lemma {:induction false} NewsOfRest(queue: seq<ChainChanged>, own: Option<string>, sticky: bool)
    requires queue != []
    ensures LastNews(queue, own, sticky) ==
            if LastNews(queue[1..], own, sticky).Some? then LastNews(queue[1..], own, sticky)
            else if Reaches(queue[0], own, sticky) then Some(queue[0].id.chain) else None
  {
    if |queue| > 1 {
      assert queue[..|queue| - 1][1..] == queue[1..][..|queue| - 2];
      NewsOfRest(queue[..|queue| - 1], own, sticky);
    }
  }

  /** Choosing by id, chain or name makes a network of that id, chain or name current; an unknown
      name leaves whichever network the table yields first. */
  lemma SelectMovesCurrent(first: Order, r: Registry, key: Key)
    requires IsOrder(first) && KeysAreNames(r.networks) && r.networks != map[]
    ensures var s := Switched(first, r, key);
            s.Some? ==>
              && s.value.registry.networks == r.networks
              && (key.ById? ==> Current(first, s.value.registry).id == key.id)
              && (key.ByChainId? ==> Current(first, s.value.registry).id.chain == key.chain)
              && (key.ByName? && key.name in r.networks ==> Current(first, s.value.registry).name == key.name)
              && (key.ByName? && key.name !in r.networks ==>
                    Current(first, s.value.registry) == r.networks[first(r.networks)])
              && (!key.ByName? || key.name in r.networks ==> s.value.registry.current in r.networks)
              && (s.value.changed <==> Current(first, s.value.registry) != Current(first, r))
    ensures Switched(first, r, key).Some? <==>
            match key
            case ById(id) => IdTaken(r.networks, id)
            case ByChainId(chain) => ValidChain(r.networks, chain)
            case ByName(_) => true
  {
    if key.ById? && IdTaken(r.networks, key.id) {
      var name :| name in r.networks && r.networks[name].id == key.id;
      assert name in Matching(r.networks, key);
    }
    if key.ByChainId? && ValidChain(r.networks, key.chain) {
      var name :| name in r.networks && r.networks[name].id.chain == key.chain;
      assert name in Matching(r.networks, key);
    }
  }

  lemma SentIsWellFormed(first: Order, s: System, m: ChainChanged)
    requires WellFormed(first, s) && ValidChain(s.registry.networks, m.id.chain)
    requires !m.affinity.Sticky? ==> IdTaken(s.registry.networks, m.id)
    ensures WellFormed(first, Sent(s, m))
  {
  }

  lemma SelectedIsWellFormed(first: Order, s: System, key: Key)
    requires WellFormed(first, s)
    ensures WellFormed(first, Selected(first, s, key))
  {
    SelectMovesCurrent(first, s.registry, key);
  }

  lemma LowestIsTaken(m: Table, chain: nat, lowest: nat)
    requires ValidChain(m, chain) && IsLowestDedup(m, chain, lowest)
    ensures IdTaken(m, NetworkId(chain, lowest))
  {
    var name :| name in m && m[name].id.chain == chain;
    assert name in OnChain(m, chain);
  }

  lemma SwitchIsWellFormed(first: Order, s: System, domain: Option<string>, chain: nat, lowest: nat)
    requires WellFormed(first, s) && IsLowestDedup(s.registry.networks, chain, lowest)
    ensures WellFormed(first, ChainSwitched(first, s, domain, chain, lowest))
  {
    if ValidChain(s.registry.networks, chain) {
      LowestIsTaken(s.registry.networks, chain, lowest);
      var id := NetworkId(chain, 0);
      var stored := if domain.Some? then SetAffinity(s.affinities, domain.value, Sticky(id)) else s.affinities;
      SentIsWellFormed(first, s.(affinities := stored), ChainChanged(id, domain, Sticky(id)));
      SentIsWellFormed(first, s, ChainChanged(NetworkId(chain, lowest), None, Global));
    }
  }

  lemma EditIsWellFormed(first: Order, s: System, site: string, affinity: Affinity)
    requires WellFormed(first, s)
    ensures WellFormed(first, AffinityEdited(first, s, site, affinity))
  {
    if !(affinity.Sticky? && !ValidChain(s.registry.networks, affinity.id.chain)) {
      var id := if affinity.Sticky? then affinity.id else Current(first, s.registry).id;
      var stored := SetAffinity(s.affinities, site, affinity);
      SentIsWellFormed(first, s.(affinities := stored), ChainChanged(id, Some(site), affinity));
    }
  }

  lemma StepKeepsWellFormed(first: Order, s: System, a: Action)
    requires WellFormed(first, s) && Enabled(s, a) && LowestGiven(s, a)
    ensures WellFormed(first, Step(first, s, a))
  {
    hide ChainSwitched, AffinityEdited, Selected;
    match a
    case SwitchChain(domain, chain, lowest) =>
      SwitchIsWellFormed(first, s, domain, chain, lowest);
    case EditAffinity(site, affinity) =>
      EditIsWellFormed(first, s, site, affinity);
    case SelectNetwork(key) =>
      SelectedIsWellFormed(first, s, key);
    case NetworksReceive =>
      SelectedIsWellFormed(first, s.(netQueue := s.netQueue[1..]), ById(s.netQueue[0].id));
    case RunTask(task) =>
      var rest := s.spawned[..task] + s.spawned[task + 1..];
      SentIsWellFormed(first, s.(spawned := rest), ChainChanged(s.spawned[task], None, Global));
    case AddNetworkStep(name, chain) =>
      AddKeepsIds(s.registry.networks, name, chain);
    case _ =>
  }

  lemma AddKeepsIds(m: Table, name: string, chain: nat)
    requires name !in m
    ensures forall id :: IdTaken(m, id) ==> IdTaken(Added(m, name, chain), id)
    ensures forall c :: ValidChain(m, c) ==> ValidChain(Added(m, name, chain), c)
  {
    var after := Added(m, name, chain);
    assert forall n :: n in m ==> n in after && after[n] == m[n];
  }

  /** Sending a message keeps agreement if whoever it reaches is served what it says, and if it is
      not global, or names the current network, or does not come while all is settled. */
  lemma SendKeepsAgreement(first: Order, s: System, t: System, m: ChainChanged, own: Option<string>)
    requires WellFormed(first, s) && WellFormed(first, t) && DomainAgrees(first, s, own)
    requires t.netQueue == s.netQueue + [m] && t.peerQueue == s.peerQueue + [m]
    requires t.registry == s.registry && t.peers == s.peers && t.told == s.told
    requires t.spawned == [] ==> s.spawned == [] || !m.affinity.Sticky?
    requires var sticky := AffinityOf(t.affinities, own).Sticky?;
             && (sticky || Settled(first, t) ==>
                   if Reaches(m, own, sticky) then m.id.chain == Served(first, t, own)
                   else AffinityOf(t.affinities, own) == AffinityOf(s.affinities, own))
    ensures DomainAgrees(first, t, own)
  {
    var sticky := AffinityOf(t.affinities, own).Sticky?;
    NewsOfSnoc(s.peerQueue, m, own, sticky);
    if (sticky || Settled(first, t)) && !Reaches(m, own, sticky) {
      assert m.affinity.Sticky? || sticky;
      if !sticky {
        assert forall i :: 0 <= i < |s.netQueue| ==> t.netQueue[i] == s.netQueue[i];
      }
    }
  }

  lemma SwitchKeepsAgreement(first: Order, s: System, a: Action, own: Option<string>)
    requires WellFormed(first, s) && DomainAgrees(first, s, own) && a.SwitchChain? && LowestGiven(s, a)
    requires own.None? ==> !Stray(first, s, a)
    ensures WellFormed(first, Step(first, s, a)) && DomainAgrees(first, Step(first, s, a), own)
  {
    hide AffinityEdited, Announced, Added, Selected;
    StepKeepsWellFormed(first, s, a);
    var t := Step(first, s, a);
    if t != s {
      var m := t.netQueue[|s.netQueue|];
      assert !m.affinity.Sticky? ==> !Settled(first, t);
      SendKeepsAgreement(first, s, t, m, own);
    }
  }

  lemma EditKeepsAgreement(first: Order, s: System, a: Action, own: Option<string>)
    requires WellFormed(first, s) && DomainAgrees(first, s, own) && a.EditAffinity?
    ensures WellFormed(first, Step(first, s, a)) && DomainAgrees(first, Step(first, s, a), own)
  {
    StepKeepsWellFormed(first, s, a);
    var t := Step(first, s, a);
    if t != s {
      SendKeepsAgreement(first, s, t, t.netQueue[|s.netQueue|], own);
    }
  }

  lemma TaskKeepsAgreement(first: Order, s: System, a: Action, own: Option<string>)
    requires WellFormed(first, s) && DomainAgrees(first, s, own) && a.RunTask? && Enabled(s, a)
    ensures WellFormed(first, Step(first, s, a)) && DomainAgrees(first, Step(first, s, a), own)
  {
    StepKeepsWellFormed(first, s, a);
    var t := Step(first, s, a);
    var m := t.netQueue[|s.netQueue|];
    if Settled(first, t) {
      assert m.id == Current(first, t.registry).id;
    }
    SendKeepsAgreement(first, s, t, m, own);
  }

  lemma SelectKeepsAgreement(first: Order, s: System, a: Action, own: Option<string>)
    requires WellFormed(first, s) && DomainAgrees(first, s, own) && Enabled(s, a)
    requires a.SelectNetwork? || a.NetworksReceive?
    ensures WellFormed(first, Step(first, s, a)) && DomainAgrees(first, Step(first, s, a), own)
  {
    hide ChainSwitched, AffinityEdited, Announced, Added, Switched;
    StepKeepsWellFormed(first, s, a);
    var t := Step(first, s, a);
    var key := if a.SelectNetwork? then a.key else ById(s.netQueue[0].id);
    SelectMovesCurrent(first, s.registry, key);
    if Settled(first, t) {
      assert Current(first, t.registry) == Current(first, s.registry);
      if a.NetworksReceive? {
        forall i | 0 <= i < |s.netQueue| && !s.netQueue[i].affinity.Sticky?
          ensures s.netQueue[i].id == Current(first, s.registry).id
        {
          if i > 0 {
            assert t.netQueue[i - 1] == s.netQueue[i];
          }
        }
      }
      assert Settled(first, s);
    }
  }

  lemma PeersReceiveKeepsAgreement(first: Order, s: System, own: Option<string>)
    requires WellFormed(first, s) && DomainAgrees(first, s, own) && s.peerQueue != []
    ensures WellFormed(first, Step(first, s, PeersReceive)) && DomainAgrees(first, Step(first, s, PeersReceive), own)
  {
    StepKeepsWellFormed(first, s, PeersReceive);
    var sticky := AffinityOf(s.affinities, own).Sticky?;
    NewsOfRest(s.peerQueue, own, sticky);
    var m := s.peerQueue[0];
    assert forall socket :: socket in s.peers && s.peers[socket] == own ==>
        (AffinityMatches(s.affinities, s.peers[socket], m) <==> Reaches(m, own, sticky));
    assert Settled(first, Step(first, s, PeersReceive)) ==> Settled(first, s);
  }

  lemma OtherStepsKeepAgreement(first: Order, s: System, a: Action, own: Option<string>)
    requires WellFormed(first, s) && DomainAgrees(first, s, own) && Enabled(s, a)
    requires a.Connect? || a.Disconnect? || a.AddNetworkStep?
    requires !Silent(first, s, a)
    ensures WellFormed(first, Step(first, s, a)) && DomainAgrees(first, Step(first, s, a), own)
  {
    StepKeepsWellFormed(first, s, a);
    assert Settled(first, Step(first, s, a)) ==> Settled(first, s);
  }

  lemma StepKeepsAgreement(first: Order, s: System, a: Action, own: Option<string>)
    requires WellFormed(first, s) && DomainAgrees(first, s, own) && Enabled(s, a) && LowestGiven(s, a)
    requires (own.None? ==> !Stray(first, s, a)) && !Silent(first, s, a)
    ensures WellFormed(first, Step(first, s, a)) && DomainAgrees(first, Step(first, s, a), own)
  {
    match a
    case SwitchChain(_, _, _) => SwitchKeepsAgreement(first, s, a, own);
    case EditAffinity(_, _) => EditKeepsAgreement(first, s, a, own);
    case RunTask(_) => TaskKeepsAgreement(first, s, a, own);
    case SelectNetwork(_) => SelectKeepsAgreement(first, s, a, own);
    case NetworksReceive => SelectKeepsAgreement(first, s, a, own);
    case PeersReceive => PeersReceiveKeepsAgreement(first, s, own);
    case _ => OtherStepsKeepAgreement(first, s, a, own);
  }

  lemma StepKeepsInvariant(first: Order, s: System, a: Action, all: bool)
    requires Invariant(first, s, all) && Enabled(s, a) && LowestGiven(s, a)
    requires (all ==> !Stray(first, s, a)) && !Silent(first, s, a)
    ensures Invariant(first, Step(first, s, a), all)
  {
    hide Step, DomainAgrees;
    StepKeepsWellFormed(first, s, a);
    forall own: Option<string> | own.Some? || all
      ensures DomainAgrees(first, Step(first, s, a), own)
    {
      StepKeepsAgreement(first, s, a, own);
    }
  }

  // ----- whole runs ------------------------------------------------------------------------

  ghost predicate Start(first: Order, s: System) {
    && IsOrder(first) && KeysAreNames(s.registry.networks) && s.registry.networks != map[]
    && s.peers == map[] && s.told == map[] && s.netQueue == [] && s.peerQueue == [] && s.spawned == []
  }

  /** The states of a run: each follows from the one before it by the action in between. */
  ghost predicate IsRun(first: Order, states: seq<System>, actions: seq<Action>) {
    && |states| == |actions| + 1
    && Start(first, states[0])
    && forall i :: 0 <= i < |actions| ==>
         && states[i].registry.networks != map[] && states[i].peers.Keys == states[i].told.Keys
         && Enabled(states[i], actions[i]) && LowestGiven(states[i], actions[i])
         && states[i + 1] == Step(first, states[i], actions[i])
  }

  ghost predicate NoStrays(first: Order, states: seq<System>, actions: seq<Action>)
    requires IsRun(first, states, actions)
  {
    forall i :: 0 <= i < |actions| ==> !Stray(first, states[i], actions[i])
  }

  /** No network becomes current merely by being added. */
  ghost predicate NoSilentAdditions(first: Order, states: seq<System>, actions: seq<Action>)
    requires IsRun(first, states, actions)
  {
    forall i :: 0 <= i < |actions| ==> !Silent(first, states[i], actions[i])
  }

  ghost predicate OnlyStoredNamesSelected(first: Order, states: seq<System>, actions: seq<Action>)
    requires IsRun(first, states, actions)
  {
    forall i :: 0 <= i < |actions| && actions[i].SelectNetwork? && actions[i].key.ByName? ==>
      actions[i].key.name in states[i].registry.networks
  }

  lemma {:induction false} RunsKeepInvariant(first: Order, states: seq<System>, actions: seq<Action>, i: nat, all: bool)
    requires IsRun(first, states, actions) && i < |states| && NoSilentAdditions(first, states, actions)
    requires all ==> NoStrays(first, states, actions)
    ensures Invariant(first, states[i], all)
  {
    if i == 0 {
      forall own
        ensures DomainAgrees(first, states[0], own)
      {
      }
    } else {
      RunsKeepInvariant(first, states, actions, i - 1, all);
      StepKeepsInvariant(first, states[i - 1], actions[i - 1], all);
    }
  }

  lemma {:induction false} CurrentStaysStored(first: Order, states: seq<System>, actions: seq<Action>, i: nat)
    requires IsRun(first, states, actions) && i < |states|
    requires OnlyStoredNamesSelected(first, states, actions)
    requires states[0].registry.current in states[0].registry.networks
    ensures WellFormed(first, states[i]) && states[i].registry.current in states[i].registry.networks
  {
    if i > 0 {
      CurrentStaysStored(first, states, actions, i - 1);
      var s, a := states[i - 1], actions[i - 1];
      StepKeepsWellFormed(first, s, a);
      match a
      case SelectNetwork(key) => SelectMovesCurrent(first, s.registry, key);
      case NetworksReceive => SelectMovesCurrent(first, s.registry, ById(s.netQueue[0].id));
      case _ =>
    }
  }

  /** It takes the selection of a name that is not stored to make an addition silent. */
  lemma StoredNamesAddOpenly(first: Order, states: seq<System>, actions: seq<Action>)
    requires IsRun(first, states, actions) && OnlyStoredNamesSelected(first, states, actions)
    requires states[0].registry.current in states[0].registry.networks
    ensures NoSilentAdditions(first, states, actions)
  {
    forall i | 0 <= i < |actions|
      ensures !Silent(first, states[i], actions[i])
    {
      CurrentStaysStored(first, states, actions, i);
    }
  }

  predicate Quiescent(s: System) {
    s.netQueue == [] && s.peerQueue == [] && s.spawned == []
  }

  /** In every interleaving of chain switches, affinity edits, selections by any name or id,
      additions, connections and receivers: once both receivers have read everything and no
      announcement is pending, each peer with a domain was last told the chain it is served, unless
      an addition was silent; and so was every other peer if none of those switched its own chain. */
  lemma PeersAgreeAtQuiescence(first: Order, states: seq<System>, actions: seq<Action>, i: nat, socket: Socket)
    requires IsRun(first, states, actions) && i < |states| && Quiescent(states[i])
    requires socket in states[i].peers && NoSilentAdditions(first, states, actions)
    requires states[i].peers[socket].Some? || NoStrays(first, states, actions)
    ensures states[i].registry.networks != map[] && states[i].peers.Keys == states[i].told.Keys
    ensures states[i].told[socket] == Served(first, states[i], states[i].peers[socket])
  {
    RunsKeepInvariant(first, states, actions, i, states[i].peers[socket].None?);
    assert DomainAgrees(first, states[i], states[i].peers[socket]);
  }

  /** An addition keeps a peer that follows the current network in agreement if and only if the
      selected name was stored already, or whatever now is current has the chain served before: the
      added network under the selected name, the first one of the table under another name. */
  lemma AdditionAgreesIff(first: Order, s: System, socket: Socket, name: string, chain: nat)
    requires WellFormed(first, s) && Quiescent(s) && name !in s.registry.networks
    requires socket in s.peers && !AffinityOf(s.affinities, s.peers[socket]).Sticky?
    requires s.told[socket] == Served(first, s, s.peers[socket])
    ensures var t := Step(first, s, AddNetworkStep(name, chain));
            && Quiescent(t) && t.peers == s.peers
            && (t.told[socket] == Served(first, t, t.peers[socket]) <==>
                || s.registry.current in s.registry.networks
                || Served(first, s, s.peers[socket])
                   == if name == s.registry.current then chain
                      else t.registry.networks[first(t.registry.networks)].id.chain)
  {
  }

  /** Selecting a name that is not stored goes unnoticed when the current network is the table's
      first one; a network added later under that name then is current without anybody being told,
      and peers that follow the current network agree exactly if it has the same chain. */
  lemma UnknownNameAgreesIff(first: Order, s: System, socket: Socket, name: string, chain: nat)
    requires WellFormed(first, s) && Quiescent(s) && name !in s.registry.networks
    requires s.registry.current == first(s.registry.networks)
    requires socket in s.peers && !AffinityOf(s.affinities, s.peers[socket]).Sticky?
    requires s.told[socket] == Served(first, s, s.peers[socket])
    ensures var selected := Step(first, s, SelectNetwork(ByName(name)));
            && Quiescent(selected) && selected.registry.networks == s.registry.networks
            && selected.peers == s.peers && selected.told == s.told
            && var t := Step(first, selected, AddNetworkStep(name, chain));
               && Quiescent(t) && t.peers == s.peers
               && (t.told[socket] == Served(first, t, t.peers[socket]) <==>
                   chain == Served(first, s, s.peers[socket]))
  {
    var selected := Step(first, s, SelectNetwork(ByName(name)));
    AdditionAgreesIff(first, selected, socket, name, chain);
  }

  /** The state after a peer without a domain switched its chain and both receivers caught up. */
  function AfterDomainlessSwitch(first: Order, s: System, chain: nat, lowest: nat): System
    requires IsOrder(first) && s.registry.networks != map[] && s.peers.Keys == s.told.Keys && Quiescent(s)
  {
    var a := Step(first, s, SwitchChain(None, chain, lowest));
    if a.peerQueue == [] then a else Step(first, Step(first, a, PeersReceive), NetworksReceive)
  }

  /** When a peer without a domain switches its chain, it still agrees afterwards exactly if the
      switch does nothing: what it is told changes, what it is served does not. */
  lemma DomainlessPeerAgreesIff(first: Order, s: System, socket: Socket, chain: nat, lowest: nat)
    requires WellFormed(first, s) && Quiescent(s) && socket in s.peers && s.peers[socket] == None
    requires s.told[socket] == Served(first, s, None) && IsLowestDedup(s.registry.networks, chain, lowest)
    ensures var t := AfterDomainlessSwitch(first, s, chain, lowest);
            && Quiescent(t) && t.registry == s.registry && socket in t.told
            && (t.told[socket] == Served(first, t, None) <==>
                Served(first, s, None) == chain || !ValidChain(s.registry.networks, chain))
  {
  }

  // ----- what each step does ---------------------------------------------------------------

  /** The affinity read back is the one stored, of whatever kind, and no other domain's changes. */
  lemma StoredAffinityIsRead(affinities: map<string, Affinity>, domain: string, affinity: Affinity, other: string)
    ensures var stored := SetAffinity(affinities, domain, affinity);
            && GetAffinity(stored, domain) == affinity
            && (domain in stored <==> affinity != Unset)
            && (other != domain ==>
                  && GetAffinity(stored, other) == GetAffinity(affinities, other)
                  && (other in stored <==> other in affinities))
  {
  }

  predicate TiedTo(affinities: map<string, Affinity>, own: Option<string>, id: NetworkId) {
    own.Some? && own.value in affinities && affinities[own.value] == Sticky(id)
  }

  /** A site with a fixed network is served that one's chain, and everyone else the current one. */
  lemma ServedByTieElseCurrent(first: Order, s: System, own: Option<string>, id: NetworkId)
    requires IsOrder(first) && s.registry.networks != map[]
    ensures TiedTo(s.affinities, own, id) ==> Served(first, s, own) == id.chain
    ensures (forall any :: !TiedTo(s.affinities, own, any)) ==>
              Served(first, s, own) == Current(first, s.registry).id.chain
  {
    if AffinityOf(s.affinities, own).Sticky? {
      assert TiedTo(s.affinities, own, s.affinities[own.value].id);
    }
  }

  /** A message is sent: both receivers get it last, and nobody has acted on it yet. */
  predicate Posts(s: System, t: System, m: ChainChanged) {
    && t.netQueue == s.netQueue + [m] && t.peerQueue == s.peerQueue + [m]
    && t.registry == s.registry && t.peers == s.peers && t.told == s.told && t.spawned == s.spawned
  }

  /** A site that is not set to follow the current network and asks for a known chain other than
      the one it is served gets it at once, by a fixed affinity of its own; nobody else is served
      anything new, and the message about it names that site. */
  lemma SiteSwitchIsItsOwn(first: Order, s: System, site: string, chain: nat, lowest: nat)
    requires WellFormed(first, s) && ValidChain(s.registry.networks, chain) && Served(first, s, Some(site)) != chain
    requires site in s.affinities ==> !s.affinities[site].Global?
    ensures var t, id := Step(first, s, SwitchChain(Some(site), chain, lowest)), NetworkId(chain, 0);
            && Served(first, t, Some(site)) == chain
            && TiedTo(t.affinities, Some(site), id) && t.affinities.Keys == s.affinities.Keys + {site}
            && (forall d :: d in s.affinities && d != site ==> t.affinities[d] == s.affinities[d])
            && (forall own: Option<string> :: own != Some(site) ==> Served(first, t, own) == Served(first, s, own))
            && Posts(s, t, ChainChanged(id, Some(site), Sticky(id)))
  {
  }

  /** A site that follows the current network changes no affinity by asking for another chain: it
      asks everyone to move to that chain's network of the lowest dedup id. */
  lemma GlobalSwitchIsForAll(first: Order, s: System, site: string, chain: nat, lowest: nat)
    requires WellFormed(first, s) && ValidChain(s.registry.networks, chain) && Served(first, s, Some(site)) != chain
    requires site in s.affinities && s.affinities[site].Global?
    ensures var t := Step(first, s, SwitchChain(Some(site), chain, lowest));
            && t.affinities == s.affinities
            && Posts(s, t, ChainChanged(NetworkId(chain, lowest), None, Global))
  {
  }

  /** A peer without a domain has no place in the store: its request is only announced. */
  lemma DomainlessSwitchIsOnlyAnnounced(first: Order, s: System, chain: nat, lowest: nat)
    requires WellFormed(first, s) && ValidChain(s.registry.networks, chain) && Served(first, s, None) != chain
    ensures var t, id := Step(first, s, SwitchChain(None, chain, lowest)), NetworkId(chain, 0);
            t.affinities == s.affinities && Posts(s, t, ChainChanged(id, None, Sticky(id)))
  {
  }

  lemma IdleSwitchDoesNothing(first: Order, s: System, domain: Option<string>, chain: nat, lowest: nat)
    requires WellFormed(first, s)
    ensures Step(first, s, SwitchChain(domain, chain, lowest)) == s
            <==> Served(first, s, domain) == chain || !ValidChain(s.registry.networks, chain)
  {
    var t := Step(first, s, SwitchChain(domain, chain, lowest));
    if Served(first, s, domain) != chain && ValidChain(s.registry.networks, chain) {
      assert |t.netQueue| == |s.netQueue| + 1;
    }
  }

  /** Setting an affinity by hand stores exactly it and announces it for that site alone, unless it
      names an unknown chain. */
  lemma EditStoresAndAnnounces(first: Order, s: System, site: string, affinity: Affinity)
    requires WellFormed(first, s)
    ensures var t := Step(first, s, EditAffinity(site, affinity));
            if affinity.Sticky? && !ValidChain(s.registry.networks, affinity.id.chain) then t == s
            else
              && GetAffinity(t.affinities, site) == affinity
              && (forall d :: d != site ==> GetAffinity(t.affinities, d) == GetAffinity(s.affinities, d))
              && Posts(s, t, ChainChanged(if affinity.Sticky? then affinity.id else Current(first, s.registry).id,
                                          Some(site), affinity))
  {
  }

  /** The networks actor leaves the current network alone for a message that fixes one site's, and
      moves it to the network any other message names.  A task is left to announce it exactly if
      the current network became another one. */
  lemma NetworksFollowUnlessSticky(first: Order, s: System)
    requires WellFormed(first, s) && s.netQueue != []
    ensures var t, m := Step(first, s, NetworksReceive), s.netQueue[0];
            && t.netQueue == s.netQueue[1..] && t.peerQueue == s.peerQueue
            && t.affinities == s.affinities && t.peers == s.peers && t.told == s.told
            && t.registry.networks == s.registry.networks
            && (m.affinity.Sticky? ==> t.registry == s.registry)
            && (!m.affinity.Sticky? ==> Current(first, t.registry).id == m.id)
            && t.spawned == s.spawned + if Current(first, t.registry) == Current(first, s.registry) then []
                                        else [Current(first, t.registry).id]
  {
    var m := s.netQueue[0];
    if !m.affinity.Sticky? {
      SelectMovesCurrent(first, s.registry, ById(m.id));
    }
  }

  /** A peer is told a chain by a message exactly if the chain is still known and either the
      message fixes the network of that peer's own domain, or it is for everyone and the peer's
      domain has no fixed network. */
  lemma PeerHearsIff(first: Order, s: System, socket: Socket)
    requires IsOrder(first) && s.registry.networks != map[] && s.peers.Keys == s.told.Keys
    requires s.peerQueue != [] && socket in s.peers
    ensures var t, m, own := Step(first, s, PeersReceive), s.peerQueue[0], s.peers[socket];
            var hears := ValidChain(s.registry.networks, m.id.chain) &&
              if m.affinity.Sticky? then own == m.domain
              else !(own.Some? && own.value in s.affinities && s.affinities[own.value].Sticky?);
            && socket in t.told && t.told[socket] == (if hears then m.id.chain else s.told[socket])
            && t == s.(peerQueue := s.peerQueue[1..], told := t.told) && t.told.Keys == s.told.Keys
  {
  }

  /** A peer that connects hears what it is served, one that disconnects is forgotten, and no other
      peer notices. */
  lemma PeersComeAndGo(first: Order, s: System, socket: Socket, domain: Option<string>)
    requires IsOrder(first) && s.registry.networks != map[] && s.peers.Keys == s.told.Keys
    ensures var t, u := Step(first, s, Connect(socket, domain)), Step(first, s, Disconnect(socket));
            && t.peers == s.peers[socket := domain] && t.told.Keys == s.told.Keys + {socket}
            && t.told[socket] == Served(first, t, domain)
            && u.peers.Keys == u.told.Keys == s.peers.Keys - {socket}
            && (forall other :: other in s.peers && other != socket ==>
                  && t.told[other] == u.told[other] == s.told[other]
                  && t.peers[other] == u.peers[other] == s.peers[other])
            && t == s.(peers := t.peers, told := t.told) && u == s.(peers := u.peers, told := u.told)
  {
  }

  /** Choosing a network makes it current and leaves a task to announce it exactly if the current
      network became another one. */
  lemma SelectAnnouncesIffMoved(first: Order, s: System, key: Key)
    requires WellFormed(first, s)
    ensures var t := Step(first, s, SelectNetwork(key));
            && t == s.(registry := t.registry, spawned := t.spawned)
            && t.registry.networks == s.registry.networks
            && (key.ById? && IdTaken(s.registry.networks, key.id) ==> Current(first, t.registry).id == key.id)
            && (key.ByName? && key.name in s.registry.networks ==> Current(first, t.registry).name == key.name)
            && (key.ByChainId? && ValidChain(s.registry.networks, key.chain) ==>
                  Current(first, t.registry).id.chain == key.chain)
            && t.spawned == s.spawned + if Current(first, t.registry) == Current(first, s.registry) then []
                                        else [Current(first, t.registry).id]
  {
    SelectMovesCurrent(first, s.registry, key);
  }

  /** A site's request reaches its end: when the actor comes to the message the current network
      stays, and when the broadcaster does, exactly that site's peers are told. */
  lemma SiteSwitchReachesItsPeers(first: Order, s: System, site: string, chain: nat, lowest: nat)
    requires WellFormed(first, s) && Quiescent(s) && ValidChain(s.registry.networks, chain)
    requires Served(first, s, Some(site)) != chain && (site in s.affinities ==> !s.affinities[site].Global?)
    ensures var sent := Step(first, s, SwitchChain(Some(site), chain, lowest));
            var t := Step(first, Step(first, sent, NetworksReceive), PeersReceive);
            && t == Step(first, Step(first, sent, PeersReceive), NetworksReceive)
            && Quiescent(t) && t.registry == s.registry && t.peers == s.peers && t.told.Keys == s.told.Keys
            && forall socket :: socket in s.peers ==>
                 t.told[socket] == if s.peers[socket] == Some(site) then chain else s.told[socket]
  {
  }

  /** A global site's request reaches its end: the current network is that chain's with the lowest
      dedup id, one task is left to announce it again, and exactly the peers without a fixed
      network are told. */
  lemma GlobalSwitchReachesEveryone(first: Order, s: System, site: string, chain: nat, lowest: nat)
    requires WellFormed(first, s) && Quiescent(s) && ValidChain(s.registry.networks, chain)
    requires IsLowestDedup(s.registry.networks, chain, lowest)
    requires Served(first, s, Some(site)) != chain && site in s.affinities && s.affinities[site].Global?
    ensures var sent := Step(first, s, SwitchChain(Some(site), chain, lowest));
            var t := Step(first, Step(first, sent, NetworksReceive), PeersReceive);
            && t == Step(first, Step(first, sent, PeersReceive), NetworksReceive)
            && t.netQueue == [] && t.peerQueue == [] && t.spawned == [NetworkId(chain, lowest)]
            && Current(first, t.registry).id == NetworkId(chain, lowest)
            && t.affinities == s.affinities && t.peers == s.peers && t.told.Keys == s.told.Keys
            && (forall own :: Served(first, t, own) ==
                  if AffinityOf(s.affinities, own).Sticky? then Served(first, s, own) else chain)
            && forall socket :: socket in s.peers ==>
                 t.told[socket] == if AffinityOf(s.affinities, s.peers[socket]).Sticky? then s.told[socket] else chain
  {
    LowestIsTaken(s.registry.networks, chain, lowest);
    SelectMovesCurrent(first, s.registry, ById(NetworkId(chain, lowest)));
  }

  // ----- the program -----------------------------------------------------------------------

  class App {
    const first: Order
    var registry: Registry
    var affinities: map<string, Affinity>
    var peers: map<Socket, Option<string>>
    var told: map<Socket, nat>
    var netQueue: seq<ChainChanged>
    var peerQueue: seq<ChainChanged>
    var spawned: seq<NetworkId>

    function Contents(): System
      reads this
    {
      System(registry, affinities, peers, told, netQueue, peerQueue, spawned)
    }

    ghost predicate Valid()
      reads this
    {
      WellFormed(first, Contents())
    }

    constructor (first: Order, networks: Table, current: string, stored: map<string, Affinity>)
      requires IsOrder(first) && KeysAreNames(networks) && networks != map[]
      ensures this.first == first && Start(first, Contents()) && Valid()
      ensures registry == Registry(networks, current) && affinities == stored
    {
      this.first := first;
      registry, affinities := Registry(networks, current), stored;
      peers, told, netQueue, peerQueue, spawned := map[], map[], [], [], [];
    }

    method Send(m: ChainChanged)
      modifies this`netQueue, this`peerQueue
      ensures Contents() == Sent(old(Contents()), m)
    {
      netQueue := netQueue + [m];
      peerQueue := peerQueue + [m];
    }

    /** `Store::set_affinity` */
    method StoreAffinity(domain: string, affinity: Affinity)
      modifies this`affinities
      ensures affinities == SetAffinity(old(affinities), domain, affinity)
    {
      if affinity.Unset? {
        affinities := affinities - {domain};
      } else {
        affinities := affinities[domain := affinity];
      }
    }

    method LowestDedupId(chain: nat) returns (dedup: nat)
      ensures IsLowestDedup(registry.networks, chain, dedup)
    {
      var all := OnChain(registry.networks, chain);
      if all == {} {
        return 0;
      }
      var name :| name in all;
      dedup := registry.networks[name].id.dedup;
      var rest := all - {name};
      while rest != {}
        invariant rest < all
        invariant exists n :: n in all - rest && registry.networks[n].id.dedup == dedup
        invariant forall n :: n in all - rest ==> dedup <= registry.networks[n].id.dedup
        decreases |rest|
      {
        var next :| next in rest;
        ghost var best :| best in all - rest && registry.networks[best].id.dedup == dedup;
        rest := rest - {next};
        assert best in all - rest && next in all - rest;
        if registry.networks[next].id.dedup < dedup {
          dedup := registry.networks[next].id.dedup;
        }
      }
    }

    /** `Ctx::switch_chain` */
    method SwitchChain(domain: Option<string>, chain: nat) returns (ok: bool)
      requires Valid()
      modifies this
      ensures Valid()
      ensures ok <==> Served(first, old(Contents()), domain) == chain || ValidChain(old(registry).networks, chain)
      ensures exists lowest ::
                && IsLowestDedup(old(registry).networks, chain, lowest)
                && Contents() == ChainSwitched(first, old(Contents()), domain, chain, lowest)
    {
      ghost var before := Contents();
      var lowest := LowestDedupId(chain);
      StepKeepsWellFormed(first, before, Action.SwitchChain(domain, chain, lowest));
      if Served(first, Contents(), domain) == chain {
        return true;
      }
      if !ValidChain(registry.networks, chain) {
        return false;
      }
      if AffinityOf(affinities, domain).Global? {
        Send(ChainChanged(NetworkId(chain, lowest), None, Global));
      } else {
        var id := NetworkId(chain, 0);
        if domain.Some? {
          StoreAffinity(domain.value, Sticky(id));
        }
        Send(ChainChanged(id, domain, Sticky(id)));
      }
      assert Contents() == ChainSwitched(first, before, domain, chain, lowest);
      return true;
    }

    /** `connections_set_affinity` */
    method ConnectionsSetAffinity(domain: string, affinity: Affinity) returns (ok: bool)
      requires Valid()
      modifies this
      ensures Valid()
      ensures ok <==> affinity.Sticky? ==> ValidChain(old(registry).networks, affinity.id.chain)
      ensures Contents() == AffinityEdited(first, old(Contents()), domain, affinity)
    {
      StepKeepsWellFormed(first, Contents(), EditAffinity(domain, affinity));
      if affinity.Sticky? && !ValidChain(registry.networks, affinity.id.chain) {
        return false;
      }
      var id := if affinity.Sticky? then affinity.id else Current(first, registry).id;
      StoreAffinity(domain, affinity);
      Send(ChainChanged(id, Some(domain), affinity));
      return true;
    }

    method SetCurrent(key: Key)
      requires Valid()
      modifies this
      ensures Contents() == Selected(first, old(Contents()), key)
    {
      var switch := Switched(first, registry, key);
      if switch.Some? {
        registry := switch.value.registry;
        if switch.value.changed {
          spawned := spawned + [Current(first, registry).id];
        }
      }
    }

    /** The networks receiver handles one message. */
    method NetworksReceiver()
      requires Valid() && netQueue != []
      modifies this
      ensures Valid() && Contents() == Step(first, old(Contents()), NetworksReceive)
    {
      StepKeepsWellFormed(first, Contents(), NetworksReceive);
      var m := netQueue[0];
      netQueue := netQueue[1..];
      if m.affinity.Global? || m.affinity.Unset? {
        SetCurrent(ById(m.id));
      }
    }

    /** `broadcast_chain_changed` */
    method BroadcastChainChanged(m: ChainChanged)
      requires peers.Keys == told.Keys
      modifies this`told
      ensures told == Announced(old(Contents()), m)
    {
      if ValidChain(registry.networks, m.id.chain) {
        var rest := peers.Keys;
        while rest != {}
          invariant rest <= peers.Keys == told.Keys
          invariant forall socket :: socket in peers ==>
                      told[socket] == (if socket !in rest && AffinityMatches(affinities, peers[socket], m)
                                       then m.id.chain else old(told)[socket])
          decreases |rest|
        {
          var socket :| socket in rest;
          rest := rest - {socket};
          if AffinityMatches(affinities, peers[socket], m) {
            told := told[socket := m.id.chain];
          }
        }
      }
    }

    /** The peers receiver handles one message. */
    method PeersReceiver()
      requires Valid() && peerQueue != []
      modifies this
      ensures Valid() && Contents() == Step(first, old(Contents()), PeersReceive)
    {
      StepKeepsWellFormed(first, Contents(), PeersReceive);
      var m := peerQueue[0];
      peerQueue := peerQueue[1..];
      BroadcastChainChanged(m);
    }
  }
}
