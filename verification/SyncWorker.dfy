/** The table of synchronisation tasks, one per tracked address and tracked network. */
module SyncWorker {
  import opened Types

  type Pair = (Address, nat)

  /** Which chain ids the transfer service supports. */
  type Support = nat -> bool

  datatype Msg =
    | TrackAddress(address: Address)
    | UntrackAddress(address: Address)
    | TrackNetwork(chain: nat)
    | UntrackNetwork(chain: nat)
    | PollAddress(address: Address)
    | PollNetwork(chain: nat)

  /** `workers`: the pairs the table has a task for.  `running`: those of them whose task still runs;
      a task ends by itself at its first failing request.  `spawned`: tasks started so far; no message
      ends one. */
  datatype State = State(addresses: set<Address>, chainIds: set<nat>,
                         currentAddress: Option<Address>, currentChain: Option<nat>,
                         workers: set<Pair>, running: set<Pair>, spawned: nat)

  const START: State := State({}, {}, None, None, {}, {}, 0)

  function WithAddress(address: Address, chainIds: set<nat>): set<Pair> {
    set c | c in chainIds :: (address, c)
  }

  function WithChain(addresses: set<Address>, chain: nat): set<Pair> {
    set a | a in addresses :: (a, chain)
  }

  function WithoutAddress(pairs: set<Pair>, address: Address): set<Pair> {
    set w | w in pairs && w.0 != address
  }

  function WithoutChain(pairs: set<Pair>, chain: nat): set<Pair> {
    set w | w in pairs && w.1 != chain
  }

  /** The pairs a message starts a task for. */
  function Started(supported: Support, s: State, m: Msg): set<Pair> {
    match m
    case TrackAddress(a) => WithAddress(a, s.chainIds)
    case TrackNetwork(c) => if supported(c) then WithChain(s.addresses, c) else {}
    case _ => {}
  }

  function Step(supported: Support, s: State, m: Msg): State {
    match m
    case TrackAddress(a) =>
      s.(addresses := s.addresses + {a}, workers := s.workers + WithAddress(a, s.chainIds),
         running := s.running + WithAddress(a, s.chainIds), spawned := s.spawned + |s.chainIds|)
    case UntrackAddress(a) =>
      s.(addresses := s.addresses - {a}, workers := WithoutAddress(s.workers, a),
         running := WithoutAddress(s.running, a))
    case TrackNetwork(c) =>
      if !supported(c) then s
      else s.(chainIds := s.chainIds + {c}, workers := s.workers + WithChain(s.addresses, c),
              running := s.running + WithChain(s.addresses, c), spawned := s.spawned + |s.addresses|)
    case UntrackNetwork(c) =>
      s.(chainIds := s.chainIds - {c}, workers := WithoutChain(s.workers, c), running := WithoutChain(s.running, c))
    case PollAddress(a) => s.(currentAddress := Some(a))
    case PollNetwork(c) => if supported(c) then s.(currentChain := Some(c)) else s
  }

  /** The table entry a poll signals. */
  function Signalled(supported: Support, s: State, m: Msg): Option<Pair> {
    var t := Step(supported, s, m);
    if (m.PollAddress? || (m.PollNetwork? && supported(m.chain)))
       && t.currentAddress.Some? && t.currentChain.Some?
       && (t.currentAddress.value, t.currentChain.value) in t.workers
    then Some((t.currentAddress.value, t.currentChain.value)) else None
  }

  // ----- the worker's members --------------------------------------------------------------

  class Worker {
    var addresses: set<Address>
    var chainIds: set<nat>
    var currentAddress: Option<Address>
    var currentChain: Option<nat>
    var workers: set<Pair>
    ghost var running: set<Pair>
    var spawned: nat
    const supported: Support

    ghost function Now(): State
      reads this
    {
      State(addresses, chainIds, currentAddress, currentChain, workers, running, spawned)
    }

    constructor (supported: Support)
      ensures Now() == START && this.supported == supported
    {
      this.supported := supported;
      addresses, chainIds, currentAddress, currentChain := {}, {}, None, None;
      workers, running, spawned := {}, {}, 0;
    }

    method TrackAddr(address: Address)
      modifies this
      ensures Now() == Step(supported, old(Now()), TrackAddress(address))
    {
      addresses := addresses + {address};
      var left := chainIds;
      while left != {}
        invariant left <= chainIds && addresses == old(addresses) + {address}
        invariant chainIds == old(chainIds) && currentAddress == old(currentAddress)
        invariant currentChain == old(currentChain)
        invariant workers == old(workers) + WithAddress(address, chainIds - left)
        invariant running == old(running) + WithAddress(address, chainIds - left)
        invariant spawned == old(spawned) + |chainIds| - |left|
        decreases left
      {
        var chain :| chain in left;
        assert chainIds - (left - {chain}) == chainIds - left + {chain};
        running := running + {(address, chain)};
        workers, spawned, left := workers + {(address, chain)}, spawned + 1, left - {chain};
      }
      assert chainIds - left == chainIds;
    }

    method UntrackAddr(address: Address)
      modifies this
      ensures Now() == Step(supported, old(Now()), UntrackAddress(address))
    {
      addresses := addresses - {address};
      workers := WithoutAddress(workers, address);
      running := WithoutAddress(running, address);
    }

    method TrackNetwork(chain: nat)
      modifies this
      ensures Now() == Step(supported, old(Now()), Msg.TrackNetwork(chain))
    {
      if !supported(chain) {
        return;
      }
      chainIds := chainIds + {chain};
      var left := addresses;
      while left != {}
        invariant left <= addresses && chainIds == old(chainIds) + {chain}
        invariant addresses == old(addresses) && currentAddress == old(currentAddress)
        invariant currentChain == old(currentChain)
        invariant workers == old(workers) + WithChain(addresses - left, chain)
        invariant running == old(running) + WithChain(addresses - left, chain)
        invariant spawned == old(spawned) + |addresses| - |left|
        decreases left
      {
        var address :| address in left;
        assert addresses - (left - {address}) == addresses - left + {address};
        running := running + {(address, chain)};
        workers, spawned, left := workers + {(address, chain)}, spawned + 1, left - {address};
      }
      assert addresses - left == addresses;
    }

    method UntrackNetwork(chain: nat)
      modifies this
      ensures Now() == Step(supported, old(Now()), Msg.UntrackNetwork(chain))
    {
      chainIds := chainIds - {chain};
      workers := WithoutChain(workers, chain);
      running := WithoutChain(running, chain);
    }

    method PrioritizeAddr(address: Address) returns (signalled: Option<Pair>)
      modifies this
      ensures Now() == Step(supported, old(Now()), PollAddress(address))
      ensures signalled == Signalled(supported, old(Now()), PollAddress(address))
    {
      currentAddress := Some(address);
      if currentChain.Some? && (address, currentChain.value) in workers {
        return Some((address, currentChain.value));
      }
      return None;
    }

    method PrioritizeNetwork(chain: nat) returns (signalled: Option<Pair>)
      modifies this
      ensures Now() == Step(supported, old(Now()), PollNetwork(chain))
      ensures signalled == Signalled(supported, old(Now()), PollNetwork(chain))
    {
      if !supported(chain) {
        return None;
      }
      currentChain := Some(chain);
      if currentAddress.Some? && (currentAddress.value, chain) in workers {
        return Some((currentAddress.value, chain));
      }
      return None;
    }
  }

  // ----- what every run keeps --------------------------------------------------------------

  /** A message is handled, or the task of a pair of the table ends at a failing request. */
  datatype Act = Handle(msg: Msg) | Dies(pair: Pair)

  function Moved(supported: Support, s: State, a: Act): State {
    match a
    case Handle(m) => Step(supported, s, m)
    case Dies(pair) => s.(running := s.running - {pair})
  }

  function Run(supported: Support, acts: seq<Act>): State {
    if acts == [] then START else Moved(supported, Run(supported, acts[..|acts| - 1]), acts[|acts| - 1])
  }

  ghost predicate IsProduct(supported: Support, s: State) {
    && (forall a, c :: (a, c) in s.workers <==> a in s.addresses && c in s.chainIds)
    && (forall c :: c in s.chainIds ==> supported(c))
  }

  lemma StepKeepsProduct(supported: Support, s: State, a: Act)
    requires IsProduct(supported, s)
    ensures IsProduct(supported, Moved(supported, s, a))
  {
  }

  lemma {:induction false} RunIsProduct(supported: Support, acts: seq<Act>)
    ensures IsProduct(supported, Run(supported, acts))
  {
    if acts != [] {
      hide Moved, IsProduct;
      RunIsProduct(supported, acts[..|acts| - 1]);
      StepKeepsProduct(supported, Run(supported, acts[..|acts| - 1]), acts[|acts| - 1]);
    }
  }

  /** The pair's task ended after the last message that started one for it. */
  ghost predicate DiedSince(supported: Support, acts: seq<Act>, pair: Pair) {
    acts != [] &&
    var fewer, last := acts[..|acts| - 1], acts[|acts| - 1];
    if last.Dies? then last.pair == pair || DiedSince(supported, fewer, pair)
    else pair !in Started(supported, Run(supported, fewer), last.msg) && DiedSince(supported, fewer, pair)
  }

  lemma OneMoreAct(supported: Support, s: State, a: Act, pair: Pair)
    requires s.running <= s.workers
    ensures Moved(supported, s, a).running <= Moved(supported, s, a).workers
    ensures var t := Moved(supported, s, a);
            match a
            case Dies(p) => t.workers == s.workers && (pair in t.running <==> pair in s.running && pair != p)
            case Handle(m) =>
              && (pair in Started(supported, s, m) ==> pair in t.running)
              && (pair !in Started(supported, s, m) ==>
                    && (pair in t.workers ==> pair in s.workers)
                    && (pair in t.running <==> pair in s.running && pair in t.workers))
  {
  }

  /** Over all runs: the table's task for a pair runs if and only if the table has one and it did not
      end by itself since it was started. */
  lemma {:induction false} RunsIffNotDied(supported: Support, acts: seq<Act>, pair: Pair)
    ensures Run(supported, acts).running <= Run(supported, acts).workers
    ensures pair in Run(supported, acts).running <==>
            pair in Run(supported, acts).workers && !DiedSince(supported, acts, pair)
  {
    if acts != [] {
      hide Moved, Started;
      var fewer, last := acts[..|acts| - 1], acts[|acts| - 1];
      RunsIffNotDied(supported, fewer, pair);
      OneMoreAct(supported, Run(supported, fewer), last, pair);
    }
  }

  /** After any run the table holds exactly the tracked addresses times the tracked networks, all of
      them supported, so a poll signals an entry exactly when the current pair is tracked. */
  lemma TableIsProduct(supported: Support, acts: seq<Act>, m: Msg)
    ensures IsProduct(supported, Run(supported, acts))
    ensures var s, t := Run(supported, acts), Step(supported, Run(supported, acts), m);
            Signalled(supported, s, m).Some? <==>
            && (m.PollAddress? || (m.PollNetwork? && supported(m.chain)))
            && t.currentAddress.Some? && t.currentAddress.value in s.addresses
            && t.currentChain.Some? && t.currentChain.value in s.chainIds
    ensures var t, signalled := Step(supported, Run(supported, acts), m), Signalled(supported, Run(supported, acts), m);
            signalled.Some? ==>
              t.currentAddress == Some(signalled.value.0) && t.currentChain == Some(signalled.value.1)
  {
    hide Run;
    RunIsProduct(supported, acts);
    StepKeepsProduct(supported, Run(supported, acts), Handle(m));
  }

  /** What a poll wakes up, if anything. */
  function Woken(supported: Support, s: State, m: Msg): Option<Pair> {
    var pair := Signalled(supported, s, m);
    if pair.Some? && pair.value in s.running then pair else None
  }

  /** A poll wakes a task if and only if the current pair is tracked and its task did not end by
      itself since it was started. */
  lemma PollWakesIffAlive(supported: Support, acts: seq<Act>, m: Msg)
    ensures var s, t := Run(supported, acts), Step(supported, Run(supported, acts), m);
            Woken(supported, s, m).Some? <==>
            && (m.PollAddress? || (m.PollNetwork? && supported(m.chain)))
            && t.currentAddress.Some? && t.currentAddress.value in s.addresses
            && t.currentChain.Some? && t.currentChain.value in s.chainIds
            && !DiedSince(supported, acts, (t.currentAddress.value, t.currentChain.value))
  {
    hide Run, DiedSince;
    TableIsProduct(supported, acts, m);
    var t := Step(supported, Run(supported, acts), m);
    if t.currentAddress.Some? && t.currentChain.Some? {
      RunsIffNotDied(supported, acts, (t.currentAddress.value, t.currentChain.value));
    }
  }

  // ----- the state, read off the messages ----------------------------------------------------

  /** The message was handled, and after it none that undoes it. */
  ghost predicate Stands(acts: seq<Act>, on: Msg, undoes: Msg -> bool) {
    exists i :: 0 <= i < |acts| && acts[i] == Handle(on)
                && forall j :: i < j < |acts| && acts[j].Handle? ==> !undoes(acts[j].msg)
  }

  function UntracksAddress(address: Address): Msg -> bool {
    (m: Msg) => m == UntrackAddress(address)
  }

  function UntracksNetwork(chain: nat): Msg -> bool {
    (m: Msg) => m == UntrackNetwork(chain)
  }

  function PollsAddress(): Msg -> bool {
    (m: Msg) => m.PollAddress?
  }

  function PollsNetwork(supported: Support): Msg -> bool {
    (m: Msg) => m.PollNetwork? && supported(m.chain)
  }

  lemma StoodBefore(acts: seq<Act>, a: Act, on: Msg, undoes: Msg -> bool)
    requires Stands(acts + [a], on, undoes)
    ensures a == Handle(on) || (Stands(acts, on, undoes) && !(a.Handle? && undoes(a.msg)))
  {
    var all := acts + [a];
    var i :| 0 <= i < |all| && all[i] == Handle(on)
             && forall j :: i < j < |all| && all[j].Handle? ==> !undoes(all[j].msg);
    assert all[|acts|] == a;
    if i < |acts| {
      assert acts[i] == Handle(on);
      assert forall j :: i < j < |acts| ==> acts[j] == all[j];
    }
  }

  lemma StandsAfterwards(acts: seq<Act>, a: Act, on: Msg, undoes: Msg -> bool)
    requires a == Handle(on) || (Stands(acts, on, undoes) && !(a.Handle? && undoes(a.msg)))
    ensures Stands(acts + [a], on, undoes)
  {
    var all := acts + [a];
    if a == Handle(on) {
      assert all[|acts|] == Handle(on);
    } else {
      var i :| 0 <= i < |acts| && acts[i] == Handle(on)
               && forall j :: i < j < |acts| && acts[j].Handle? ==> !undoes(acts[j].msg);
      assert all[i] == Handle(on);
    }
  }

  lemma StandsAfterSnoc(acts: seq<Act>, a: Act, on: Msg, undoes: Msg -> bool)
    ensures Stands(acts + [a], on, undoes) <==>
            a == Handle(on) || (Stands(acts, on, undoes) && !(a.Handle? && undoes(a.msg)))
  {
    hide Stands;
    if Stands(acts + [a], on, undoes) {
      StoodBefore(acts, a, on, undoes);
    } else if a == Handle(on) || (Stands(acts, on, undoes) && !(a.Handle? && undoes(a.msg))) {
      StandsAfterwards(acts, a, on, undoes);
    }
  }

  lemma ActMovesFields(supported: Support, s: State, a: Act, address: Address, chain: nat)
    ensures var t := Moved(supported, s, a);
            && (address in t.addresses <==>
                a == Handle(TrackAddress(address))
                || (address in s.addresses && !(a.Handle? && UntracksAddress(address)(a.msg))))
            && (chain in t.chainIds <==>
                (supported(chain) && a == Handle(Msg.TrackNetwork(chain)))
                || (chain in s.chainIds && !(a.Handle? && UntracksNetwork(chain)(a.msg))))
            && (t.currentAddress == Some(address) <==>
                a == Handle(PollAddress(address))
                || (s.currentAddress == Some(address) && !(a.Handle? && PollsAddress()(a.msg))))
            && (t.currentChain == Some(chain) <==>
                (supported(chain) && a == Handle(PollNetwork(chain)))
                || (s.currentChain == Some(chain) && !(a.Handle? && PollsNetwork(supported)(a.msg))))
  {
  }

  /** An address is tracked if and only if the last message about tracking it says so, and so is a
      supported network; the current address and chain are those polled last. */
  lemma {:induction false} StateIsWhatMessagesSay(supported: Support, acts: seq<Act>, address: Address, chain: nat)
    ensures var s := Run(supported, acts);
            && (address in s.addresses <==> Stands(acts, TrackAddress(address), UntracksAddress(address)))
            && (chain in s.chainIds <==>
                supported(chain) && Stands(acts, Msg.TrackNetwork(chain), UntracksNetwork(chain)))
            && (s.currentAddress == Some(address) <==> Stands(acts, PollAddress(address), PollsAddress()))
            && (s.currentChain == Some(chain) <==>
                supported(chain) && Stands(acts, PollNetwork(chain), PollsNetwork(supported)))
  {
    if acts != [] {
      hide Stands, Moved;
      var fewer, last := acts[..|acts| - 1], acts[|acts| - 1];
      assert acts == fewer + [last];
      StateIsWhatMessagesSay(supported, fewer, address, chain);
      ActMovesFields(supported, Run(supported, fewer), last, address, chain);
      StandsAfterSnoc(fewer, last, TrackAddress(address), UntracksAddress(address));
      StandsAfterSnoc(fewer, last, Msg.TrackNetwork(chain), UntracksNetwork(chain));
      StandsAfterSnoc(fewer, last, PollAddress(address), PollsAddress());
      StandsAfterSnoc(fewer, last, PollNetwork(chain), PollsNetwork(supported));
    }
  }

  // ----- tasks nobody can reach ------------------------------------------------------------

  /** Tasks that were started and are no longer in the table. */
  function Orphans(s: State): int {
    s.spawned - |s.workers|
  }

  /** The pairs of the table that the message tracks again or drops. */
  function Touched(supported: Support, s: State, m: Msg): set<Pair> {
    match m
    case TrackAddress(a) => set w | w in s.workers && w.0 == a
    case UntrackAddress(a) => set w | w in s.workers && w.0 == a
    case TrackNetwork(c) => if supported(c) then set w | w in s.workers && w.1 == c else {}
    case UntrackNetwork(c) => set w | w in s.workers && w.1 == c
    case _ => {}
  }

  lemma {:induction false} AddressCounts(a: Address, chainIds: set<nat>)
    ensures |WithAddress(a, chainIds)| == |chainIds|
    decreases chainIds
  {
    if chainIds != {} {
      var x :| x in chainIds;
      AddressCounts(a, chainIds - {x});
      assert WithAddress(a, chainIds) == WithAddress(a, chainIds - {x}) + {(a, x)};
    }
  }

  lemma {:induction false} ChainCounts(addresses: set<Address>, c: nat)
    ensures |WithChain(addresses, c)| == |addresses|
    decreases addresses
  {
    if addresses != {} {
      var x :| x in addresses;
      ChainCounts(addresses - {x}, c);
      assert WithChain(addresses, c) == WithChain(addresses - {x}, c) + {(x, c)};
    }
  }

  /** Each message orphans exactly the tasks of the pairs it touches. */
  lemma StepOrphansTouched(supported: Support, s: State, m: Msg)
    requires IsProduct(supported, s)
    ensures Orphans(Step(supported, s, m)) == Orphans(s) + |Touched(supported, s, m)|
  {
    var t, touched := Step(supported, s, m), Touched(supported, s, m);
    match m
    case TrackAddress(a) =>
      AddressCounts(a, s.chainIds);
      assert touched == s.workers * WithAddress(a, s.chainIds);
    case TrackNetwork(c) =>
      ChainCounts(s.addresses, c);
      if supported(c) {
        assert touched == s.workers * WithChain(s.addresses, c);
      }
    case UntrackAddress(a) => assert t.workers == s.workers - touched;
    case UntrackNetwork(c) => assert t.workers == s.workers - touched;
    case _ =>
  }

  /** The pairs of the table that an act tracks again or drops. */
  function TouchedBy(supported: Support, s: State, a: Act): set<Pair> {
    match a
    case Handle(m) => Touched(supported, s, m)
    case Dies(_) => {}
  }

  lemma RunUnfolds(supported: Support, acts: seq<Act>)
    ensures if acts == [] then Orphans(Run(supported, acts)) == 0
            else Run(supported, acts) == Moved(supported, Run(supported, acts[..|acts| - 1]), acts[|acts| - 1])
  {
  }

  lemma ActOrphansTouched(supported: Support, s: State, a: Act)
    requires IsProduct(supported, s)
    ensures Orphans(Moved(supported, s, a)) == Orphans(s) + |TouchedBy(supported, s, a)|
  {
    if a.Handle? {
      StepOrphansTouched(supported, s, a.msg);
    }
  }

  /** The table still has every task started if and only if no message of the run tracked a pair of
      the table again or dropped one. */
  lemma {:induction false} NoOrphansIffNothingTouched(supported: Support, acts: seq<Act>)
    ensures Orphans(Run(supported, acts)) >= 0
    ensures Orphans(Run(supported, acts)) == 0 <==>
            forall i :: 0 <= i < |acts| ==> TouchedBy(supported, Run(supported, acts[..i]), acts[i]) == {}
  {
    hide Run, Moved, TouchedBy, Orphans;
    RunUnfolds(supported, acts);
    if acts != [] {
      var fewer, n := acts[..|acts| - 1], |acts| - 1;
      NoOrphansIffNothingTouched(supported, fewer);
      RunIsProduct(supported, fewer);
      ActOrphansTouched(supported, Run(supported, fewer), acts[n]);
      forall i | 0 <= i < n
        ensures TouchedBy(supported, Run(supported, fewer[..i]), fewer[i])
                == TouchedBy(supported, Run(supported, acts[..i]), acts[i])
      {
        assert fewer[..i] == acts[..i];
      }
    }
  }
}
