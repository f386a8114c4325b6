/** The actor that owns the list of networks and the current one. */
module Networks {
  import opened Types

  datatype Status = Unknown | Online | Offline

  datatype Network = Network(id: NetworkId, name: string, status: Status)

  type Table = map<string, Network>

  /** The iteration order of the hash map, seen through the entry it yields first. */
  type Order = Table -> string

  ghost predicate IsOrder(first: Order) {
    forall m: Table :: m != map[] ==> first(m) in m
  }

  datatype Key = ById(id: NetworkId) | ByChainId(chain: nat) | ByName(name: string)

  datatype Registry = Registry(networks: Table, current: string)

  // ----- queries ---------------------------------------------------------------------------

  function Matching(m: Table, key: Key): Table {
    map name | name in m &&
      match key {
        case ById(id) => m[name].id == id
        case ByChainId(chain) => m[name].id.chain == chain
        case ByName(wanted) => m[name].name == wanted
      } :: m[name]
  }

  function Find(first: Order, m: Table, key: Key): (r: Option<Network>)
    requires IsOrder(first)
    ensures r.Some? ==> exists name :: name in m && m[name] == r.value && name in Matching(m, key)
    ensures r.None? <==> Matching(m, key) == map[]
  {
    var found := Matching(m, key);
    if found == map[] then None else Some(found[first(found)])
  }

  /** `get_current_inner`: the named network, or any other one if that name is gone. */
  function Current(first: Order, r: Registry): Network
    requires IsOrder(first) && r.networks != map[]
  {
    if r.current in r.networks then r.networks[r.current] else r.networks[first(r.networks)]
  }

  predicate ValidChain(m: Table, chain: nat) {
    exists name :: name in m && m[name].id.chain == chain
  }

  function OnChain(m: Table, chain: nat): set<string> {
    set name | name in m && m[name].id.chain == chain
  }

  /** What `get_lowest_dedup_id` returns. */
  ghost predicate IsLowestDedup(m: Table, chain: nat, dedup: nat) {
    && (OnChain(m, chain) == {} ==> dedup == 0)
    && (OnChain(m, chain) != {} ==>
          && (exists name :: name in OnChain(m, chain) && m[name].id.dedup == dedup)
          && forall name :: name in OnChain(m, chain) ==> dedup <= m[name].id.dedup)
  }

  // ----- commands --------------------------------------------------------------------------

  /** `set_current`: the new registry, and whether the current network became another one. */
  datatype Switch = Switch(registry: Registry, changed: bool)

  function Switched(first: Order, r: Registry, key: Key): Option<Switch>
    requires IsOrder(first) && r.networks != map[]
  {
    var name := if key.ByName? then Some(key.name)
                else
                  var n := Find(first, r.networks, key);
                  if n.Some? then Some(n.value.name) else None;
    if name.None? then None
    else
      var after := r.(current := name.value);
      Some(Switch(after, Current(first, r).name != Current(first, after).name))
  }

  function Added(m: Table, name: string, chain: nat): Table {
    m[name := Network(NetworkId(chain, |OnChain(m, chain)|), name, Unknown)]
  }

  function IdTaken(m: Table, id: NetworkId): bool {
    exists name :: name in m && m[name].id == id
  }

  function Updated(m: Table, updates: seq<(string, Network)>): Table {
    if updates == [] then m
    else Updated(m, updates[..|updates| - 1])[updates[|updates| - 1].0 := updates[|updates| - 1].1]
  }

  class NetworksActor {
    const first: Order
    var networks: Table
    var current: string
    /** Ids of the `chainChanged` notices this actor has spawned tasks for. */
    var notices: seq<NetworkId>

    ghost predicate Valid()
      reads this
    {
      IsOrder(first) && networks != map[]
    }

    function Contents(): Registry
      reads this
    {
      Registry(networks, current)
    }

    /** Starts from the built-in networks. */
    constructor (first: Order)
      requires IsOrder(first)
      ensures Valid() && Contents() == Defaults() && notices == [] && this.first == first
      ensures current == "Anvil" && networks.Keys == {"Anvil", "Mainnet", "Sepolia"}
      ensures networks["Anvil"].id == NetworkId(31337, 0) && networks["Mainnet"].id == NetworkId(1, 0)
      ensures networks["Sepolia"].id == NetworkId(11155111, 0)
      ensures forall name :: name in networks ==> networks[name].name == name && networks[name].status == Unknown
    {
      assert "Anvil" in Defaults().networks;
      NamesDiffer();
      this.first := first;
      networks, current, notices := Defaults().networks, Defaults().current, [];
    }

    method SetCurrent(key: Key) returns (ok: bool)
      requires Valid()
      modifies this`current, this`notices
      ensures ok <==> Switched(first, old(Contents()), key).Some?
      ensures !ok ==> Contents() == old(Contents()) && notices == old(notices)
      ensures ok ==>
                var s := Switched(first, old(Contents()), key).value;
                && Contents() == s.registry
                && notices == old(notices) + if s.changed then [Current(first, Contents()).id] else []
    {
      var name: string;
      match key {
        case ByName(n) =>
          name := n;
        case _ =>
          var found := Find(first, networks, key);
          if found.None? {
            return false;
          }
          name := found.value.name;
      }
      var previous := Current(first, Contents()).name;
      current := name;
      if previous != Current(first, Contents()).name {
        notices := notices + [Current(first, Contents()).id];
      }
      return true;
    }

    /** `is_dev` asks the node; `None` is a failed request. */
    method Add(name: string, chain: nat, isDev: Option<bool>) returns (ok: bool)
      modifies this`networks
      ensures ok <==>
              && name !in old(networks) && isDev.Some?
              && (isDev.value || !IdTaken(old(networks), NetworkId(chain, |OnChain(old(networks), chain)|)))
      ensures networks == if ok then Added(old(networks), name, chain) else old(networks)
      ensures networks == Commanded(old(networks), AddNetwork(name, chain, isDev))
      ensures ok ==>
                var before := set n | n in old(networks) && old(networks)[n].id.chain == chain;
                networks == old(networks)[name := Network(NetworkId(chain, |before|), name, Unknown)]
    {
      if name in networks {
        return false;
      }
      var network := Network(NetworkId(chain, |OnChain(networks, chain)|), name, Unknown);
      if isDev.None? || (!isDev.value && IdTaken(networks, network.id)) {
        return false;
      }
      networks := networks[name := network];
      return true;
    }

    method Remove(name: string) returns (ok: bool)
      requires Valid()
      modifies this
      ensures networks == old(networks) - {name}
      ensures ok <==> name in old(networks) && (old(current) == name ==> networks != map[])
      ensures !ok || old(current) != name ==> current == old(current) && notices == old(notices)
      ensures ok && old(current) == name ==>
                && current == networks[first(networks)].name
                && notices == old(notices) + [Current(first, Contents()).id]
    {
      ok := name in networks;
      networks := networks - {name};
      if ok && current == name {
        if networks == map[] {
          return false;
        }
        current := networks[first(networks)].name;
        notices := notices + [Current(first, Contents()).id];
      }
    }

    method UpdateStatuses(updates: seq<(string, Network)>)
      modifies this`networks
      ensures networks == Commanded(old(networks), StatusUpdate(updates))
      ensures networks == Updated(old(networks), updates)
    {
      for i := 0 to |updates|
        invariant networks == Updated(old(networks), updates[..i])
      {
        assert updates[..i + 1][..i] == updates[..i];
        networks := networks[updates[i].0 := updates[i].1];
      }
      assert updates[..|updates|] == updates;
    }
  }

  function Defaults(): Registry {
    Registry(map["Anvil" := Network(NetworkId(31337, 0), "Anvil", Unknown),
                 "Mainnet" := Network(NetworkId(1, 0), "Mainnet", Unknown),
                 "Sepolia" := Network(NetworkId(11155111, 0), "Sepolia", Unknown)],
             "Anvil")
  }

  // ----- numbering of networks that share a chain id ---------------------------------------

  ghost predicate KeysAreNames(m: Table) {
    forall name :: name in m ==> m[name].name == name
  }

  ghost predicate DistinctIds(m: Table) {
    forall a, b :: a in m && b in m && m[a].id == m[b].id ==> a == b
  }

  /** The dedup ids in use on a chain are exactly 0, 1, ..., k-1. */
  ghost predicate Gapless(m: Table, chain: nat) {
    forall dedup: nat :: IdTaken(m, NetworkId(chain, dedup)) <==> dedup < |OnChain(m, chain)|
  }

  ghost predicate Numbered(m: Table) {
    && KeysAreNames(m)
    && DistinctIds(m)
    && forall chain: nat :: Gapless(m, chain)
  }

  datatype Command =
    | SetCurrentTo(key: Key)
    | AddNetwork(name: string, chain: nat, isDev: Option<bool>)
    | StatusUpdate(updates: seq<(string, Network)>)

  /** Each entry is a stored network with its status polled anew. */
  ghost predicate CurrentSnapshot(m: Table, updates: seq<(string, Network)>) {
    forall i :: 0 <= i < |updates| ==>
      updates[i].0 in m && updates[i].1 == m[updates[i].0].(status := updates[i].1.status)
  }

  function Commanded(m: Table, c: Command): Table {
    match c
    case SetCurrentTo(_) => m
    case AddNetwork(name, chain, isDev) =>
      if name in m || isDev.None? || (!isDev.value && IdTaken(m, NetworkId(chain, |OnChain(m, chain)|)))
      then m else Added(m, name, chain)
    case StatusUpdate(updates) => Updated(m, updates)
  }

  function CommandedAll(commands: seq<Command>): Table {
    if commands == [] then Defaults().networks
    else Commanded(CommandedAll(commands[..|commands| - 1]), commands[|commands| - 1])
  }

  ghost predicate SnapshotsAreCurrent(commands: seq<Command>) {
    forall i :: 0 <= i < |commands| && commands[i].StatusUpdate? ==>
      CurrentSnapshot(CommandedAll(commands[..i]), commands[i].updates)
  }

  ghost predicate SameIds(a: Table, b: Table) {
    a.Keys == b.Keys && forall name :: name in a ==> a[name].id == b[name].id && a[name].name == b[name].name
  }

  lemma SameIdsNumberedAlike(a: Table, b: Table)
    requires SameIds(a, b) && Numbered(a)
    ensures Numbered(b)
  {
    forall chain: nat
      ensures Gapless(b, chain)
    {
      assert Gapless(a, chain);
      assert OnChain(a, chain) == OnChain(b, chain);
      forall dedup: nat
        ensures IdTaken(a, NetworkId(chain, dedup)) <==> IdTaken(b, NetworkId(chain, dedup))
      {
      }
    }
  }

  lemma {:induction false} UpdatesKeepIds(m: Table, updates: seq<(string, Network)>)
    requires CurrentSnapshot(m, updates)
    ensures SameIds(m, Updated(m, updates))
  {
    if updates != [] {
      UpdatesKeepIds(m, updates[..|updates| - 1]);
    }
  }

  lemma {:induction false} UnlistedKeyStays(m: Table, updates: seq<(string, Network)>, key: string)
    requires forall i :: 0 <= i < |updates| ==> updates[i].0 != key
    ensures key in Updated(m, updates) <==> key in m
    ensures key in m ==> Updated(m, updates)[key] == m[key]
  {
    if updates != [] {
      UnlistedKeyStays(m, updates[..|updates| - 1], key);
    }
  }

  /** A key ends with the network of its last update. */
  lemma {:induction false} LastUpdateWins(m: Table, updates: seq<(string, Network)>, last: nat)
    requires last < |updates| && forall i :: last < i < |updates| ==> updates[i].0 != updates[last].0
    ensures updates[last].0 in Updated(m, updates) && Updated(m, updates)[updates[last].0] == updates[last].1
  {
    if last < |updates| - 1 {
      LastUpdateWins(m, updates[..|updates| - 1], last);
    }
  }

  lemma IdsAfterAdd(m: Table, name: string, chain: nat, id: NetworkId)
    requires name !in m
    ensures IdTaken(Added(m, name, chain), id) <==>
            IdTaken(m, id) || id == NetworkId(chain, |OnChain(m, chain)|)
  {
    var after := Added(m, name, chain);
    assert after[name].id == NetworkId(chain, |OnChain(m, chain)|);
    if IdTaken(m, id) {
      var n :| n in m && m[n].id == id;
      assert after[n].id == id;
    }
  }

  lemma CountAfterAdd(m: Table, name: string, chain: nat, c: nat)
    requires name !in m
    ensures |OnChain(Added(m, name, chain), c)| == |OnChain(m, c)| + if c == chain then 1 else 0
  {
    assert OnChain(Added(m, name, chain), c) == OnChain(m, c) + if c == chain then {name} else {};
  }

  lemma AddKeepsGapless(m: Table, name: string, chain: nat, c: nat)
    requires Gapless(m, c) && name !in m
    ensures Gapless(Added(m, name, chain), c)
  {
    hide IdTaken, Added, OnChain;
    var after := Added(m, name, chain);
    CountAfterAdd(m, name, chain, c);
    forall dedup: nat
      ensures IdTaken(after, NetworkId(c, dedup)) <==> dedup < |OnChain(after, c)|
    {
      IdsAfterAdd(m, name, chain, NetworkId(c, dedup));
    }
  }

  lemma AddKeepsNumbering(m: Table, name: string, chain: nat)
    requires Numbered(m) && name !in m
    ensures Numbered(Added(m, name, chain))
  {
    forall c: nat
      ensures Gapless(Added(m, name, chain), c)
    {
      AddKeepsGapless(m, name, chain, c);
    }
    assert Gapless(m, chain) && !IdTaken(m, NetworkId(chain, |OnChain(m, chain)|));
  }

  lemma NamesDiffer()
    ensures "Anvil" != "Mainnet" && "Anvil" != "Sepolia" && "Mainnet" != "Sepolia"
    ensures "Second" !in Defaults().networks && "Third" !in Defaults().networks && "Second" != "Third"
  {
    assert "Anvil"[0] == 'A' && "Mainnet"[0] == 'M' && "Sepolia"[0] == 'S' && "Third"[0] == 'T';
    assert "Second"[0] == 'S' && "Second"[2] == 'c' && "Sepolia"[2] == 'p';
  }

  lemma DefaultsAreGapless(chain: nat)
    ensures Gapless(Defaults().networks, chain)
  {
    var m := Defaults().networks;
    NamesDiffer();
    var name := if chain == 31337 then "Anvil" else if chain == 1 then "Mainnet" else "Sepolia";
    if chain == 31337 || chain == 1 || chain == 11155111 {
      assert OnChain(m, chain) == {name};
      assert m[name].id == NetworkId(chain, 0);
    } else {
      assert OnChain(m, chain) == {};
    }
    forall dedup: nat
      ensures IdTaken(m, NetworkId(chain, dedup)) <==> dedup < |OnChain(m, chain)|
    {
      if IdTaken(m, NetworkId(chain, dedup)) {
        var n :| n in m && m[n].id == NetworkId(chain, dedup);
        assert n in OnChain(m, chain);
      }
    }
  }

  lemma DefaultsAreNumbered()
    ensures Numbered(Defaults().networks)
  {
    NamesDiffer();
    forall chain: nat
      ensures Gapless(Defaults().networks, chain)
    {
      DefaultsAreGapless(chain);
    }
  }

  /** From the defaults, any run of additions, switches and status polls keeps names as keys, ids
      distinct and the numbering of each chain gapless. */
  lemma {:induction false} RunsKeepNumbering(commands: seq<Command>)
    requires SnapshotsAreCurrent(commands)
    ensures Numbered(CommandedAll(commands))
  {
    if commands == [] {
      DefaultsAreNumbered();
    } else {
      var fewer, last := commands[..|commands| - 1], commands[|commands| - 1];
      assert forall i :: 0 <= i < |fewer| ==> fewer[..i] == commands[..i];
      RunsKeepNumbering(fewer);
      var m := CommandedAll(fewer);
      match last
      case SetCurrentTo(_) =>
      case AddNetwork(name, chain, _) =>
        if Commanded(m, last) != m {
          AddKeepsNumbering(m, name, chain);
        }
      case StatusUpdate(updates) =>
        UpdatesKeepIds(m, updates);
        SameIdsNumberedAlike(m, Updated(m, updates));
    }
  }

  /** So the check for a taken id, which the source makes after numbering a new network, never
      rejects one in such a run. */
  lemma SecondCheckNeverFires(commands: seq<Command>, chain: nat)
    requires SnapshotsAreCurrent(commands)
    ensures !IdTaken(CommandedAll(commands), NetworkId(chain, |OnChain(CommandedAll(commands), chain)|))
  {
    RunsKeepNumbering(commands);
    assert Gapless(CommandedAll(commands), chain);
  }

  /** A numbered table always offers dedup id 0 for a known chain. */
  lemma LowestDedupIsZero(m: Table, chain: nat, dedup: nat)
    requires Numbered(m) && IsLowestDedup(m, chain, dedup)
    ensures dedup == 0
  {
    if OnChain(m, chain) != {} {
      assert Gapless(m, chain);
      assert IdTaken(m, NetworkId(chain, 0));
      var name :| name in m && m[name].id == NetworkId(chain, 0);
      assert name in OnChain(m, chain);
    }
  }

  lemma IdsAfterRemove(m: Table, name: string, id: NetworkId)
    requires DistinctIds(m) && name in m
    ensures IdTaken(m - {name}, id) <==> IdTaken(m, id) && id != m[name].id
  {
    if n :| n in m && m[n].id == id && id != m[name].id {
      assert n in m - {name} && (m - {name})[n].id == id;
    }
  }

  lemma CountAfterRemove(m: Table, name: string, chain: nat)
    requires name in m
    ensures |OnChain(m - {name}, chain)| == |OnChain(m, chain)| - if m[name].id.chain == chain then 1 else 0
  {
    if m[name].id.chain == chain {
      assert OnChain(m, chain) == OnChain(m - {name}, chain) + {name};
    } else {
      assert OnChain(m, chain) == OnChain(m - {name}, chain);
    }
  }

  /** A removal keeps the numbering if and only if the network removed was the newest of its chain;
      otherwise the id the next network of that chain gets is already taken. */
  lemma RemovalKeepsNumberingIffNewest(m: Table, name: string)
    requires Numbered(m) && name in m
    ensures var chain, left := m[name].id.chain, m - {name};
            var newest := m[name].id.dedup + 1 == |OnChain(m, chain)|;
            && (Numbered(left) <==> newest)
            && (IdTaken(left, NetworkId(chain, |OnChain(left, chain)|)) <==> !newest)
  {
    var chain, left := m[name].id.chain, m - {name};
    CountAfterRemove(m, name, chain);
    assert Gapless(m, chain) && IdTaken(m, m[name].id);
    assert m[name].id == NetworkId(chain, m[name].id.dedup);
    forall c: nat, dedup: nat
      ensures IdTaken(left, NetworkId(c, dedup))
              <==> dedup < |OnChain(m, c)| && NetworkId(c, dedup) != m[name].id
    {
      assert Gapless(m, c);
      IdsAfterRemove(m, name, NetworkId(c, dedup));
    }
    if m[name].id.dedup + 1 == |OnChain(m, chain)| {
      forall c: nat
        ensures Gapless(left, c)
      {
        CountAfterRemove(m, name, c);
      }
    } else {
      assert !Gapless(left, chain) by {
        assert IdTaken(left, NetworkId(chain, |OnChain(left, chain)|));
      }
    }
  }

  /** Removal breaks the numbering for good: with two devnets on a chain, removing the older one
      and adding another gives two networks one id, since a devnet skips the check. */
  lemma RemovalLetsIdsCollide()
    ensures var two := Added(Defaults().networks, "Second", 31337);
            var one := two - {"Anvil"};
            Numbered(two) && !DistinctIds(Commanded(one, AddNetwork("Third", 31337, Some(true))))
  {
    var defaults := Defaults().networks;
    DefaultsAreNumbered();
    NamesDiffer();
    AddKeepsNumbering(defaults, "Second", 31337);
    var two := Added(defaults, "Second", 31337);
    var one := two - {"Anvil"};
    SecondDevnet(one);
    assert !DistinctIds(Added(one, "Third", 31337));
  }

  lemma SecondDevnet(one: Table)
    requires one == Added(Defaults().networks, "Second", 31337) - {"Anvil"}
    ensures "Third" !in one && !DistinctIds(Added(one, "Third", 31337))
  {
    NamesDiffer();
    assert OnChain(Defaults().networks, 31337) == {"Anvil"};
    assert OnChain(one, 31337) == {"Second"};
    var three := Added(one, "Third", 31337);
    assert three["Second"].id == three["Third"].id;
  }
}
