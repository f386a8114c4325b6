/** Proxy links in the contracts table: what keeps them intact, and recursive removal. */
module ProxyLinks {
  import opened Types
  import opened Database

  /** Every back link names a stored contract of the same network. */
  ghost predicate Linked(contracts: Contracts) {
    forall k :: k in contracts && contracts[k].proxiedBy.Some? ==>
      ContractKey(contracts[k].proxiedBy.value, k.id) in contracts
  }

  // ----- upserts and per-network truncation ------------------------------------------------

  datatype Write =
    | Upsert(id: NetworkId, address: Address, code: Option<nat>, abi: Option<nat>, name: Option<nat>,
             proxyFor: Option<Address>)
    | Truncate(id: NetworkId)

  function Written(contracts: Contracts, w: Write): Contracts {
    match w
    case Upsert(id, address, code, abi, name, proxyFor) =>
      Upserted(contracts, id, address, code, abi, name, proxyFor)
    case Truncate(id) => Truncated(Tables(map[], contracts, map[]), id).contracts
  }

  function WrittenAll(writes: seq<Write>): Contracts {
    if writes == [] then map[] else Written(WrittenAll(writes[..|writes| - 1]), writes[|writes| - 1])
  }

  /** No run of upserts and per-network truncations leaves a dangling back link. */
  lemma {:induction false} WritesKeepLinks(writes: seq<Write>)
    ensures Linked(WrittenAll(writes))
  {
    if writes != [] {
      WritesKeepLinks(writes[..|writes| - 1]);
    }
  }

  // ----- recursive removal -----------------------------------------------------------------

  /** `get_proxy` */
  function GetProxy(contracts: Contracts, id: NetworkId, address: Address): Option<Address> {
    var key := ContractKey(address, id);
    if key in contracts then contracts[key].proxyFor else None
  }

  /** The stored contract reached from `address` by following `n` forward links. */
  function Walk(contracts: Contracts, id: NetworkId, address: Address, n: nat): Option<Address>
    decreases n
  {
    var key := ContractKey(address, id);
    if key !in contracts then None
    else if n == 0 then Some(address)
    else if contracts[key].proxyFor.None? then None
    else Walk(contracts, id, contracts[key].proxyFor.value, n - 1)
  }

  ghost predicate OnPath(contracts: Contracts, id: NetworkId, address: Address, target: Address) {
    exists n: nat :: Walk(contracts, id, address, n) == Some(target)
  }

  /** The table without the contracts on the forward path from `address`. */
  ghost function Removed(contracts: Contracts, id: NetworkId, address: Address): Contracts {
    map k | k in contracts && !(k.id == id && OnPath(contracts, id, address, k.address)) :: contracts[k]
  }

  /** `remove_contract`: delete the row, then continue with the contract it was a proxy for.  It
      ends even on cyclic links, and deletes exactly the rows on the path. */
  method RemoveContract(db: Db, id: NetworkId, address: Address)
    modifies db`contracts
    ensures db.contracts == Removed(old(db.contracts), id, address)
    decreases |db.contracts|
  {
    var contracts := db.contracts;
    var proxyFor := GetProxy(contracts, id, address);
    db.RemoveContract(id, address);
    if proxyFor.Some? {
      assert |db.contracts| == |contracts| - 1;
      RemoveContract(db, id, proxyFor.value);
      PathContinues(contracts, id, address, proxyFor.value);
    } else {
      PathEnds(contracts, id, address);
    }
  }

  lemma PathEnds(contracts: Contracts, id: NetworkId, address: Address)
    requires GetProxy(contracts, id, address).None?
    ensures Removed(contracts, id, address) == contracts - {ContractKey(address, id)}
  {
    forall k | k in contracts && k.id == id
      ensures OnPath(contracts, id, address, k.address) <==> k.address == address
    {
      if k.address == address {
        assert Walk(contracts, id, address, 0) == Some(address);
      }
    }
  }

  lemma {:induction false} WalkInSmaller(contracts: Contracts, id: NetworkId, gone: Address, from: Address, n: nat)
    ensures var smaller := contracts - {ContractKey(gone, id)};
            Walk(smaller, id, from, n).Some? ==> Walk(contracts, id, from, n) == Walk(smaller, id, from, n)
    decreases n
  {
    var key := ContractKey(from, id);
    if n > 0 && key in contracts && contracts[key].proxyFor.Some? {
      WalkInSmaller(contracts, id, gone, contracts[key].proxyFor.value, n - 1);
    }
  }

  /** A walk either avoids `gone`, or passes through it and ends with a shorter walk from there. */
  lemma {:induction false} WalkAvoidsOrPasses(contracts: Contracts, id: NetworkId, gone: Address, from: Address, n: nat)
    returns (rest: nat)
    requires Walk(contracts, id, from, n).Some?
    ensures rest <= n
    ensures || Walk(contracts - {ContractKey(gone, id)}, id, from, n) == Walk(contracts, id, from, n)
            || Walk(contracts, id, gone, rest) == Walk(contracts, id, from, n)
    decreases n
  {
    var key := ContractKey(from, id);
    if from == gone || n == 0 {
      rest := n;
    } else {
      rest := WalkAvoidsOrPasses(contracts, id, gone, contracts[key].proxyFor.value, n - 1);
    }
  }

  /** Whatever a contract's path reaches besides the contract itself, the path of its
      implementation reaches without it. */
  lemma {:induction false} WalkPastStart(contracts: Contracts, id: NetworkId, address: Address, next: Address,
                                         target: Address, n: nat)
    requires GetProxy(contracts, id, address) == Some(next) && target != address
    requires Walk(contracts, id, address, n) == Some(target)
    ensures OnPath(contracts - {ContractKey(address, id)}, id, next, target)
    decreases n
  {
    assert n > 0;
    var rest := WalkAvoidsOrPasses(contracts, id, address, next, n - 1);
    if Walk(contracts - {ContractKey(address, id)}, id, next, n - 1) != Some(target) {
      WalkPastStart(contracts, id, address, next, target, rest);
    }
  }

  lemma PathContinues(contracts: Contracts, id: NetworkId, address: Address, next: Address)
    requires GetProxy(contracts, id, address) == Some(next)
    ensures Removed(contracts, id, address)
            == Removed(contracts - {ContractKey(address, id)}, id, next)
  {
    var smaller := contracts - {ContractKey(address, id)};
    forall k | k in smaller && k.id == id
      ensures OnPath(contracts, id, address, k.address) <==> OnPath(smaller, id, next, k.address)
    {
      if OnPath(contracts, id, address, k.address) {
        var n: nat :| Walk(contracts, id, address, n) == Some(k.address);
        WalkPastStart(contracts, id, address, next, k.address, n);
      }
      if OnPath(smaller, id, next, k.address) {
        var n: nat :| Walk(smaller, id, next, n) == Some(k.address);
        WalkInSmaller(contracts, id, address, next, n);
        assert Walk(contracts, id, address, n + 1) == Some(k.address);
      }
    }
    assert Walk(contracts, id, address, 0) == Some(address);
  }

  // ----- removal and back links ------------------------------------------------------------

  /** Each contract with a back link lies on the forward path of the contract it names. */
  ghost predicate Followed(contracts: Contracts, id: NetworkId) {
    forall k :: k in contracts && k.id == id && contracts[k].proxiedBy.Some? ==>
      OnPath(contracts, id, contracts[k].proxiedBy.value, k.address)
  }

  lemma {:induction false} WalksCompose(contracts: Contracts, id: NetworkId, a: Address, m: nat, n: nat)
    requires Walk(contracts, id, a, m).Some?
    ensures Walk(contracts, id, a, m + n) == Walk(contracts, id, Walk(contracts, id, a, m).value, n)
    decreases m
  {
    if m > 0 {
      WalksCompose(contracts, id, contracts[ContractKey(a, id)].proxyFor.value, m - 1, n);
    }
  }

  lemma PathsCompose(contracts: Contracts, id: NetworkId, a: Address, b: Address, c: Address)
    requires OnPath(contracts, id, a, b) && OnPath(contracts, id, b, c)
    ensures OnPath(contracts, id, a, c)
  {
    var m: nat :| Walk(contracts, id, a, m) == Some(b);
    var n: nat :| Walk(contracts, id, b, n) == Some(c);
    WalksCompose(contracts, id, a, m, n);
    assert Walk(contracts, id, a, m + n) == Some(c);
  }

  /** Removing from any start keeps all back links intact if and only if every back link is
      followed by a forward path.  An upsert does not establish that: it never gives an existing
      row a forward link. */
  lemma RemovalSafeIffFollowed(contracts: Contracts, id: NetworkId)
    requires Linked(contracts)
    ensures (forall a :: Linked(Removed(contracts, id, a))) <==> Followed(contracts, id)
  {
    if Followed(contracts, id) {
      forall a, k | k in Removed(contracts, id, a) && contracts[k].proxiedBy.Some?
        ensures ContractKey(contracts[k].proxiedBy.value, k.id) in Removed(contracts, id, a)
      {
        var namer := contracts[k].proxiedBy.value;
        if k.id == id && OnPath(contracts, id, a, namer) {
          PathsCompose(contracts, id, a, namer, k.address);
        }
      }
    }
    if forall a :: Linked(Removed(contracts, id, a)) {
      forall k | k in contracts && k.id == id && contracts[k].proxiedBy.Some?
        ensures OnPath(contracts, id, contracts[k].proxiedBy.value, k.address)
      {
        var namer := contracts[k].proxiedBy.value;
        assert Linked(Removed(contracts, id, namer));
        assert Walk(contracts, id, namer, 0) == Some(namer);
        assert ContractKey(namer, id) !in Removed(contracts, id, namer);
      }
    }
  }

  /** Following forward links from `from` leads to the target, stored or not, in `n` steps. */
  predicate LeadsIn(contracts: Contracts, id: NetworkId, from: Address, target: Address, n: nat)
    decreases n
  {
    from == target
    || (n > 0 && GetProxy(contracts, id, from).Some?
        && LeadsIn(contracts, id, GetProxy(contracts, id, from).value, target, n - 1))
  }

  ghost predicate Leads(contracts: Contracts, id: NetworkId, from: Address, target: Address) {
    exists n: nat :: LeadsIn(contracts, id, from, target, n)
  }

  /** The upsert records the proxy link, or finds it recorded by a forward path. */
  ghost predicate RecordsLink(contracts: Contracts, id: NetworkId, address: Address, proxyFor: Option<Address>) {
    proxyFor.Some? && ContractKey(address, id) in contracts ==> Leads(contracts, id, address, proxyFor.value)
  }

  /** The network's stored rows keep their forward links. */
  ghost predicate Extends(before: Contracts, after: Contracts, id: NetworkId) {
    forall k :: k in before && k.id == id ==> k in after && after[k].proxyFor == before[k].proxyFor
  }

  lemma {:induction false} WalkInLarger(before: Contracts, after: Contracts, id: NetworkId, from: Address, n: nat)
    requires Extends(before, after, id) && Walk(before, id, from, n).Some?
    ensures Walk(after, id, from, n) == Walk(before, id, from, n)
    decreases n
  {
    if n > 0 {
      WalkInLarger(before, after, id, before[ContractKey(from, id)].proxyFor.value, n - 1);
    }
  }

  lemma PathInLarger(before: Contracts, after: Contracts, id: NetworkId, from: Address, target: Address)
    requires Extends(before, after, id) && OnPath(before, id, from, target)
    ensures OnPath(after, id, from, target)
  {
    var n: nat :| Walk(before, id, from, n) == Some(target);
    WalkInLarger(before, after, id, from, n);
  }

  lemma {:induction false} LeadingIsPath(before: Contracts, after: Contracts, id: NetworkId, from: Address,
                                         target: Address, n: nat)
    requires Extends(before, after, id) && ContractKey(target, id) in after && LeadsIn(before, id, from, target, n)
    ensures OnPath(after, id, from, target)
    decreases n
  {
    if from == target {
      assert Walk(after, id, from, 0) == Some(target);
    } else {
      var next := GetProxy(before, id, from).value;
      LeadingIsPath(before, after, id, next, target, n - 1);
      var m: nat :| Walk(after, id, next, m) == Some(target);
      assert Walk(after, id, from, m + 1) == Some(target);
    }
  }

  /** If the target is the only row the larger table adds, a path to it was there before. */
  lemma {:induction false} PathWasLeading(before: Contracts, after: Contracts, id: NetworkId, from: Address,
                                          target: Address, n: nat)
    requires Extends(before, after, id) && Walk(after, id, from, n) == Some(target)
    requires forall k :: k in after && k !in before ==> k == ContractKey(target, id)
    ensures LeadsIn(before, id, from, target, n)
    decreases n
  {
    if from != target {
      PathWasLeading(before, after, id, after[ContractKey(from, id)].proxyFor.value, target, n - 1);
    }
  }

  lemma UpsertExtends(contracts: Contracts, id: NetworkId, address: Address, code: Option<nat>, abi: Option<nat>,
                      name: Option<nat>, proxyFor: Option<Address>)
    ensures var after := Upserted(contracts, id, address, code, abi, name, proxyFor);
            && (forall other :: Extends(contracts, after, other)) && ContractKey(address, id) in after
            && (ContractKey(address, id) !in contracts ==> after[ContractKey(address, id)].proxyFor == proxyFor)
            && (forall k :: k in after && k !in contracts ==>
                  k == ContractKey(address, id) || (proxyFor.Some? && k == ContractKey(proxyFor.value, id)))
            && (forall k :: k in after && after[k].proxiedBy.Some? ==>
                  if proxyFor.Some? && k == ContractKey(proxyFor.value, id) then after[k].proxiedBy == Some(address)
                  else k in contracts && after[k].proxiedBy == contracts[k].proxiedBy)
            && (proxyFor.Some? ==>
                  && ContractKey(proxyFor.value, id) in after
                  && after[ContractKey(proxyFor.value, id)].proxiedBy == Some(address))
  {
  }

  /** An upsert keeps back links followed if and only if it names no implementation, stores a new
      row, or names one the stored row's forward links lead to already. */
  lemma UpsertKeepsFollowedIff(contracts: Contracts, id: NetworkId, address: Address, code: Option<nat>,
                               abi: Option<nat>, name: Option<nat>, proxyFor: Option<Address>)
    requires Followed(contracts, id)
    ensures Followed(Upserted(contracts, id, address, code, abi, name, proxyFor), id)
            <==> RecordsLink(contracts, id, address, proxyFor)
  {
    var after, key := Upserted(contracts, id, address, code, abi, name, proxyFor), ContractKey(address, id);
    UpsertExtends(contracts, id, address, code, abi, name, proxyFor);
    hide Upserted;
    if RecordsLink(contracts, id, address, proxyFor) {
      if proxyFor.Some? {
        NewLinkIsFollowed(contracts, after, id, address, proxyFor.value);
      }
      forall k | k in after && k.id == id && after[k].proxiedBy.Some?
        ensures OnPath(after, id, after[k].proxiedBy.value, k.address)
      {
        if !(proxyFor.Some? && k == ContractKey(proxyFor.value, id)) {
          PathInLarger(contracts, after, id, contracts[k].proxiedBy.value, k.address);
        }
      }
    } else {
      var impl := proxyFor.value;
      if OnPath(after, id, address, impl) {
        var n: nat :| Walk(after, id, address, n) == Some(impl);
        PathWasLeading(contracts, after, id, address, impl, n);
      }
      assert after[ContractKey(impl, id)].proxiedBy == Some(address);
    }
  }

  lemma WriteKeepsFollowedIff(contracts: Contracts, w: Write, id: NetworkId)
    requires Followed(contracts, id)
    ensures Followed(Written(contracts, w), id)
            <==> (w.Upsert? && w.id == id ==> RecordsLink(contracts, id, w.address, w.proxyFor))
  {
    if w.Upsert? && w.id == id {
      UpsertKeepsFollowedIff(contracts, id, w.address, w.code, w.abi, w.name, w.proxyFor);
    } else {
      var after := Written(contracts, w);
      if w.Upsert? {
        UpsertExtends(contracts, w.id, w.address, w.code, w.abi, w.name, w.proxyFor);
      }
      forall k | k in after && k.id == id && after[k].proxiedBy.Some?
        ensures OnPath(after, id, after[k].proxiedBy.value, k.address)
      {
        PathInLarger(contracts, after, id, contracts[k].proxiedBy.value, k.address);
      }
    }
  }

  /** After each write of the run. */
  ghost predicate AlwaysFollowed(writes: seq<Write>, id: NetworkId) {
    Followed(WrittenAll(writes), id) && (writes != [] ==> AlwaysFollowed(writes[..|writes| - 1], id))
  }

  ghost predicate AllRecordLinks(writes: seq<Write>, id: NetworkId) {
    writes != [] ==>
      var fewer, w := writes[..|writes| - 1], writes[|writes| - 1];
      && AllRecordLinks(fewer, id)
      && (w.Upsert? && w.id == id ==> RecordsLink(WrittenAll(fewer), id, w.address, w.proxyFor))
  }

  /** Over a whole run of writes, removal stays safe at every moment if and only if every upsert
      records the link it names. */
  lemma {:induction false} RunStaysFollowedIff(writes: seq<Write>, id: NetworkId)
    ensures AlwaysFollowed(writes, id) <==> AllRecordLinks(writes, id)
  {
    if writes != [] {
      hide Followed, RecordsLink, Written;
      var fewer, last := writes[..|writes| - 1], writes[|writes| - 1];
      RunStaysFollowedIff(fewer, id);
      if AlwaysFollowed(fewer, id) {
        WriteKeepsFollowedIff(WrittenAll(fewer), last, id);
      }
    }
  }

  lemma NewLinkIsFollowed(before: Contracts, after: Contracts, id: NetworkId, address: Address, impl: Address)
    requires Extends(before, after, id) && ContractKey(address, id) in after && ContractKey(impl, id) in after
    requires RecordsLink(before, id, address, Some(impl))
    requires ContractKey(address, id) !in before ==> after[ContractKey(address, id)].proxyFor == Some(impl)
    ensures OnPath(after, id, address, impl)
  {
    if ContractKey(address, id) in before {
      var n: nat :| LeadsIn(before, id, address, impl, n);
      LeadingIsPath(before, after, id, address, impl, n);
    } else {
      assert Walk(after, id, impl, 0) == Some(impl);
      assert Walk(after, id, address, 1) == Some(impl);
    }
  }

  /** A contract stored before it was recognised as a proxy: removing it strands its
      implementation. */
  lemma LateProxyLeavesDanglingLink(id: NetworkId)
    ensures var plain := Upsert(id, 1, None, None, None, None);
            var proxy := Upsert(id, 1, None, None, None, Some(2));
            !Linked(Removed(WrittenAll([plain, proxy]), id, 1))
  {
    var plain := Upsert(id, 1, None, None, None, None);
    var proxy := Upsert(id, 1, None, None, None, Some(2));
    assert [plain, proxy][..1] == [plain] && [plain][..0] == [];
    var contracts := WrittenAll([plain, proxy]);
    assert WrittenAll([plain]) == Written(WrittenAll([]), plain);
    assert contracts == Written(WrittenAll([plain]), proxy);
    PathEnds(contracts, id, 1);
    assert ContractKey(2, id) in Removed(contracts, id, 1);
  }
}
