/** How the frontend nests a network's contracts into proxy chains. */
module ProxyNesting {
  import opened Types
  import opened Database
  import ProxyLinks

  /** A contract as listed for one network. */
  datatype Contract = Contract(address: Address, proxiedBy: Option<Address>)

  datatype Organized = Organized(root: Address, proxyChain: seq<Address>)

  ghost predicate DistinctAddresses(rows: seq<Contract>) {
    forall i, j :: 0 <= i < j < |rows| ==> rows[i].address != rows[j].address
  }

  predicate Listed(rows: seq<Contract>, address: Address) {
    exists i :: 0 <= i < |rows| && rows[i].address == address
  }

  ghost predicate NoDangling(rows: seq<Contract>) {
    forall i :: 0 <= i < |rows| && rows[i].proxiedBy.Some? ==> Listed(rows, rows[i].proxiedBy.value)
  }

  /** Back links, and the `impl` links the first pass builds from them: the last listed child of a
      contract wins. */
  function Parents(rows: seq<Contract>): map<Address, Address> {
    if rows == [] then map[]
    else
      var last := rows[|rows| - 1];
      var before := Parents(rows[..|rows| - 1]);
      if last.proxiedBy.Some? then before[last.address := last.proxiedBy.value] else before
  }

  function Impls(rows: seq<Contract>): map<Address, Address> {
    if rows == [] then map[]
    else
      var last := rows[|rows| - 1];
      var before := Impls(rows[..|rows| - 1]);
      if last.proxiedBy.Some? then before[last.proxiedBy.value := last.address] else before
  }

  function Roots(rows: seq<Contract>): seq<Address> {
    if rows == [] then []
    else
      var last := rows[|rows| - 1];
      Roots(rows[..|rows| - 1]) + if last.proxiedBy.None? then [last.address] else []
  }

  // ----- chains of back links --------------------------------------------------------------

  /** `path` starts at a contract without a back link, and each later contract names the one
      before it. */
  ghost predicate IsChain(parents: map<Address, Address>, path: seq<Address>) {
    && path != []
    && path[0] !in parents
    && forall i :: 0 < i < |path| ==> path[i] in parents && parents[path[i]] == path[i - 1]
  }

  /** Two chains that share a contract share everything before it: climbing back links from one
      contract there is only one way. */
  lemma {:induction false} ChainsMeetAtTheSameDepth(parents: map<Address, Address>, p: seq<Address>, q: seq<Address>,
                                                    i: nat, j: nat)
    requires IsChain(parents, p) && IsChain(parents, q)
    requires i < |p| && j < |q| && p[i] == q[j]
    ensures i == j && p[0] == q[0]
  {
    if i > 0 && j > 0 {
      ChainsMeetAtTheSameDepth(parents, p, q, i - 1, j - 1);
    }
  }

  lemma {:induction false} DistinctFitIn(path: seq<Address>, keys: set<Address>)
    requires forall i, j :: 0 <= i < j < |path| ==> path[i] != path[j]
    requires forall i :: 0 <= i < |path| ==> path[i] in keys
    ensures |path| <= |keys|
  {
    if path != [] {
      DistinctFitIn(path[1..], keys - {path[0]});
    }
  }

  lemma ChainIsShort(parents: map<Address, Address>, path: seq<Address>)
    requires IsChain(parents, path)
    ensures forall i, j :: 0 <= i < j < |path| ==> path[i] != path[j]
    ensures |path| <= |parents| + 1
  {
    forall i, j | 0 <= i < j < |path|
      ensures path[i] != path[j]
    {
      if path[i] == path[j] {
        ChainsMeetAtTheSameDepth(parents, path, path, i, j);
      }
    }
    DistinctFitIn(path[1..], parents.Keys);
  }

  /** Every `impl` link is undone by a back link. */
  ghost predicate Mirrors(impls: map<Address, Address>, parents: map<Address, Address>) {
    forall a :: a in impls ==> impls[a] in parents && parents[impls[a]] == a
  }

  ghost predicate Follows(impls: map<Address, Address>, path: seq<Address>) {
    forall i :: 0 <= i < |path| - 1 ==> path[i] in impls && impls[path[i]] == path[i + 1]
  }

  /** The path follows `impl` links and stops only where there is none. */
  ghost predicate IsMaximal(impls: map<Address, Address>, path: seq<Address>) {
    path != [] && Follows(impls, path) && path[|path| - 1] !in impls
  }

  /** `flatten`: the contracts below the end of `path`.  The recursion has no bound of its own; it
      ends because it only ever extends a chain of back links, and those are short.  Cycles of
      links elsewhere do not matter. */
  function Flatten(impls: map<Address, Address>, ghost parents: map<Address, Address>, contract: Address,
                   ghost path: seq<Address>): (below: seq<Address>)
    requires Mirrors(impls, parents)
    requires IsChain(parents, path) && Follows(impls, path) && path[|path| - 1] == contract
    ensures IsChain(parents, path + below) && IsMaximal(impls, path + below)
    decreases |parents| + 1 - |path|
  {
    ChainIsShort(parents, path);
    if contract !in impls then
      assert path + [] == path;
      []
    else
      var impl := impls[contract];
      ChainIsShort(parents, path + [impl]);
      var rest := Flatten(impls, parents, impl, path + [impl]);
      assert path + [impl] + rest == path + ([impl] + rest);
      [impl] + rest
  }

  // ----- the two passes --------------------------------------------------------------------

  lemma {:induction false} LinksOfRows(rows: seq<Contract>, i: nat)
    requires DistinctAddresses(rows) && i < |rows|
    ensures rows[i].address in Parents(rows) <==> rows[i].proxiedBy.Some?
    ensures rows[i].proxiedBy.Some? ==> Parents(rows)[rows[i].address] == rows[i].proxiedBy.value
    ensures rows[i].proxiedBy.Some? ==> rows[i].proxiedBy.value in Impls(rows)
  {
    ParentsAreRows(rows[..|rows| - 1]);
    if i < |rows| - 1 {
      LinksOfRows(rows[..|rows| - 1], i);
    }
  }

  lemma {:induction false} ParentsAreRows(rows: seq<Contract>)
    ensures forall a :: a in Parents(rows) ==>
              exists i :: 0 <= i < |rows| && rows[i] == Contract(a, Some(Parents(rows)[a]))
  {
    if rows != [] {
      ParentsAreRows(rows[..|rows| - 1]);
    }
  }

  lemma {:induction false} ImplsMirrorParents(rows: seq<Contract>)
    requires DistinctAddresses(rows)
    ensures Mirrors(Impls(rows), Parents(rows))
  {
    if rows != [] {
      var fewer, last := rows[..|rows| - 1], rows[|rows| - 1];
      ImplsMirrorParents(fewer);
      ParentsAreRows(fewer);
      assert last.address !in Parents(fewer);
    }
  }

  lemma {:induction false} RootIsRow(rows: seq<Contract>, root: Address) returns (i: nat)
    requires root in Roots(rows)
    ensures i < |rows| && rows[i] == Contract(root, None)
  {
    var fewer, last := rows[..|rows| - 1], rows[|rows| - 1];
    if last == Contract(root, None) {
      i := |rows| - 1;
    } else {
      i := RootIsRow(fewer, root);
    }
  }

  /** Among the contracts naming one proxy, the last listed becomes its implementation, and nothing
      else becomes one. */
  lemma {:induction false} LastListedChildWins(rows: seq<Contract>, proxy: Address)
    ensures proxy in Impls(rows) ==>
              exists i :: 0 <= i < |rows| && rows[i] == Contract(Impls(rows)[proxy], Some(proxy))
                          && forall j :: i < j < |rows| ==> rows[j].proxiedBy != Some(proxy)
    ensures proxy !in Impls(rows) ==> forall i :: 0 <= i < |rows| ==> rows[i].proxiedBy != Some(proxy)
  {
    if rows != [] {
      var fewer, last := rows[..|rows| - 1], rows[|rows| - 1];
      LastListedChildWins(fewer, proxy);
      if last.proxiedBy == Some(proxy) {
        assert rows[|rows| - 1] == Contract(Impls(rows)[proxy], Some(proxy));
      } else if proxy in Impls(fewer) {
        var i :| 0 <= i < |fewer| && fewer[i] == Contract(Impls(fewer)[proxy], Some(proxy))
                 && forall j :: i < j < |fewer| ==> fewer[j].proxiedBy != Some(proxy);
        assert rows[i] == fewer[i];
      }
    }
  }

  lemma {:induction false} TopRowIsRoot(rows: seq<Contract>, i: nat) returns (k: nat)
    requires i < |rows| && rows[i].proxiedBy.None?
    ensures k < |Roots(rows)| && Roots(rows)[k] == rows[i].address
  {
    if i == |rows| - 1 {
      k := |Roots(rows)| - 1;
    } else {
      k := TopRowIsRoot(rows[..|rows| - 1], i);
    }
  }

  /** The roots are the contracts without a back link, in the order they are listed. */
  lemma {:induction false} RootsKeepTheOrder(rows: seq<Contract>, i: nat, j: nat)
    requires i < j < |rows| && rows[i].proxiedBy.None? && rows[j].proxiedBy.None?
    ensures exists k, l :: 0 <= k < l < |Roots(rows)| && Roots(rows)[k] == rows[i].address
                           && Roots(rows)[l] == rows[j].address
  {
    var fewer := rows[..|rows| - 1];
    if j == |rows| - 1 {
      var k := TopRowIsRoot(fewer, i);
      assert Roots(rows)[k] == rows[i].address && Roots(rows)[|Roots(fewer)|] == rows[j].address;
    } else {
      RootsKeepTheOrder(fewer, i, j);
      var k, l :| 0 <= k < l < |Roots(fewer)| && Roots(fewer)[k] == rows[i].address
                  && Roots(fewer)[l] == rows[j].address;
      assert Roots(rows)[k] == rows[i].address && Roots(rows)[l] == rows[j].address;
    }
  }

  lemma {:induction false} RootsAreDistinct(rows: seq<Contract>)
    requires DistinctAddresses(rows)
    ensures forall i, j :: 0 <= i < j < |Roots(rows)| ==> Roots(rows)[i] != Roots(rows)[j]
  {
    if rows != [] {
      var fewer, last := rows[..|rows| - 1], rows[|rows| - 1];
      RootsAreDistinct(fewer);
      if last.address in Roots(fewer) {
        var i := RootIsRow(fewer, last.address);
      }
    }
  }

  lemma RootHasNoParent(rows: seq<Contract>, root: Address)
    requires DistinctAddresses(rows) && root in Roots(rows)
    ensures IsChain(Parents(rows), [root])
  {
    var i := RootIsRow(rows, root);
    LinksOfRows(rows, i);
  }

  /** One output per root, in order; each is the root's whole chain of `impl` links. */
  ghost predicate Organizes(rows: seq<Contract>, output: seq<Organized>) {
    && |output| == |Roots(rows)|
    && forall k :: 0 <= k < |output| ==>
         && output[k].root == Roots(rows)[k]
         && IsChain(Parents(rows), Whole(output[k]))
         && IsMaximal(Impls(rows), Whole(output[k]))
  }

  function Whole(o: Organized): seq<Address> {
    [o.root] + o.proxyChain
  }

  /** `organizeContracts`.  Looking up a back link that is not listed throws. */
  method Organize(rows: seq<Contract>) returns (r: Option<seq<Organized>>)
    requires DistinctAddresses(rows)
    ensures r.Some? <==> NoDangling(rows)
    ensures r.Some? ==> Organizes(rows, r.value)
  {
    var impls: map<Address, Address>, tmp: seq<Address> := map[], [];
    for i := 0 to |rows|
      invariant impls == Impls(rows[..i]) && tmp == Roots(rows[..i])
      invariant forall j :: 0 <= j < i && rows[j].proxiedBy.Some? ==> Listed(rows, rows[j].proxiedBy.value)
    {
      assert rows[..i + 1][..i] == rows[..i];
      if rows[i].proxiedBy.Some? {
        if !Listed(rows, rows[i].proxiedBy.value) {
          return None;
        }
        impls := impls[rows[i].proxiedBy.value := rows[i].address];
      } else {
        tmp := tmp + [rows[i].address];
      }
    }
    assert rows[..|rows|] == rows;
    ImplsMirrorParents(rows);
    var organized: seq<Organized> := [];
    for k := 0 to |tmp|
      invariant |organized| == k
      invariant forall l :: 0 <= l < k ==>
                  && organized[l].root == tmp[l]
                  && IsChain(Parents(rows), Whole(organized[l]))
                  && IsMaximal(impls, Whole(organized[l]))
    {
      RootHasNoParent(rows, tmp[k]);
      var chain := Flatten(impls, Parents(rows), tmp[k], [tmp[k]]);
      organized := organized + [Organized(tmp[k], chain)];
    }
    return Some(organized);
  }

  // ----- soundness -------------------------------------------------------------------------

  /** Nothing is shown twice: across all output chains each contract occurs at most once. */
  lemma EachContractOccursOnce(rows: seq<Contract>, output: seq<Organized>, k: nat, i: nat, l: nat, j: nat)
    requires DistinctAddresses(rows) && Organizes(rows, output)
    requires k < |output| && i < |Whole(output[k])|
    requires l < |output| && j < |Whole(output[l])|
    requires Whole(output[k])[i] == Whole(output[l])[j]
    ensures k == l && i == j
  {
    ChainsMeetAtTheSameDepth(Parents(rows), Whole(output[k]), Whole(output[l]), i, j);
    RootsAreDistinct(rows);
  }

  ghost predicate Shown(output: seq<Organized>, contract: Address) {
    exists k :: 0 <= k < |output| && contract in Whole(output[k])
  }

  lemma {:induction false} FollowersAgree(impls: map<Address, Address>, p: seq<Address>, whole: seq<Address>, i: nat)
    requires Follows(impls, p) && IsMaximal(impls, whole) && p != [] && p[0] == whole[0]
    requires i < |p|
    ensures i < |whole| && whole[i] == p[i]
  {
    if i > 0 {
      FollowersAgree(impls, p, whole, i - 1);
      assert impls[p[i - 1]] == p[i];
      assert i - 1 < |whole| - 1 ==> impls[whole[i - 1]] == whole[i];
    }
  }

  /** `p` leads from a contract without a back link to `contract`. */
  ghost predicate Leads(rows: seq<Contract>, p: seq<Address>, contract: Address) {
    p != [] && p[0] in Roots(rows) && p[|p| - 1] == contract && Follows(Impls(rows), p)
  }

  lemma ShownIsLedTo(rows: seq<Contract>, output: seq<Organized>, contract: Address) returns (p: seq<Address>)
    requires DistinctAddresses(rows) && Organizes(rows, output) && Shown(output, contract)
    ensures Leads(rows, p, contract)
  {
    var k :| 0 <= k < |output| && contract in Whole(output[k]);
    var whole := Whole(output[k]);
    var i :| 0 <= i < |whole| && whole[i] == contract;
    p := whole[..i + 1];
    assert p[0] == Roots(rows)[k];
  }

  lemma LedToIsShown(rows: seq<Contract>, output: seq<Organized>, p: seq<Address>, contract: Address)
    requires DistinctAddresses(rows) && Organizes(rows, output) && Leads(rows, p, contract)
    ensures Shown(output, contract)
  {
    var k :| 0 <= k < |Roots(rows)| && Roots(rows)[k] == p[0];
    FollowersAgree(Impls(rows), p, Whole(output[k]), |p| - 1);
  }

  /** A contract is shown if and only if a chain of `impl` links leads to it from a contract
      without a back link; one on a cycle, or displaced by a later sibling, is not. */
  lemma ShownIffReachableFromRoot(rows: seq<Contract>, output: seq<Organized>, contract: Address)
    requires DistinctAddresses(rows) && Organizes(rows, output)
    ensures Shown(output, contract) <==> exists p :: Leads(rows, p, contract)
  {
    if Shown(output, contract) {
      var p := ShownIsLedTo(rows, output, contract);
    }
    if p :| Leads(rows, p, contract) {
      LedToIsShown(rows, output, p, contract);
    }
  }

  /** The rows list the contracts stored for one network. */
  ghost predicate Lists(rows: seq<Contract>, contracts: Contracts, id: NetworkId) {
    && DistinctAddresses(rows)
    && (forall i :: 0 <= i < |rows| ==>
          && ContractKey(rows[i].address, id) in contracts
          && contracts[ContractKey(rows[i].address, id)].proxiedBy == rows[i].proxiedBy)
    && (forall k :: k in contracts && k.id == id ==> Listed(rows, k.address))
  }

  /** After any run of upserts and per-network truncations nesting finds every contract it looks
      up, so it never throws. */
  lemma WritesNeverDangle(writes: seq<ProxyLinks.Write>, id: NetworkId, rows: seq<Contract>)
    requires Lists(rows, ProxyLinks.WrittenAll(writes), id)
    ensures NoDangling(rows)
  {
    ProxyLinks.WritesKeepLinks(writes);
  }
}
