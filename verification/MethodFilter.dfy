/** Which of a dApp's requested methods a WalletConnect session approves. */
module MethodFilter {
  import opened Types
  import opened Sorting

  function Keep(methods: seq<string>, supported: set<string>): seq<string> {
    if methods == [] then []
    else
      var last := methods[|methods| - 1];
      var kept := Keep(methods[..|methods| - 1], supported);
      if last in supported then kept + [last] else kept
  }

  function Reject(methods: seq<string>, supported: set<string>): seq<string> {
    if methods == [] then []
    else
      var last := methods[|methods| - 1];
      var rejected := Reject(methods[..|methods| - 1], supported);
      if last in supported then rejected else rejected + [last]
  }

  function Filtered(required: seq<string>, optional: seq<string>, supported: set<string>)
    : Result<seq<string>, seq<string>>
  {
    if Reject(required, supported) != [] then Err(Reject(required, supported))
    else Ok(Dedup(Keep(required + optional, supported)))
  }

  lemma FiltersOfSnoc(methods: seq<string>, m: string, supported: set<string>)
    ensures Keep(methods + [m], supported) ==
            if m in supported then Keep(methods, supported) + [m] else Keep(methods, supported)
    ensures Reject(methods + [m], supported) ==
            if m in supported then Reject(methods, supported) else Reject(methods, supported) + [m]
    ensures Dedup(methods + [m]) == if m in methods then Dedup(methods) else Dedup(methods) + [m]
  {
    assert (methods + [m])[..|methods|] == methods;
  }

  /** `filter_methods`, with its local set of methods already seen. */
  method FilterMethods(required: seq<string>, optional: seq<string>, supported: set<string>)
    returns (r: Result<seq<string>, seq<string>>)
    ensures r == Filtered(required, optional, supported)
  {
    var unsupported: seq<string> := [];
    for i := 0 to |required|
      invariant unsupported == Reject(required[..i], supported)
    {
      assert required[..i + 1] == required[..i] + [required[i]];
      FiltersOfSnoc(required[..i], required[i], supported);
      if required[i] !in supported {
        unsupported := unsupported + [required[i]];
      }
    }
    assert required[..|required|] == required;
    if unsupported != [] {
      return Err(unsupported);
    }
    var approved := KeepFirst(required + optional, supported);
    return Ok(approved);
  }

  method KeepFirst(methods: seq<string>, supported: set<string>) returns (approved: seq<string>)
    ensures approved == Dedup(Keep(methods, supported))
  {
    var seen: set<string> := {};
    approved := [];
    for i := 0 to |methods|
      invariant approved == Dedup(Keep(methods[..i], supported))
      invariant forall m :: m in seen <==> m in Keep(methods[..i], supported)
    {
      var m := methods[i];
      ghost var kept := Keep(methods[..i], supported);
      assert methods[..i + 1] == methods[..i] + [m];
      FiltersOfSnoc(methods[..i], m, supported);
      if m in supported {
        FiltersOfSnoc(kept, m, supported);
        if m !in seen {
          approved := approved + [m];
        }
        seen := seen + {m};
      }
    }
    assert methods[..|methods|] == methods;
  }

  lemma {:induction false} KeepMembers(methods: seq<string>, supported: set<string>, m: string)
    ensures m in Keep(methods, supported) <==> m in methods && m in supported
    ensures m in Reject(methods, supported) <==> m in methods && m !in supported
  {
    if methods != [] {
      KeepMembers(methods[..|methods| - 1], supported, m);
    }
  }

  /** Approval is refused exactly when some required method is unsupported, and then lists those;
      otherwise the approved list is, without duplicates, exactly the supported methods among the
      requested ones, so it covers all required ones. */
  lemma FilterIsExact(required: seq<string>, optional: seq<string>, supported: set<string>)
    ensures var r := Filtered(required, optional, supported);
            && (r.Err? <==> exists i :: 0 <= i < |required| && required[i] !in supported)
            && (r.Err? ==> forall m :: m in r.error <==> m in required && m !in supported)
            && (r.Ok? ==>
                  && Distinct(r.value)
                  && (forall m :: m in r.value <==> m in supported && (m in required || m in optional))
                  && (forall m :: m in required ==> m in r.value))
  {
    forall m
      ensures m in Reject(required, supported) <==> m in required && m !in supported
      ensures m in Keep(required + optional, supported) <==> (m in required || m in optional) && m in supported
    {
      KeepMembers(required, supported, m);
      KeepMembers(required + optional, supported, m);
    }
    DedupMembers(Keep(required + optional, supported));
    if Reject(required, supported) != [] {
      assert Reject(required, supported)[0] in Reject(required, supported);
    }
  }

  lemma {:induction false} SplitIsFiltering(methods: seq<string>, supported: set<string>)
    ensures Keep(methods, supported) == Filter((m: string) => m in supported, methods)
    ensures Reject(methods, supported) == Filter((m: string) => m !in supported, methods)
  {
    if methods != [] {
      var fewer, last := methods[..|methods| - 1], methods[|methods| - 1];
      SplitIsFiltering(fewer, supported);
      FilterOfSnoc((m: string) => m in supported, fewer, last);
      FilterOfSnoc((m: string) => m !in supported, fewer, last);
      assert methods == fewer + [last];
    }
  }

  /** `first` occurs in the list before `second` does. */
  ghost predicate Precedes(list: seq<string>, first: string, second: string) {
    exists k :: 0 <= k < |list| && list[k] == first && second !in list[..k + 1]
  }

  lemma PrecedesAfterSnoc(list: seq<string>, last: string, first: string, second: string)
    ensures Precedes(list, first, second) ==> Precedes(list + [last], first, second)
    ensures first in list && second !in list && first != second && last == second ==>
              Precedes(list + [last], first, second)
  {
    var all := list + [last];
    if Precedes(list, first, second) {
      var k :| 0 <= k < |list| && list[k] == first && second !in list[..k + 1];
      assert all[k] == first && all[..k + 1] == list[..k + 1];
    }
  }

  lemma {:induction false} ApprovedKeepsOrder(methods: seq<string>, supported: set<string>, i: nat, j: nat)
    requires i < j < |Dedup(Keep(methods, supported))|
    ensures Precedes(methods, Dedup(Keep(methods, supported))[i], Dedup(Keep(methods, supported))[j])
  {
    if methods != [] {
      var fewer, last := methods[..|methods| - 1], methods[|methods| - 1];
      var before, after := Dedup(Keep(fewer, supported)), Dedup(Keep(methods, supported));
      assert methods == fewer + [last];
      FiltersOfSnoc(fewer, last, supported);
      FiltersOfSnoc(Keep(fewer, supported), last, supported);
      hide Dedup, Keep;
      PrecedesAfterSnoc(fewer, last, after[i], after[j]);
      if j < |before| {
        ApprovedKeepsOrder(fewer, supported, i, j);
      } else {
        DedupMembers(Keep(fewer, supported));
        KeepMembers(fewer, supported, before[i]);
        KeepMembers(fewer, supported, last);
        assert before[i] in before;
      }
    }
  }

  /** Methods are approved in the order they were first asked for, required ones before optional
      ones; a refusal lists the unsupported required methods as they were listed. */
  lemma FilterKeepsOrder(required: seq<string>, optional: seq<string>, supported: set<string>, i: nat, j: nat)
    ensures var r := Filtered(required, optional, supported);
            && (r.Err? ==> r.error == Filter((m: string) => m !in supported, required))
            && (r.Ok? && i < j < |r.value| ==> Precedes(required + optional, r.value[i], r.value[j]))
  {
    SplitIsFiltering(required, supported);
    var r := Filtered(required, optional, supported);
    if r.Ok? && i < j < |r.value| {
      ApprovedKeepsOrder(required + optional, supported, i, j);
    }
  }
}
