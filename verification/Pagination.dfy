/** Keyset pagination over the transactions table, and the loops that follow its cursors. */
module Pagination {
  import opened Types
  import opened Sorting

  const I64_MAX: int := 0x7fff_ffff_ffff_ffff

  /** The columns the queries use or select; `block` is null while a transaction is incomplete, and
      `rest` stands for value, data, status and completeness.  Rows that differ only in columns that
      are not selected, such as the trace address, are equal here and may occur several times. */
  datatype Row = Row(chain: nat, from: Address, to: Option<Address>, block: Option<nat>, position: nat,
                     hash: nat, rest: nat)

  datatype Query = Query(chain: nat, address: Option<Address>)

  datatype TxIdx = TxIdx(block: int, position: int)

  predicate Matches(q: Query, r: Row) {
    r.chain == q.chain && (q.address.Some? ==> r.from == q.address.value || r.to == q.address)
  }

  function KeyOf(r: Row): TxIdx {
    TxIdx(if r.block.Some? then r.block.value else -1, r.position)
  }

  predicate Less(a: TxIdx, b: TxIdx) {
    a.block < b.block || (a.block == b.block && a.position < b.position)
  }

  predicate NewestFirst(a: Row, b: Row) {
    !Less(KeyOf(a), KeyOf(b))
  }

  predicate OldestFirst(a: Row, b: Row) {
    !Less(KeyOf(b), KeyOf(a))
  }

  function Take<T>(s: seq<T>, max: nat): seq<T> {
    if |s| <= max then s else s[..max]
  }

  /** `ORDER BY block_number DESC, position DESC` over the rows a query asks for. */
  function Listing(q: Query, rows: seq<Row>): seq<Row> {
    Sort(NewestFirst, Filter((r: Row) => Matches(q, r) && r.block.Some?, rows))
  }

  /** The same over `SELECT DISTINCT`. */
  function DistinctListing(q: Query, rows: seq<Row>): seq<Row> {
    Listing(q, Dedup(rows))
  }

  /** `get_older_transactions` and `get_latest_transactions`, which select distinct rows: no cursor
      stands for the largest key. */
  function Older(q: Query, rows: seq<Row>, max: nat, lastKnown: Option<TxIdx>): seq<Row> {
    var cursor := if lastKnown.Some? then lastKnown.value else TxIdx(I64_MAX, I64_MAX);
    Take(Sort(NewestFirst,
              Filter((r: Row) => Matches(q, r) && r.block.Some? && Less(KeyOf(r), cursor), Dedup(rows))),
         max)
  }

  /** `get_newer_transactions`: the oldest rows above the cursor, newest first. */
  function Newer(q: Query, rows: seq<Row>, max: nat, firstKnown: Option<TxIdx>): seq<Row> {
    var cursor := if firstKnown.Some? then firstKnown.value else TxIdx(0, 0);
    Sort(NewestFirst,
         Take(Sort(OldestFirst,
                   Filter((r: Row) => Matches(q, r) && r.block.Some? && Less(cursor, KeyOf(r)), rows)),
              max))
  }

  // ----- queries as slices of the listing --------------------------------------------------

  lemma OrdersAreTotal()
    ensures IsTotalPreorder(NewestFirst) && IsTotalPreorder(OldestFirst)
  {
  }

  /** How many rows of the listing come before the first one below the key. */
  function CountFrom(listing: seq<Row>, key: TxIdx): (n: nat)
    ensures n <= |listing|
  {
    if listing == [] || Less(KeyOf(listing[0]), key) then 0 else 1 + CountFrom(listing[1..], key)
  }

  /** How many rows of the listing are above the key. */
  function CountAbove(listing: seq<Row>, key: TxIdx): (n: nat)
    ensures n <= |listing|
  {
    if listing == [] || !Less(key, KeyOf(listing[0])) then 0 else 1 + CountAbove(listing[1..], key)
  }

  lemma {:induction false} BelowIsSuffix(listing: seq<Row>, key: TxIdx)
    requires Sorted(NewestFirst, listing)
    ensures Filter((r: Row) => Less(KeyOf(r), key), listing) == listing[CountFrom(listing, key)..]
  {
    if listing != [] {
      BelowIsSuffix(listing[1..], key);
      if Less(KeyOf(listing[0]), key) {
        assert |listing| > 1 ==> NewestFirst(listing[0], listing[1]);
        assert CountFrom(listing[1..], key) == 0;
        assert listing == [listing[0]] + listing[1..];
      }
    }
  }

  lemma {:induction false} AboveIsPrefix(listing: seq<Row>, key: TxIdx)
    requires Sorted(NewestFirst, listing)
    ensures Filter((r: Row) => Less(key, KeyOf(r)), listing) == listing[..CountAbove(listing, key)]
  {
    if listing != [] {
      AboveIsPrefix(listing[1..], key);
      if !Less(key, KeyOf(listing[0])) {
        assert |listing| > 1 ==> NewestFirst(listing[0], listing[1]);
        assert CountAbove(listing[1..], key) == 0;
      } else {
        assert listing[..1 + CountAbove(listing[1..], key)]
               == [listing[0]] + listing[1..][..CountAbove(listing[1..], key)];
      }
    }
  }

  /** A page is the slice of the listing right below the cursor. */
  lemma OlderIsSlice(q: Query, rows: seq<Row>, max: nat, cursor: TxIdx)
    ensures var listing := DistinctListing(q, rows);
            Older(q, rows, max, Some(cursor)) == Take(listing[CountFrom(listing, cursor)..], max)
  {
    OrdersAreTotal();
    var matching := (r: Row) => Matches(q, r) && r.block.Some?;
    var below := (r: Row) => Less(KeyOf(r), cursor);
    var both := (r: Row) => Matches(q, r) && r.block.Some? && Less(KeyOf(r), cursor);
    FilterTwice(matching, below, both, Dedup(rows));
    FilterOfSort(NewestFirst, below, Filter(matching, Dedup(rows)));
    SortSorts(NewestFirst, Filter(matching, Dedup(rows)));
    BelowIsSuffix(DistinctListing(q, rows), cursor);
  }

  // ----- following the cursor --------------------------------------------------------------

  /** `getNextPageParam`: no further page after a short one. */
  function NextPageParam(page: seq<Row>, size: nat): Option<TxIdx> {
    if |page| < size || page == [] then None else Some(KeyOf(page[|page| - 1]))
  }

  /** Where the page after a full page from position `i` starts. */
  function NextStart(listing: seq<Row>, i: nat, size: nat): nat
    requires 0 < size && i + size <= |listing|
  {
    CountFrom(listing, KeyOf(listing[i + size - 1]))
  }

  /** What following the cursor collects from position `i` of the listing on. */
  function Following(listing: seq<Row>, i: nat, size: nat): seq<Row>
    requires Sorted(NewestFirst, listing) && i <= |listing| && size > 0
    decreases |listing| - i
  {
    if |listing| < i + size then listing[i..]
    else
      CountIsPast(listing, i + size - 1);
      listing[i..i + size] + Following(listing, NextStart(listing, i, size), size)
  }

  lemma {:induction false} CountIsPast(listing: seq<Row>, k: nat)
    requires Sorted(NewestFirst, listing) && k < |listing|
    ensures k < CountFrom(listing, KeyOf(listing[k]))
    ensures CountFrom(listing, KeyOf(listing[k])) == k + 1 <==>
            k + 1 == |listing| || KeyOf(listing[k + 1]) != KeyOf(listing[k])
    decreases k
  {
    assert NewestFirst(listing[0], listing[k]) || k == 0;
    if k > 0 {
      CountIsPast(listing[1..], k - 1);
    } else if |listing| > 1 {
      assert NewestFirst(listing[0], listing[1]);
    }
  }

  lemma PageAt(listing: seq<Row>, i: nat, size: nat)
    requires i <= |listing| && size > 0
    ensures var page := Take(listing[i..], size);
            if |listing| < i + size then page == listing[i..] && NextPageParam(page, size).None?
            else page == listing[i..i + size] && NextPageParam(page, size) == Some(KeyOf(listing[i + size - 1]))
  {
  }

  lemma ListingIsSorted(q: Query, rows: seq<Row>)
    ensures Sorted(NewestFirst, Listing(q, rows))
  {
    OrdersAreTotal();
    SortSorts(NewestFirst, Filter((r: Row) => Matches(q, r) && r.block.Some?, rows));
  }

  /** Where a query without or with a cursor starts reading the listing. */
  function StartOf(q: Query, rows: seq<Row>, lastKnown: Option<TxIdx>): (n: nat)
    ensures n <= |DistinctListing(q, rows)|
  {
    CountFrom(DistinctListing(q, rows), if lastKnown.Some? then lastKnown.value else TxIdx(I64_MAX, I64_MAX))
  }

  lemma OlderPageAdvances(q: Query, rows: seq<Row>, size: nat, lastKnown: Option<TxIdx>)
    requires size > 0
    ensures var listing, n := DistinctListing(q, rows), StartOf(q, rows, lastKnown);
            var page := Older(q, rows, size, lastKnown);
            var next := NextPageParam(page, size);
            if |listing| < n + size then page == listing[n..] && next.None?
            else && page == listing[n..n + size] && next.Some?
                 && StartOf(q, rows, next) == NextStart(listing, n, size)
                 && n < StartOf(q, rows, next)
  {
    var listing, n := DistinctListing(q, rows), StartOf(q, rows, lastKnown);
    OlderIsSlice(q, rows, size, if lastKnown.Some? then lastKnown.value else TxIdx(I64_MAX, I64_MAX));
    PageAt(listing, n, size);
    ListingIsSorted(q, Dedup(rows));
    if n + size <= |listing| {
      CountIsPast(listing, n + size - 1);
    }
  }

  /** The infinite query of the frontend, followed to its end. */
  function CollectOlder(q: Query, rows: seq<Row>, size: nat, lastKnown: Option<TxIdx>): seq<Row>
    requires size > 0
    decreases |DistinctListing(q, rows)| - StartOf(q, rows, lastKnown)
  {
    var page := Older(q, rows, size, lastKnown);
    var next := NextPageParam(page, size);
    OlderPageAdvances(q, rows, size, lastKnown);
    if next.None? then page else page + CollectOlder(q, rows, size, next)
  }

  lemma {:induction false} CollectOlderFollows(q: Query, rows: seq<Row>, size: nat, lastKnown: Option<TxIdx>)
    requires size > 0
    ensures Sorted(NewestFirst, DistinctListing(q, rows))
    ensures CollectOlder(q, rows, size, lastKnown)
            == Following(DistinctListing(q, rows), StartOf(q, rows, lastKnown), size)
    decreases |DistinctListing(q, rows)| - StartOf(q, rows, lastKnown)
  {
    ListingIsSorted(q, Dedup(rows));
    assert Sorted(NewestFirst, DistinctListing(q, rows));
    hide Older, DistinctListing, StartOf, NextPageParam, NextStart, Sorted;
    OlderPageAdvances(q, rows, size, lastKnown);
    var next := NextPageParam(Older(q, rows, size, lastKnown), size);
    if next.Some? {
      CollectOlderFollows(q, rows, size, next);
    }
  }

  /** No page boundary falls between two rows with the same key. */
  ghost predicate CleanCuts(listing: seq<Row>, i: nat, size: nat)
    requires i <= |listing| && size > 0
    decreases |listing| - i
  {
    i + size < |listing| ==>
      KeyOf(listing[i + size - 1]) != KeyOf(listing[i + size]) && CleanCuts(listing, i + size, size)
  }

  lemma {:induction false} FollowingIsShort(listing: seq<Row>, i: nat, size: nat)
    requires Sorted(NewestFirst, listing) && i <= |listing| && size > 0
    ensures |Following(listing, i, size)| <= |listing| - i
    decreases |listing| - i
  {
    if i + size <= |listing| {
      CountIsPast(listing, i + size - 1);
      FollowingIsShort(listing, NextStart(listing, i, size), size);
    }
  }

  lemma SplitCutLosesRows(listing: seq<Row>, i: nat, size: nat)
    requires Sorted(NewestFirst, listing) && 0 < size && i + size < |listing|
    requires KeyOf(listing[i + size - 1]) == KeyOf(listing[i + size])
    ensures |Following(listing, i, size)| < |listing| - i
  {
    CountIsPast(listing, i + size - 1);
    FollowingIsShort(listing, NextStart(listing, i, size), size);
  }

  lemma FollowingPastCleanCut(listing: seq<Row>, i: nat, size: nat)
    requires Sorted(NewestFirst, listing) && 0 < size && i + size <= |listing|
    requires i + size == |listing| || KeyOf(listing[i + size - 1]) != KeyOf(listing[i + size])
    ensures Following(listing, i, size) == listing[i..i + size] + Following(listing, i + size, size)
  {
    hide Sorted, CountFrom;
    CountIsPast(listing, i + size - 1);
  }

  lemma {:induction false} FollowingIffCleanCuts(listing: seq<Row>, i: nat, size: nat)
    requires Sorted(NewestFirst, listing) && i <= |listing| && size > 0
    ensures Following(listing, i, size) == listing[i..] <==> CleanCuts(listing, i, size)
    decreases |listing| - i
  {
    if i + size <= |listing| {
      hide Sorted, KeyOf, Following;
      if i + size == |listing| || KeyOf(listing[i + size - 1]) != KeyOf(listing[i + size]) {
        FollowingIffCleanCuts(listing, i + size, size);
        FollowingPastCleanCut(listing, i, size);
        RestDecides(listing, i, i + size, Following(listing, i + size, size));
      } else {
        SplitCutLosesRows(listing, i, size);
      }
    }
  }

  lemma RestDecides(listing: seq<Row>, i: nat, next: nat, rest: seq<Row>)
    requires i <= next <= |listing|
    ensures listing[i..next] + rest == listing[i..] <==> rest == listing[next..]
  {
    assert listing[i..] == listing[i..next] + listing[next..];
    assert (listing[i..next] + rest)[next - i..] == rest;
    assert listing[i..][next - i..] == listing[next..];
  }

  ghost predicate DistinctKeys(listing: seq<Row>) {
    forall i, j :: 0 <= i < j < |listing| ==> KeyOf(listing[i]) != KeyOf(listing[j])
  }

  ghost predicate BelowTop(listing: seq<Row>) {
    forall i :: 0 <= i < |listing| ==> Less(KeyOf(listing[i]), TxIdx(I64_MAX, I64_MAX))
  }

  lemma {:induction false} DistinctKeysCutClean(listing: seq<Row>, i: nat, size: nat)
    requires DistinctKeys(listing) && i <= |listing| && size > 0
    ensures CleanCuts(listing, i, size)
    decreases |listing| - i
  {
    if i + size < |listing| {
      DistinctKeysCutClean(listing, i + size, size);
    }
  }

  lemma NothingAboveTop(listing: seq<Row>)
    requires Sorted(NewestFirst, listing)
    ensures CountFrom(listing, TxIdx(I64_MAX, I64_MAX)) == 0 <==> BelowTop(listing)
  {
    if listing != [] {
      forall i | 0 < i < |listing|
        ensures Less(KeyOf(listing[0]), TxIdx(I64_MAX, I64_MAX)) ==> Less(KeyOf(listing[i]), TxIdx(I64_MAX, I64_MAX))
      {
        assert NewestFirst(listing[0], listing[i]);
      }
    }
  }

  lemma DistinctListingIsExact(q: Query, rows: seq<Row>)
    ensures Distinct(DistinctListing(q, rows))
    ensures forall r :: r in DistinctListing(q, rows) <==> r in rows && Matches(q, r) && r.block.Some?
  {
    var matching := (r: Row) => Matches(q, r) && r.block.Some?;
    FilterOfDedup(matching, rows);
    DedupMembers(Filter(matching, rows));
    SortKeepsDistinct(NewestFirst, Dedup(Filter(matching, rows)));
    forall r
      ensures r in Filter(matching, rows) <==> r in rows && matching(r)
    {
      FilterMembers(matching, rows, r);
    }
  }

  /** Following the cursor to a short page shows the whole listing, each row once and in order, if
      and only if every key is below the one that stands for no cursor and no page boundary splits
      rows of equal key. The listing holds exactly the rows asked for. */
  lemma PagesAreCompleteIffCutsClean(q: Query, rows: seq<Row>, size: nat)
    requires size > 0
    ensures var listing := DistinctListing(q, rows);
            && Sorted(NewestFirst, listing)
            && Distinct(listing)
            && (forall r :: r in listing <==> r in rows && Matches(q, r) && r.block.Some?)
            && (CollectOlder(q, rows, size, None) == listing
                <==> BelowTop(listing) && CleanCuts(listing, 0, size))
  {
    CollectOlderFollows(q, rows, size, None);
    var listing, n := DistinctListing(q, rows), StartOf(q, rows, None);
    NothingAboveTop(listing);
    FollowingIsShort(listing, n, size);
    if n == 0 {
      FollowingIffCleanCuts(listing, 0, size);
      assert listing[0..] == listing;
    }
    DistinctListingIsExact(q, rows);
  }

  /** Distinct keys below the top are always enough. */
  lemma DistinctKeysPageCompletely(q: Query, rows: seq<Row>, size: nat)
    requires size > 0 && BelowTop(DistinctListing(q, rows)) && DistinctKeys(DistinctListing(q, rows))
    ensures CollectOlder(q, rows, size, None) == DistinctListing(q, rows)
  {
    PagesAreCompleteIffCutsClean(q, rows, size);
    DistinctKeysCutClean(DistinctListing(q, rows), 0, size);
  }

  lemma ListingOfTwo(q: Query, a: Row, b: Row)
    requires Matches(q, a) && a.block.Some? && Matches(q, b) && b.block.Some? && NewestFirst(a, b)
    ensures Listing(q, [a, b]) == [a, b]
  {
    var p := (r: Row) => Matches(q, r) && r.block.Some?;
    assert [a, b][1..] == [b] && [b][1..] == [];
    assert Filter(p, [b]) == [b];
    assert Filter(p, [a, b]) == [a, b];
    assert Sort(NewestFirst, [b]) == [b];
  }

  /** Rows stored without a position share position zero, and a boundary between them loses one. */
  lemma TiedRowsAreLost()
    ensures var q := Query(1, None);
            var rows := [Row(1, 7, None, Some(5), 0, 100, 0), Row(1, 7, None, Some(5), 0, 101, 0)];
            CollectOlder(q, rows, 1, None) != DistinctListing(q, rows)
  {
    var q := Query(1, None);
    var a, b := Row(1, 7, None, Some(5), 0, 100, 0), Row(1, 7, None, Some(5), 0, 101, 0);
    ListingOfTwo(q, a, b);
    assert !CleanCuts([a, b], 0, 1);
    PagesAreCompleteIffCutsClean(q, [a, b], 1);
  }

  // ----- newer pages -----------------------------------------------------------------------

  /** The rows of the listing above a key, newest first. */
  function ListingAbove(q: Query, rows: seq<Row>, cursor: TxIdx): seq<Row> {
    Filter((r: Row) => Less(cursor, KeyOf(r)), Listing(q, rows))
  }

  /** The last `max` elements. */
  function TakeLast<T>(s: seq<T>, max: nat): seq<T> {
    if |s| <= max then s else s[|s| - max..]
  }

  function NotAbove(key: TxIdx): Row -> bool {
    (r: Row) => !Less(key, KeyOf(r))
  }

  /** Cutting off the lower end does not split rows of equal key. */
  predicate CutsClean(listing: seq<Row>, size: nat) {
    0 < size < |listing| ==> KeyOf(listing[|listing| - size - 1]) != KeyOf(listing[|listing| - size])
  }

  lemma OrdersTieAlike()
    ensures forall a, b :: NewestFirst(a, b) && NewestFirst(b, a) <==> OldestFirst(a, b) && OldestFirst(b, a)
  {
  }

  lemma {:induction false} NotAboveIsSuffix(listing: seq<Row>, key: TxIdx)
    requires Sorted(NewestFirst, listing)
    ensures Filter(NotAbove(key), listing) == listing[CountAbove(listing, key)..]
  {
    if listing != [] {
      NotAboveIsSuffix(listing[1..], key);
      if !Less(key, KeyOf(listing[0])) {
        assert |listing| > 1 ==> NewestFirst(listing[0], listing[1]);
        assert CountAbove(listing[1..], key) == 0;
        assert listing == [listing[0]] + listing[1..];
      }
    }
  }

  lemma {:induction false} NotAboveIsPrefix(upwards: seq<Row>, key: TxIdx)
    requires Sorted(OldestFirst, upwards)
    ensures Filter(NotAbove(key), upwards) <= upwards
  {
    if upwards != [] {
      NotAboveIsPrefix(upwards[1..], key);
      if Less(key, KeyOf(upwards[0])) {
        forall i | 0 <= i < |upwards|
          ensures !NotAbove(key)(upwards[i])
        {
          assert i == 0 || OldestFirst(upwards[0], upwards[i]);
        }
        NothingKept(NotAbove(key), upwards);
      }
    }
  }

  lemma {:induction false} NothingKept<T>(p: T -> bool, s: seq<T>)
    requires forall i :: 0 <= i < |s| ==> !p(s[i])
    ensures Filter(p, s) == []
  {
    if s != [] {
      NothingKept(p, s[1..]);
    }
  }

  lemma {:induction false} KeepsAtLeast<T>(p: T -> bool, s: seq<T>, n: nat)
    requires n <= |s| && forall i :: 0 <= i < n ==> p(s[i])
    ensures |Filter(p, s)| >= n
  {
    if n > 0 {
      KeepsAtLeast(p, s[1..], n - 1);
    }
  }

  lemma {:induction false} AboveIffBefore(listing: seq<Row>, key: TxIdx, k: nat)
    requires Sorted(NewestFirst, listing) && k < |listing|
    ensures Less(key, KeyOf(listing[k])) <==> k < CountAbove(listing, key)
    decreases k
  {
    assert k == 0 || NewestFirst(listing[0], listing[k]);
    if k > 0 {
      AboveIffBefore(listing[1..], key, k - 1);
    }
  }

  /** Sorting upwards, cutting and sorting downwards again leaves the lower end of a listing, unless
      the cut splits rows of equal key. */
  lemma CutFromBelow(rows: seq<Row>, max: nat)
    requires CutsClean(Sort(NewestFirst, rows), max)
    ensures Sort(NewestFirst, Take(Sort(OldestFirst, rows), max)) == TakeLast(Sort(NewestFirst, rows), max)
  {
    OrdersAreTotal();
    OrdersTieAlike();
    var listing, upwards := Sort(NewestFirst, rows), Sort(OldestFirst, rows);
    SortKeepsLength(NewestFirst, rows);
    SortKeepsLength(OldestFirst, rows);
    if |rows| <= max {
      SortOfSort(NewestFirst, OldestFirst, rows);
    } else if max == 0 {
      assert Take(upwards, 0) == [] && listing[|listing|..] == [];
    } else {
      CutAtKey(rows, max);
    }
  }

  lemma CountAboveAtCut(listing: seq<Row>, start: nat)
    requires Sorted(NewestFirst, listing) && start < |listing|
    requires start > 0 ==> KeyOf(listing[start - 1]) != KeyOf(listing[start])
    ensures CountAbove(listing, KeyOf(listing[start])) == start
  {
    AboveIffBefore(listing, KeyOf(listing[start]), start);
    if start > 0 {
      assert NewestFirst(listing[start - 1], listing[start]);
      AboveIffBefore(listing, KeyOf(listing[start]), start - 1);
    }
  }

  /** The rows up to a key are one end of either arrangement. */
  lemma EndsUpToKey(rows: seq<Row>, key: TxIdx)
    ensures var low := Filter(NotAbove(key), rows);
            var listing, upwards := Sort(NewestFirst, rows), Sort(OldestFirst, rows);
            && CountAbove(listing, key) + |low| == |listing| == |upwards|
            && Sort(NewestFirst, low) == listing[CountAbove(listing, key)..]
            && Sort(OldestFirst, low) == upwards[..|low|]
            && Filter(NotAbove(key), upwards) == upwards[..|low|]
  {
    OrdersAreTotal();
    hide Less, KeyOf, NewestFirst, OldestFirst, NotAbove;
    var low := Filter(NotAbove(key), rows);
    SortSorts(NewestFirst, rows);
    SortSorts(OldestFirst, rows);
    SortKeepsLength(NewestFirst, rows);
    SortKeepsLength(OldestFirst, rows);
    SortKeepsLength(NewestFirst, low);
    SortKeepsLength(OldestFirst, low);
    NotAboveIsSuffix(Sort(NewestFirst, rows), key);
    NotAboveIsPrefix(Sort(OldestFirst, rows), key);
    FilterOfSort(NewestFirst, NotAbove(key), rows);
    FilterOfSort(OldestFirst, NotAbove(key), rows);
  }

  lemma CutAtKey(rows: seq<Row>, max: nat)
    requires |Sort(NewestFirst, rows)| == |Sort(OldestFirst, rows)| == |rows| > max > 0
    requires CutsClean(Sort(NewestFirst, rows), max)
    ensures Sort(NewestFirst, Sort(OldestFirst, rows)[..max]) == Sort(NewestFirst, rows)[|rows| - max..]
  {
    OrdersAreTotal();
    OrdersTieAlike();
    SortSorts(NewestFirst, rows);
    var start := |rows| - max;
    var key := KeyOf(Sort(NewestFirst, rows)[start]);
    CountAboveAtCut(Sort(NewestFirst, rows), start);
    hide Less, KeyOf, NewestFirst, OldestFirst, NotAbove, Sort, Filter, Sorted;
    EndsUpToKey(rows, key);
    SortOfSort(NewestFirst, OldestFirst, Filter(NotAbove(key), rows));
  }

  lemma AboveIsSorted(q: Query, rows: seq<Row>, cursor: TxIdx)
    ensures Sorted(NewestFirst, ListingAbove(q, rows, cursor))
    ensures ListingAbove(q, rows, cursor) == Listing(q, rows)[..CountAbove(Listing(q, rows), cursor)]
    ensures ListingAbove(q, rows, cursor)
            == Sort(NewestFirst, Filter((r: Row) => Matches(q, r) && r.block.Some? && Less(cursor, KeyOf(r)), rows))
  {
    OrdersAreTotal();
    var matching := (r: Row) => Matches(q, r) && r.block.Some?;
    var above := (r: Row) => Less(cursor, KeyOf(r));
    var both := (r: Row) => Matches(q, r) && r.block.Some? && Less(cursor, KeyOf(r));
    FilterTwice(matching, above, both, rows);
    FilterOfSort(NewestFirst, above, Filter(matching, rows));
    ListingIsSorted(q, rows);
    AboveIsPrefix(Listing(q, rows), cursor);
  }

  /** A newer page is the slice of the listing right above the cursor, unless its upper end splits
      rows of equal key. */
  lemma NewerIsSlice(q: Query, rows: seq<Row>, max: nat, cursor: TxIdx)
    requires CutsClean(ListingAbove(q, rows, cursor), max)
    ensures Newer(q, rows, max, Some(cursor)) == TakeLast(ListingAbove(q, rows, cursor), max)
  {
    AboveIsSorted(q, rows, cursor);
    CutFromBelow(Filter((r: Row) => Matches(q, r) && r.block.Some? && Less(cursor, KeyOf(r)), rows), max);
  }

  lemma {:induction false} CountAboveOfPrefix(listing: seq<Row>, cursor: TxIdx, key: TxIdx)
    requires Less(cursor, key)
    ensures CountAbove(listing, key) <= CountAbove(listing, cursor)
    ensures CountAbove(listing[..CountAbove(listing, cursor)], key) == CountAbove(listing, key)
  {
    if listing != [] && Less(cursor, KeyOf(listing[0])) {
      CountAboveOfPrefix(listing[1..], cursor, key);
      var m := CountAbove(listing[1..], cursor);
      assert listing[..1 + m][1..] == listing[1..][..m];
    }
  }

  /** A full newer page has at least its own rows up to the key it ends with. */
  lemma NewerPageMoves(q: Query, rows: seq<Row>, size: nat, cursor: TxIdx)
    requires size > 0
    ensures var listing, page := ListingAbove(q, rows, cursor), Newer(q, rows, size, Some(cursor));
            && |page| == (if |listing| < size then |listing| else size)
            && (|listing| >= size ==>
                  && Less(cursor, KeyOf(page[0]))
                  && CountAbove(listing, KeyOf(page[0])) <= |listing| - size)
  {
    AboveIsSorted(q, rows, cursor);
    var both := (r: Row) => Matches(q, r) && r.block.Some? && Less(cursor, KeyOf(r));
    var above := Filter(both, rows);
    var upwards, page := Sort(OldestFirst, above), Newer(q, rows, size, Some(cursor));
    SortKeepsLength(NewestFirst, above);
    SortKeepsLength(OldestFirst, above);
    SortKeepsLength(NewestFirst, Take(upwards, size));
    if |above| >= size {
      PageHead(above, size);
      FilterMembers(both, rows, page[0]);
      EndsUpToKey(above, KeyOf(page[0]));
      KeepsAtLeast(NotAbove(KeyOf(page[0])), upwards, size);
    }
  }

  /** The first row of a page is one of the rows, and no row of the page is above it. */
  lemma PageHead(rows: seq<Row>, size: nat)
    requires 0 < size <= |rows|
    ensures |Sort(OldestFirst, rows)| == |rows|
    ensures var upwards := Sort(OldestFirst, rows);
            var page := Sort(NewestFirst, Take(upwards, size));
            && |page| == size && page[0] in rows
            && forall i :: 0 <= i < size ==> NotAbove(KeyOf(page[0]))(upwards[i])
  {
    OrdersAreTotal();
    var upwards := Sort(OldestFirst, rows);
    SortKeepsLength(OldestFirst, rows);
    var taken := Take(upwards, size);
    assert taken == upwards[..size];
    var page := Sort(NewestFirst, taken);
    SortKeepsLength(NewestFirst, taken);
    SortPermutes(OldestFirst, rows);
    SortPermutes(NewestFirst, taken);
    SortSorts(NewestFirst, taken);
    assert page[0] in multiset(taken) && page[0] in upwards && page[0] in multiset(upwards);
    forall i | 0 <= i < size
      ensures NotAbove(KeyOf(page[0]))(upwards[i])
    {
      assert taken[i] in multiset(taken);
      assert taken[i] in multiset(page);
      SortedHeadIsLeast(NewestFirst, page, taken[i]);
    }
  }

  /** Asking for newer pages until a short one, each page put in front of the ones before. */
  function CollectNewer(q: Query, rows: seq<Row>, size: nat, cursor: TxIdx): seq<Row>
    requires size > 0
    decreases |ListingAbove(q, rows, cursor)|
  {
    var page := Newer(q, rows, size, Some(cursor));
    if |page| < size then page
    else
      NextIsShorter(q, rows, size, cursor);
      CollectNewer(q, rows, size, KeyOf(page[0])) + page
  }

  /** What is above the end of a full page. */
  lemma NextIsShorter(q: Query, rows: seq<Row>, size: nat, cursor: TxIdx)
    requires size > 0 && |Newer(q, rows, size, Some(cursor))| >= size
    ensures var listing, key := ListingAbove(q, rows, cursor), KeyOf(Newer(q, rows, size, Some(cursor))[0]);
            && ListingAbove(q, rows, key) == listing[..CountAbove(listing, key)]
            && CountAbove(listing, key) <= |listing| - size
  {
    var key := KeyOf(Newer(q, rows, size, Some(cursor))[0]);
    NewerPageMoves(q, rows, size, cursor);
    AboveIsSorted(q, rows, cursor);
    AboveIsSorted(q, rows, key);
    CountAboveOfPrefix(Listing(q, rows), cursor, key);
  }

  /** No page boundary splits rows of equal key, going up. */
  ghost predicate CutsCleanUpwards(listing: seq<Row>, size: nat)
    requires size > 0
    decreases |listing|
  {
    |listing| >= size ==> CutsClean(listing, size) && CutsCleanUpwards(listing[..|listing| - size], size)
  }

  lemma {:induction false} CollectNewerIsShort(q: Query, rows: seq<Row>, size: nat, cursor: TxIdx)
    requires size > 0
    ensures |CollectNewer(q, rows, size, cursor)| <= |ListingAbove(q, rows, cursor)|
    decreases |ListingAbove(q, rows, cursor)|
  {
    NewerPageMoves(q, rows, size, cursor);
    var page := Newer(q, rows, size, Some(cursor));
    if |page| >= size {
      hide Newer, ListingAbove, KeyOf, CountAbove;
      NextIsShorter(q, rows, size, cursor);
      CollectNewerIsShort(q, rows, size, KeyOf(page[0]));
    }
  }

  /** The end of a full page is the next cut exactly if the cut splits no rows of equal key. */
  lemma CutIffClean(listing: seq<Row>, key: TxIdx, size: nat)
    requires Sorted(NewestFirst, listing) && 0 < size <= |listing|
    requires CountAbove(listing, key) == |listing| - size
    ensures CutsClean(listing, size)
  {
    if size < |listing| {
      AboveIffBefore(listing, key, |listing| - size);
      AboveIffBefore(listing, key, |listing| - size - 1);
    }
  }

  /** Prepending newer pages from a cursor shows exactly the rows above it, newest first, if and
      only if no page boundary splits rows of equal key. */
  lemma {:induction false} NewerPagesAreCompleteIffCutsClean(q: Query, rows: seq<Row>, size: nat, cursor: TxIdx)
    requires size > 0
    ensures CollectNewer(q, rows, size, cursor) == ListingAbove(q, rows, cursor)
            <==> CutsCleanUpwards(ListingAbove(q, rows, cursor), size)
    decreases |ListingAbove(q, rows, cursor)|
  {
    hide Newer, ListingAbove, KeyOf, CountAbove, Sorted;
    var listing, page := ListingAbove(q, rows, cursor), Newer(q, rows, size, Some(cursor));
    NewerPageMoves(q, rows, size, cursor);
    if |page| < size {
      NewerIsSlice(q, rows, size, cursor);
    } else {
      var key, start := KeyOf(page[0]), |listing| - size;
      AboveIsSorted(q, rows, cursor);
      NextIsShorter(q, rows, size, cursor);
      if CutsClean(listing, size) {
        NewerIsSlice(q, rows, size, cursor);
        CountAboveAtCut(listing, start);
        NewerPagesAreCompleteIffCutsClean(q, rows, size, key);
        FrontDecides(listing, start, CollectNewer(q, rows, size, key));
      } else {
        if CountAbove(listing, key) == start {
          CutIffClean(listing, key, size);
        }
        CollectNewerIsShort(q, rows, size, key);
      }
    }
  }

  lemma FrontDecides(listing: seq<Row>, start: nat, front: seq<Row>)
    requires start <= |listing|
    ensures front + listing[start..] == listing <==> front == listing[..start]
  {
    assert listing == listing[..start] + listing[start..];
    if front + listing[start..] == listing {
      assert |front| == start;
      assert front == (front + listing[start..])[..start];
    }
  }

  lemma {:induction false} DistinctKeysCutCleanUpwards(listing: seq<Row>, size: nat)
    requires size > 0 && DistinctKeys(listing)
    ensures CutsCleanUpwards(listing, size)
    decreases |listing|
  {
    if |listing| >= size {
      DistinctKeysCutCleanUpwards(listing[..|listing| - size], size);
    }
  }

  /** Distinct keys are always enough. */
  lemma DistinctKeysCollectAllNewer(q: Query, rows: seq<Row>, size: nat, cursor: TxIdx)
    requires size > 0 && DistinctKeys(ListingAbove(q, rows, cursor))
    ensures CollectNewer(q, rows, size, cursor) == ListingAbove(q, rows, cursor)
  {
    NewerPagesAreCompleteIffCutsClean(q, rows, size, cursor);
    DistinctKeysCutCleanUpwards(ListingAbove(q, rows, cursor), size);
  }

  // ----- pages, written out on the columns ---------------------------------------------------

  /** What the WHERE clauses ask for, apart from the cursor. */
  predicate Asked(q: Query, r: Row) {
    && r.chain == q.chain && r.block.Some?
    && (q.address.None? || r.from == q.address.value || (r.to.Some? && r.to.value == q.address.value))
  }

  predicate IsBelow(r: Row, block: int, position: int)
    requires r.block.Some?
  {
    r.block.value < block || (r.block.value == block && r.position < position)
  }

  predicate IsAbove(r: Row, block: int, position: int)
    requires r.block.Some?
  {
    r.block.value > block || (r.block.value == block && r.position > position)
  }

  /** Block numbers never increase, and within one block positions never do. */
  ghost predicate Descends(s: seq<Row>) {
    && (forall i :: 0 <= i < |s| ==> s[i].block.Some?)
    && (forall i, j :: 0 <= i < j < |s| ==> s[i].block.value >= s[j].block.value)
    && (forall i, j :: 0 <= i < j < |s| && s[i].block.value == s[j].block.value ==> s[i].position >= s[j].position)
  }

  lemma SortedDescends(s: seq<Row>)
    requires Sorted(NewestFirst, s) && forall r :: r in s ==> r.block.Some?
    ensures Descends(s)
  {
    forall i, j | 0 <= i < j < |s|
      ensures NewestFirst(s[i], s[j]) && s[i].block.Some? && s[j].block.Some?
    {
      assert s[i] in s && s[j] in s;
    }
  }

  /** The first elements of a sorted list are elements of the list, and nothing left out belongs
      before any of them. */
  lemma TakeOfSort<T(!new)>(le: Order<T>, s: seq<T>, max: nat)
    requires IsTotalPreorder(le)
    ensures var taken := Take(Sort(le, s), max);
            && |taken| == (if |s| <= max then |s| else max) && Sorted(le, taken)
            && (forall x :: x in taken ==> x in s)
            && (forall x, y :: x in s && x !in taken && y in taken ==> le(y, x))
            && (|s| <= max ==> forall x :: x in s ==> x in taken)
  {
    var sorted, taken := Sort(le, s), Take(Sort(le, s), max);
    SortKeepsLength(le, s);
    SortSorts(le, s);
    SortPermutes(le, s);
    forall x
      ensures x in s <==> x in sorted
    {
      assert x in multiset(s) <==> x in multiset(sorted);
    }
    forall x, y | x in s && x !in taken && y in taken
      ensures le(y, x)
    {
      var i :| 0 <= i < |taken| && taken[i] == y;
      var k :| 0 <= k < |sorted| && sorted[k] == x;
      assert |taken| <= k;
      assert sorted[i] == y;
    }
  }

  lemma ListingDescends(q: Query, rows: seq<Row>)
    ensures Descends(Listing(q, rows))
    ensures forall r :: r in Listing(q, rows) <==> r in rows && Asked(q, r)
  {
    OrdersAreTotal();
    var matching := (r: Row) => Matches(q, r) && r.block.Some?;
    var asked := Filter(matching, rows);
    forall r
      ensures r in Listing(q, rows) <==> r in rows && Asked(q, r)
    {
      FilterMembers(matching, rows, r);
      SortPermutes(NewestFirst, asked);
      assert r in multiset(asked) <==> r in multiset(Listing(q, rows));
    }
    ListingIsSorted(q, rows);
    SortedDescends(Listing(q, rows));
  }

  /** An older page has the rows asked for right below the cursor, and nothing is skipped: in order,
      each once, at most `max`, and whatever else is below the cursor comes after all of them. */
  lemma OlderPage(q: Query, rows: seq<Row>, max: nat, lastKnown: Option<TxIdx>)
    ensures var page := Older(q, rows, max, lastKnown);
            var block := if lastKnown.Some? then lastKnown.value.block else 0x7fff_ffff_ffff_ffff;
            var position := if lastKnown.Some? then lastKnown.value.position else 0x7fff_ffff_ffff_ffff;
            && |page| <= max && Descends(page) && Distinct(page)
            && (forall r :: r in page ==> r in rows && Asked(q, r) && IsBelow(r, block, position))
            && (forall r :: r in rows && Asked(q, r) && IsBelow(r, block, position) && r !in page ==>
                  |page| == max && forall p :: p in page && p.block.Some? ==> !IsBelow(p, r.block.value, r.position))
  {
    OrdersAreTotal();
    var cursor := if lastKnown.Some? then lastKnown.value else TxIdx(I64_MAX, I64_MAX);
    var both := (r: Row) => Matches(q, r) && r.block.Some? && Less(KeyOf(r), cursor);
    var kept, page := Filter(both, Dedup(rows)), Older(q, rows, max, lastKnown);
    TakeOfSort(NewestFirst, kept, max);
    DedupMembers(rows);
    forall r
      ensures r in kept <==> r in rows && Asked(q, r) && IsBelow(r, cursor.block, cursor.position)
    {
      FilterMembers(both, Dedup(rows), r);
    }
    SortedDescends(page);
    FilterOfDedup(both, rows);
    DedupMembers(Filter(both, rows));
    SortKeepsDistinct(NewestFirst, kept);
    forall r, p | r in kept && r !in page && p in page
      ensures |page| == max && !IsBelow(p, r.block.value, r.position)
    {
      assert NewestFirst(p, r);
    }
  }

  /** A newer page mirrors it: the rows asked for right above the cursor, and whatever else is above
      the cursor comes before all of them. */
  lemma NewerPage(q: Query, rows: seq<Row>, max: nat, firstKnown: Option<TxIdx>)
    ensures var page := Newer(q, rows, max, firstKnown);
            var block := if firstKnown.Some? then firstKnown.value.block else 0;
            var position := if firstKnown.Some? then firstKnown.value.position else 0;
            && |page| <= max && Descends(page)
            && (forall r :: r in page ==> r in rows && Asked(q, r) && IsAbove(r, block, position))
            && (forall r :: r in rows && Asked(q, r) && IsAbove(r, block, position) && r !in page ==>
                  |page| == max && forall p :: p in page && p.block.Some? ==> !IsAbove(p, r.block.value, r.position))
  {
    OrdersAreTotal();
    var cursor := if firstKnown.Some? then firstKnown.value else TxIdx(0, 0);
    var both := (r: Row) => Matches(q, r) && r.block.Some? && Less(cursor, KeyOf(r));
    var kept, page := Filter(both, rows), Newer(q, rows, max, firstKnown);
    TakeOfSort(OldestFirst, kept, max);
    var taken := Take(Sort(OldestFirst, kept), max);
    TakeOfSort(NewestFirst, taken, |taken|);
    forall r
      ensures r in kept <==> r in rows && Asked(q, r) && IsAbove(r, cursor.block, cursor.position)
    {
      FilterMembers(both, rows, r);
    }
    SortKeepsLength(NewestFirst, taken);
    assert Take(page, |taken|) == page;
    SortedDescends(page);
    forall r, p | r in kept && r !in page && p in page
      ensures |page| == max && !IsAbove(p, r.block.value, r.position)
    {
      assert r !in taken && p in taken && OldestFirst(p, r);
    }
  }

  /** The cursor of the next page is the last row's block and position; there is none after a page
      that is short or empty. */
  lemma NextCursorIsLastRow(page: seq<Row>, size: nat)
    requires forall r :: r in page ==> r.block.Some?
    ensures NextPageParam(page, size).Some? <==> size <= |page| && page != []
    ensures NextPageParam(page, size).Some? ==>
              && NextPageParam(page, size).value.block == page[|page| - 1].block.value
              && NextPageParam(page, size).value.position == page[|page| - 1].position
  {
    assert page != [] ==> page[|page| - 1] in page;
  }

  // ----- both directions -------------------------------------------------------------------

  /** Paging down and paging up are about the same rows if and only if no row asked for occurs twice:
      going down such rows are merged, going up each is shown. */
  lemma DirectionsAgreeIffDistinct(q: Query, rows: seq<Row>)
    ensures DistinctListing(q, rows) == Listing(q, rows) <==>
            Distinct(Filter((r: Row) => Matches(q, r) && r.block.Some?, rows))
  {
    var matching := (r: Row) => Matches(q, r) && r.block.Some?;
    FilterOfDedup(matching, rows);
    DedupIffDistinct(Filter(matching, rows));
    SortKeepsLength(NewestFirst, Filter(matching, rows));
    SortKeepsLength(NewestFirst, Dedup(Filter(matching, rows)));
  }
}
