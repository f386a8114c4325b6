/** Stable sorting, filtering and deduplication of sequences. */
module Sorting {
  type Order<!T> = (T, T) -> bool

  ghost predicate IsTotalPreorder<T(!new)>(le: Order<T>) {
    && (forall a, b :: le(a, b) || le(b, a))
    && (forall a, b, c :: le(a, b) && le(b, c) ==> le(a, c))
  }

  ghost predicate Sorted<T>(le: Order<T>, s: seq<T>) {
    forall i, j :: 0 <= i < j < |s| ==> le(s[i], s[j])
  }

  function Filter<T>(p: T -> bool, s: seq<T>): seq<T> {
    if s == [] then []
    else if p(s[0]) then [s[0]] + Filter(p, s[1..])
    else Filter(p, s[1..])
  }

  function Insert<T>(le: Order<T>, x: T, s: seq<T>): seq<T> {
    if s == [] || le(x, s[0]) then [x] + s else [s[0]] + Insert(le, x, s[1..])
  }

  function Sort<T>(le: Order<T>, s: seq<T>): seq<T> {
    if s == [] then [] else Insert(le, s[0], Sort(le, s[1..]))
  }

  lemma {:induction false} InsertAdds<T>(le: Order<T>, x: T, s: seq<T>)
    ensures multiset(Insert(le, x, s)) == multiset(s) + multiset{x}
  {
    if s != [] && !le(x, s[0]) {
      InsertAdds(le, x, s[1..]);
      assert s == [s[0]] + s[1..];
    }
  }

  lemma {:induction false} SortPermutes<T>(le: Order<T>, s: seq<T>)
    ensures multiset(Sort(le, s)) == multiset(s)
  {
    if s != [] {
      SortPermutes(le, s[1..]);
      InsertAdds(le, s[0], Sort(le, s[1..]));
      assert s == [s[0]] + s[1..];
    }
  }

  lemma {:induction false} InsertKeepsSorted<T(!new)>(le: Order<T>, x: T, s: seq<T>)
    requires IsTotalPreorder(le) && Sorted(le, s)
    ensures Sorted(le, Insert(le, x, s))
  {
    if s != [] && !le(x, s[0]) {
      InsertKeepsSorted(le, x, s[1..]);
      var rest := Insert(le, x, s[1..]);
      InsertAdds(le, x, s[1..]);
      forall j | 0 <= j < |rest|
        ensures le(s[0], rest[j])
      {
        assert rest[j] in multiset(rest);
        if rest[j] != x {
          assert rest[j] in s[1..];
        }
      }
    }
  }

  lemma {:induction false} SortSorts<T(!new)>(le: Order<T>, s: seq<T>)
    requires IsTotalPreorder(le)
    ensures Sorted(le, Sort(le, s))
  {
    if s != [] {
      SortSorts(le, s[1..]);
      InsertKeepsSorted(le, s[0], Sort(le, s[1..]));
    }
  }

  lemma {:induction false} FilterMembers<T>(p: T -> bool, s: seq<T>, x: T)
    ensures x in Filter(p, s) <==> x in s && p(x)
  {
    if s != [] {
      FilterMembers(p, s[1..], x);
    }
  }

  lemma {:induction false} FilterTwice<T>(p: T -> bool, q: T -> bool, both: T -> bool, s: seq<T>)
    requires forall x :: x in s ==> (both(x) <==> p(x) && q(x))
    ensures Filter(both, s) == Filter(q, Filter(p, s))
  {
    if s != [] {
      FilterTwice(p, q, both, s[1..]);
    }
  }

  lemma {:induction false} FilterOfInsert<T(!new)>(le: Order<T>, p: T -> bool, x: T, s: seq<T>)
    requires IsTotalPreorder(le) && Sorted(le, s)
    ensures Filter(p, Insert(le, x, s)) == if p(x) then Insert(le, x, Filter(p, s)) else Filter(p, s)
  {
    if s == [] {
      assert [x][1..] == [];
    } else if le(x, s[0]) {
      assert ([x] + s)[1..] == s;
      var kept := Filter(p, s);
      if kept != [] {
        FilterMembers(p, s, kept[0]);
        var i :| 0 <= i < |s| && s[i] == kept[0];
        assert le(x, kept[0]);
      }
    } else {
      FilterOfInsert(le, p, x, s[1..]);
      assert ([s[0]] + Insert(le, x, s[1..]))[1..] == Insert(le, x, s[1..]);
      if p(s[0]) {
        assert ([s[0]] + Filter(p, s[1..]))[1..] == Filter(p, s[1..]);
      }
    }
  }

  /** Filtering before sorting is filtering after sorting. */
  lemma {:induction false} FilterOfSort<T(!new)>(le: Order<T>, p: T -> bool, s: seq<T>)
    requires IsTotalPreorder(le)
    ensures Sort(le, Filter(p, s)) == Filter(p, Sort(le, s))
  {
    if s != [] {
      FilterOfSort(le, p, s[1..]);
      SortSorts(le, s[1..]);
      FilterOfInsert(le, p, s[0], Sort(le, s[1..]));
      if p(s[0]) {
        assert ([s[0]] + Filter(p, s[1..]))[1..] == Filter(p, s[1..]);
      }
    }
  }

  lemma SortedHeadIsLeast<T(!new)>(le: Order<T>, s: seq<T>, x: T)
    requires IsTotalPreorder(le) && Sorted(le, s) && x in s
    ensures le(s[0], x)
  {
    var i :| 0 <= i < |s| && s[i] == x;
  }

  lemma SortKeepsLength<T>(le: Order<T>, s: seq<T>)
    ensures |Sort(le, s)| == |s|
  {
    SortPermutes(le, s);
    assert |multiset(Sort(le, s))| == |multiset(s)|;
  }

  // ----- stability -------------------------------------------------------------------------

  /** The elements that come neither before nor after `a`. */
  function TiesWith<T>(le: Order<T>, a: T): T -> bool {
    x => le(a, x) && le(x, a)
  }

  lemma {:induction false} SortOfTied<T>(le: Order<T>, s: seq<T>)
    requires forall i, j :: 0 <= i < |s| && 0 <= j < |s| ==> le(s[i], s[j])
    ensures Sort(le, s) == s
  {
    if s != [] {
      SortOfTied(le, s[1..]);
      assert s == [s[0]] + s[1..];
    }
  }

  /** Sorting leaves tied elements in the order they had. */
  lemma SortIsStable<T(!new)>(le: Order<T>, tied: T -> bool, s: seq<T>)
    requires IsTotalPreorder(le) && forall x, y :: tied(x) && tied(y) ==> le(x, y)
    ensures Filter(tied, Sort(le, s)) == Filter(tied, s)
  {
    FilterOfSort(le, tied, s);
    var kept := Filter(tied, s);
    forall i | 0 <= i < |kept|
      ensures tied(kept[i])
    {
      FilterMembers(tied, s, kept[i]);
    }
    SortOfTied(le, kept);
  }

  /** A sorted arrangement is determined by the order of tied elements. */
  lemma {:induction false} StableIsUnique<T(!new)>(le: Order<T>, s: seq<T>, t: seq<T>)
    requires IsTotalPreorder(le) && Sorted(le, s) && Sorted(le, t)
    requires forall a :: Filter(TiesWith(le, a), s) == Filter(TiesWith(le, a), t)
    ensures s == t
    decreases |s|
  {
    if s == [] {
      if t != [] {
        FilterMembers(TiesWith(le, t[0]), t, t[0]);
      }
    } else {
      var tied := TiesWith(le, s[0]);
      assert Filter(tied, s)[0] == s[0];
      FilterMembers(tied, t, s[0]);
      HeadsAgree(le, s, t);
      forall a
        ensures Filter(TiesWith(le, a), s[1..]) == Filter(TiesWith(le, a), t[1..])
      {
        var p := TiesWith(le, a);
        assert Filter(p, s) == if p(s[0]) then [s[0]] + Filter(p, s[1..]) else Filter(p, s[1..]);
        assert Filter(p, t) == if p(t[0]) then [t[0]] + Filter(p, t[1..]) else Filter(p, t[1..]);
        assert p(s[0]) ==> Filter(p, s)[1..] == Filter(p, s[1..]) && Filter(p, t)[1..] == Filter(p, t[1..]);
      }
      StableIsUnique(le, s[1..], t[1..]);
    }
  }

  lemma HeadsAgree<T(!new)>(le: Order<T>, s: seq<T>, t: seq<T>)
    requires IsTotalPreorder(le) && Sorted(le, s) && Sorted(le, t) && s != [] && s[0] in t
    requires forall a :: Filter(TiesWith(le, a), s) == Filter(TiesWith(le, a), t)
    ensures t != [] && s[0] == t[0]
  {
    assert Filter(TiesWith(le, t[0]), t)[0] == t[0];
    FilterMembers(TiesWith(le, t[0]), s, t[0]);
    SortedHeadIsLeast(le, t, s[0]);
    SortedHeadIsLeast(le, s, t[0]);
    assert Filter(TiesWith(le, s[0]), s)[0] == s[0] && Filter(TiesWith(le, s[0]), t)[0] == t[0];
  }

  /** Sorting by one order first does not matter when both orders tie the same elements. */
  lemma SortOfSort<T(!new)>(le: Order<T>, before: Order<T>, s: seq<T>)
    requires IsTotalPreorder(le) && IsTotalPreorder(before)
    requires forall x, y :: le(x, y) && le(y, x) <==> before(x, y) && before(y, x)
    ensures Sort(le, Sort(before, s)) == Sort(le, s)
  {
    SortSorts(le, s);
    SortSorts(le, Sort(before, s));
    forall a
      ensures Filter(TiesWith(le, a), Sort(le, Sort(before, s))) == Filter(TiesWith(le, a), Sort(le, s))
    {
      SortIsStable(le, TiesWith(le, a), s);
      SortIsStable(le, TiesWith(le, a), Sort(before, s));
      SortIsStable(before, TiesWith(le, a), s);
    }
    StableIsUnique(le, Sort(le, Sort(before, s)), Sort(le, s));
  }

  // ----- deduplication ---------------------------------------------------------------------

  ghost predicate Distinct<T>(s: seq<T>) {
    forall i, j :: 0 <= i < j < |s| ==> s[i] != s[j]
  }

  /** First occurrences only, in order. */
  function Dedup<T(==)>(s: seq<T>): seq<T> {
    if s == [] then []
    else
      var rest, last := s[..|s| - 1], s[|s| - 1];
      if last in rest then Dedup(rest) else Dedup(rest) + [last]
  }

  lemma {:induction false} DedupMembers<T>(s: seq<T>)
    ensures forall x :: x in Dedup(s) <==> x in s
    ensures Distinct(Dedup(s))
  {
    if s != [] {
      DedupMembers(s[..|s| - 1]);
    }
  }

  lemma DistinctOfSnoc<T>(s: seq<T>, x: T)
    ensures Distinct(s + [x]) <==> Distinct(s) && x !in s
  {
    var longer := s + [x];
    assert longer[|s|] == x && forall i :: 0 <= i < |s| ==> longer[i] == s[i];
  }

  lemma {:induction false} DedupIffDistinct<T>(s: seq<T>)
    ensures |Dedup(s)| <= |s|
    ensures |Dedup(s)| == |s| <==> Distinct(s)
    ensures Distinct(s) ==> Dedup(s) == s
  {
    if s != [] {
      var rest, last := s[..|s| - 1], s[|s| - 1];
      DedupIffDistinct(rest);
      DistinctOfSnoc(rest, last);
      assert s == rest + [last];
    }
  }

  lemma {:induction false} FilterOfSnoc<T>(p: T -> bool, s: seq<T>, x: T)
    ensures Filter(p, s + [x]) == if p(x) then Filter(p, s) + [x] else Filter(p, s)
  {
    if s == [] {
      assert [] + [x] == [x] && [x][1..] == [];
    } else {
      assert (s + [x])[1..] == s[1..] + [x];
      FilterOfSnoc(p, s[1..], x);
    }
  }

  lemma {:induction false} FilterOfDedup<T>(p: T -> bool, s: seq<T>)
    ensures Filter(p, Dedup(s)) == Dedup(Filter(p, s))
  {
    if s != [] {
      var rest, last := s[..|s| - 1], s[|s| - 1];
      assert s == rest + [last];
      FilterOfDedup(p, rest);
      FilterOfSnoc(p, rest, last);
      FilterOfSnoc(p, Dedup(rest), last);
      FilterMembers(p, rest, last);
      if p(last) {
        assert (Filter(p, rest) + [last])[..|Filter(p, rest)|] == Filter(p, rest);
      }
    }
  }

  lemma {:induction false} DistinctIffOnce<T>(s: seq<T>)
    ensures Distinct(s) <==> forall x :: multiset(s)[x] <= 1
  {
    if s != [] {
      var rest, last := s[..|s| - 1], s[|s| - 1];
      DistinctIffOnce(rest);
      DistinctOfSnoc(rest, last);
      assert s == rest + [last];
      assert multiset(s) == multiset(rest) + multiset{last};
      assert last in rest <==> last in multiset(rest);
      assert multiset(s)[last] == multiset(rest)[last] + 1;
      assert forall x :: multiset(rest)[x] <= multiset(s)[x];
    }
  }

  lemma SortKeepsDistinct<T>(le: Order<T>, s: seq<T>)
    requires Distinct(s)
    ensures Distinct(Sort(le, s)) && forall x :: x in Sort(le, s) <==> x in s
  {
    SortPermutes(le, s);
    DistinctIffOnce(s);
    DistinctIffOnce(Sort(le, s));
    assert forall x :: x in s <==> x in multiset(s);
    assert forall x :: x in Sort(le, s) <==> x in multiset(Sort(le, s));
  }

  // ----- lexicographic order ---------------------------------------------------------------

  ghost predicate IsTotalOrder<T(!new)>(le: Order<T>) {
    IsTotalPreorder(le) && forall a, b :: le(a, b) && le(b, a) ==> a == b
  }

  predicate LexLe<T(==)>(le: Order<T>, s: seq<T>, t: seq<T>) {
    s == [] || (t != [] && if s[0] == t[0] then LexLe(le, s[1..], t[1..]) else le(s[0], t[0]))
  }

  lemma {:induction false} LexIsTotal<T(!new)>(le: Order<T>, s: seq<T>, t: seq<T>)
    requires IsTotalOrder(le)
    ensures LexLe(le, s, t) || LexLe(le, t, s)
    ensures LexLe(le, s, t) && LexLe(le, t, s) ==> s == t
  {
    if s != [] && t != [] && s[0] == t[0] {
      LexIsTotal(le, s[1..], t[1..]);
      assert s == [s[0]] + s[1..] && t == [t[0]] + t[1..];
    }
  }

  lemma {:induction false} LexIsTransitive<T(!new)>(le: Order<T>, s: seq<T>, t: seq<T>, u: seq<T>)
    requires IsTotalOrder(le) && LexLe(le, s, t) && LexLe(le, t, u)
    ensures LexLe(le, s, u)
  {
    if s != [] && s[0] == t[0] && t[0] == u[0] {
      LexIsTransitive(le, s[1..], t[1..], u[1..]);
    }
  }

  lemma {:induction false} PrefixIsLexLe<T(!new)>(le: Order<T>, s: seq<T>, t: seq<T>)
    requires s <= t
    ensures LexLe(le, s, t)
  {
    if s != [] {
      assert s[0] == t[0] && s[1..] <= t[1..];
      PrefixIsLexLe(le, s[1..], t[1..]);
    }
  }

  lemma LexIsTotalOrder<T(!new)>(le: Order<T>, lex: Order<seq<T>>)
    requires IsTotalOrder(le)
    requires forall s, t :: lex(s, t) <==> LexLe(le, s, t)
    ensures IsTotalOrder(lex)
  {
    forall s, t
      ensures lex(s, t) || lex(t, s)
      ensures lex(s, t) && lex(t, s) ==> s == t
    {
      LexIsTotal(le, s, t);
    }
    forall s, t, u | lex(s, t) && lex(t, u)
      ensures lex(s, u)
    {
      LexIsTransitive(le, s, t, u);
    }
  }
}
