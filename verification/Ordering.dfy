/** Stable sorting by a total preorder, and the order statistics of a sorted list. Python's
    built-in sort is modelled by an insertion sort: both are stable, so they give the same list,
    and the theorems about code that sorts use no more than that. */
module Ordering {

  ghost predicate TotalPreorder<T(!new)>(le: (T, T) -> bool) {
    && (forall a, b :: le(a, b) || le(b, a))
    && (forall a, b, c :: le(a, b) && le(b, c) ==> le(a, c))
  }

  ghost predicate SortedBy<T(!new)>(s: seq<T>, le: (T, T) -> bool) {
    forall i, j | 0 <= i < j < |s| :: le(s[i], s[j])
  }

  function Insert<T>(x: T, s: seq<T>, le: (T, T) -> bool): seq<T> {
    if s == [] || le(x, s[0]) then [x] + s else [s[0]] + Insert(x, s[1..], le)
  }

  function Sort<T>(s: seq<T>, le: (T, T) -> bool): seq<T> {
    if s == [] then [] else Insert(s[0], Sort(s[1..], le), le)
  }

  lemma {:induction false} InsertPermutes<T>(x: T, s: seq<T>, le: (T, T) -> bool)
    ensures multiset(Insert(x, s, le)) == multiset{x} + multiset(s)
  {
    if s == [] || le(x, s[0]) {
    } else {
      InsertPermutes(x, s[1..], le);
      assert s == [s[0]] + s[1..];
    }
  }

  lemma {:induction false} SortPermutes<T>(s: seq<T>, le: (T, T) -> bool)
    ensures multiset(Sort(s, le)) == multiset(s)
    ensures |Sort(s, le)| == |s|
  {
    if s == [] {
    } else {
      SortPermutes(s[1..], le);
      InsertPermutes(s[0], Sort(s[1..], le), le);
      assert s == [s[0]] + s[1..];
    }
    assert |multiset(Sort(s, le))| == |multiset(s)|;
  }

  lemma {:induction false} InsertSorts<T(!new)>(x: T, s: seq<T>, le: (T, T) -> bool)
    requires TotalPreorder(le) && SortedBy(s, le)
    ensures SortedBy(Insert(x, s, le), le)
  {
    if s == [] || le(x, s[0]) {
    } else {
      InsertSorts(x, s[1..], le);
      InsertPermutes(x, s[1..], le);
      var rest := Insert(x, s[1..], le);
      forall y | y in rest ensures le(s[0], y) {
        assert y in multiset(rest);
        assert y == x || y in s[1..];
      }
    }
  }

  lemma {:induction false} SortSorts<T(!new)>(s: seq<T>, le: (T, T) -> bool)
    requires TotalPreorder(le)
    ensures SortedBy(Sort(s, le), le)
    ensures multiset(Sort(s, le)) == multiset(s)
    ensures |Sort(s, le)| == |s|
  {
    SortPermutes(s, le);
    if s == [] {
    } else {
      SortSorts(s[1..], le);
      InsertSorts(s[0], Sort(s[1..], le), le);
    }
  }

  /** Sorting a list that is already in order changes nothing. */
  lemma {:induction false} SortIdempotent<T(!new)>(s: seq<T>, le: (T, T) -> bool)
    requires SortedBy(s, le)
    ensures Sort(s, le) == s
  {
    if s == [] {
    } else {
      SortIdempotent(s[1..], le);
      assert s == [s[0]] + s[1..];
      if |s| > 1 {
        assert le(s[0], s[1]);
      }
    }
  }

  function CountWhere<T>(s: seq<T>, p: T -> bool): nat {
    if s == [] then 0 else (if p(s[0]) then 1 else 0) + CountWhere(s[1..], p)
  }

  lemma {:induction false} CountWhereInsert<T(!new)>(x: T, s: seq<T>, le: (T, T) -> bool, p: T -> bool)
    ensures CountWhere(Insert(x, s, le), p) == (if p(x) then 1 else 0) + CountWhere(s, p)
  {
    if s == [] || le(x, s[0]) {
      assert ([x] + s)[1..] == s;
    } else {
      CountWhereInsert(x, s[1..], le, p);
      assert ([s[0]] + Insert(x, s[1..], le))[1..] == Insert(x, s[1..], le);
    }
  }

  lemma {:induction false} CountWhereSort<T(!new)>(s: seq<T>, le: (T, T) -> bool, p: T -> bool)
    ensures CountWhere(Sort(s, le), p) == CountWhere(s, p)
  {
    if s != [] {
      CountWhereSort(s[1..], le, p);
      CountWhereInsert(s[0], Sort(s[1..], le), le, p);
    }
  }

  lemma {:induction false} CountWhereSorted<T(!new)>(s: seq<T>, le: (T, T) -> bool, p: T -> bool, k: nat)
    requires SortedBy(s, le) && k < |s|
    requires forall a, b :: le(a, b) && p(b) ==> p(a)
    ensures p(s[k]) <==> CountWhere(s, p) > k
  {
    if k > 0 {
      assert SortedBy(s[1..], le);
      CountWhereSorted(s[1..], le, p, k - 1);
      assert le(s[0], s[k]);
      if !p(s[0]) {
        CountWhereSorted(s[1..], le, p, 0);
        assert le(s[0], s[1]);
      }
    } else if !p(s[0]) && |s| > 1 {
      assert SortedBy(s[1..], le);
      CountWhereSorted(s[1..], le, p, 0);
      assert le(s[0], s[1]);
    }
  }

  /** The k-th order statistic satisfies a downward-closed predicate exactly when more than
      k of the values do. */
  lemma OrderStatistic<T(!new)>(s: seq<T>, le: (T, T) -> bool, p: T -> bool, k: nat)
    requires TotalPreorder(le) && k < |s|
    requires forall a, b :: le(a, b) && p(b) ==> p(a)
    ensures |Sort(s, le)| == |s|
    ensures p(Sort(s, le)[k]) <==> CountWhere(s, p) > k
  {
    SortSorts(s, le);
    CountWhereSort(s, le, p);
    CountWhereSorted(Sort(s, le), le, p, k);
  }

  lemma SortMembers<T(!new)>(s: seq<T>, le: (T, T) -> bool, x: T)
    requires TotalPreorder(le)
    ensures x in Sort(s, le) <==> x in s
  {
    SortSorts(s, le);
    assert x in Sort(s, le) <==> x in multiset(Sort(s, le));
    assert x in s <==> x in multiset(s);
  }
}
