/** Choosing some positions of a list, removing an element, and lists without repetition. */
module Selections {
  import opened Ordering

  function SetOf<T>(s: seq<T>): set<T> {
    set x | x in s
  }

  ghost predicate NoDup<T>(s: seq<T>) {
    forall i, j | 0 <= i < j < |s| :: s[i] != s[j]
  }

  /** How many positions a selection takes. */
  function Picked(mask: seq<bool>): nat {
    if mask == [] then 0 else (if mask[0] then 1 else 0) + Picked(mask[1..])
  }

  /** The elements at the selected positions, and those at the others, in list order. */
  function Select<T>(s: seq<T>, mask: seq<bool>): seq<T>
    requires |s| == |mask|
  {
    if s == [] then []
    else if mask[0] then [s[0]] + Select(s[1..], mask[1..])
    else Select(s[1..], mask[1..])
  }

  function Reject<T>(s: seq<T>, mask: seq<bool>): seq<T>
    requires |s| == |mask|
  {
    if s == [] then []
    else if mask[0] then Reject(s[1..], mask[1..])
    else [s[0]] + Reject(s[1..], mask[1..])
  }

  /** Python's list.remove: drops the first occurrence, if there is one. */
  function Remove<T(==)>(s: seq<T>, x: T): seq<T> {
    if s == [] then [] else if s[0] == x then s[1..] else [s[0]] + Remove(s[1..], x)
  }

  lemma {:induction false} SelectionLengths<T>(s: seq<T>, mask: seq<bool>)
    requires |s| == |mask|
    ensures |Select(s, mask)| == Picked(mask)
    ensures |Reject(s, mask)| == |s| - Picked(mask)
  {
    if s != [] {
      SelectionLengths(s[1..], mask[1..]);
    }
  }

  lemma {:induction false} RejectConcat<T>(a: seq<T>, m: seq<bool>, b: seq<T>, n: seq<bool>)
    requires |a| == |m| && |b| == |n|
    ensures Reject(a + b, m + n) == Reject(a, m) + Reject(b, n)
  {
    if a == [] {
      assert a + b == b && m + n == n;
    } else {
      var s, mask := a + b, m + n;
      RejectConcat(a[1..], m[1..], b, n);
      assert s[1..] == a[1..] + b && mask[1..] == m[1..] + n;
      var x, y := Reject(a[1..], m[1..]), Reject(b, n);
      assert [a[0]] + (x + y) == ([a[0]] + x) + y;
    }
  }

  lemma {:induction false} SelectConcat<T>(a: seq<T>, m: seq<bool>, b: seq<T>, n: seq<bool>)
    requires |a| == |m| && |b| == |n|
    ensures Select(a + b, m + n) == Select(a, m) + Select(b, n)
  {
    if a == [] {
      assert a + b == b && m + n == n;
    } else {
      var s, mask := a + b, m + n;
      SelectConcat(a[1..], m[1..], b, n);
      assert s[1..] == a[1..] + b && mask[1..] == m[1..] + n;
      var x, y := Select(a[1..], m[1..]), Select(b, n);
      assert [a[0]] + (x + y) == ([a[0]] + x) + y;
    }
  }

  lemma {:induction false} PickedConcat(m: seq<bool>, n: seq<bool>)
    ensures Picked(m + n) == Picked(m) + Picked(n)
  {
    if m == [] {
      assert m + n == n;
    } else {
      PickedConcat(m[1..], n);
      assert (m + n)[1..] == m[1..] + n;
    }
  }

  lemma {:induction false} SelectMember<T>(s: seq<T>, mask: seq<bool>, x: T)
    requires |s| == |mask|
    ensures x in Select(s, mask) <==> exists i :: 0 <= i < |s| && mask[i] && s[i] == x
    ensures x in Reject(s, mask) <==> exists i :: 0 <= i < |s| && !mask[i] && s[i] == x
  {
    if s != [] {
      SelectMember(s[1..], mask[1..], x);
      assert forall i :: 1 <= i < |s| ==> s[i] == s[1..][i - 1] && mask[i] == mask[1..][i - 1];
      if i :| 0 <= i < |s| && mask[i] && s[i] == x {
        if i > 0 {
          assert mask[1..][i - 1] && s[1..][i - 1] == x;
        }
      }
      if i :| 0 <= i < |s| && !mask[i] && s[i] == x {
        if i > 0 {
          assert !mask[1..][i - 1] && s[1..][i - 1] == x;
        }
      }
    }
  }

  lemma SortedCons<T(!new)>(x: T, s: seq<T>, le: (T, T) -> bool)
    requires SortedBy(s, le)
    requires forall y | y in s :: le(x, y)
    ensures SortedBy([x] + s, le)
  {
  }

  lemma NoDupCons<T>(x: T, s: seq<T>)
    requires NoDup(s) && x !in s
    ensures NoDup([x] + s)
  {
  }

  lemma SetOfCons<T>(s: seq<T>)
    requires s != []
    ensures SetOf(s) == {s[0]} + SetOf(s[1..])
    ensures NoDup(s) ==> s[0] !in s[1..] && NoDup(s[1..])
  {
    assert s == [s[0]] + s[1..];
  }

  lemma {:induction false} SelectUnion<T>(s: seq<T>, mask: seq<bool>)
    requires |s| == |mask|
    ensures SetOf(s) == SetOf(Select(s, mask)) + SetOf(Reject(s, mask))
  {
    if s != [] {
      SelectUnion(s[1..], mask[1..]);
      SetOfCons(s);
      if mask[0] {
        SetOfCons(Select(s, mask));
      } else {
        SetOfCons(Reject(s, mask));
      }
    }
  }

  /** On a list without repetition a selection splits the elements in two. */
  lemma {:induction false} SelectPartition<T>(s: seq<T>, mask: seq<bool>)
    requires |s| == |mask| && NoDup(s)
    ensures SetOf(s) == SetOf(Select(s, mask)) + SetOf(Reject(s, mask))
    ensures SetOf(Select(s, mask)) !! SetOf(Reject(s, mask))
  {
    SelectUnion(s, mask);
    if s != [] {
      SetOfCons(s);
      SelectPartition(s[1..], mask[1..]);
      assert s[0] !in SetOf(s[1..]);
      if mask[0] {
        SetOfCons(Select(s, mask));
      } else {
        SetOfCons(Reject(s, mask));
      }
    }
  }

  lemma {:induction false} RejectKeepsOrder<T(!new)>(s: seq<T>, mask: seq<bool>, le: (T, T) -> bool)
    requires |s| == |mask| && NoDup(s)
    ensures NoDup(Reject(s, mask)) && NoDup(Select(s, mask))
    ensures SortedBy(s, le) ==> SortedBy(Reject(s, mask), le)
  {
    if s != [] {
      SetOfCons(s);
      SelectUnion(s[1..], mask[1..]);
      RejectKeepsOrder(s[1..], mask[1..], le);
      var kept, taken := Reject(s[1..], mask[1..]), Select(s[1..], mask[1..]);
      assert forall y | y in kept :: y in SetOf(s[1..]);
      assert forall y | y in taken :: y in SetOf(s[1..]);
      if mask[0] {
        NoDupCons(s[0], taken);
      } else {
        NoDupCons(s[0], kept);
        if SortedBy(s, le) {
          forall y | y in kept ensures le(s[0], y) {
            assert y in s[1..];
          }
          SortedCons(s[0], kept, le);
        }
      }
      if SortedBy(s, le) {
        assert SortedBy(s[1..], le);
      }
    }
  }

  lemma {:induction false} RemoveMember<T(!new)>(s: seq<T>, x: T)
    requires NoDup(s)
    ensures SetOf(Remove(s, x)) == SetOf(s) - {x}
    ensures |Remove(s, x)| == |s| - (if x in s then 1 else 0)
  {
    if s != [] {
      SetOfCons(s);
      if s[0] == x {
        assert x !in SetOf(s[1..]);
      } else {
        RemoveMember(s[1..], x);
        SetOfCons(Remove(s, x));
      }
    }
  }

  lemma {:induction false} RemoveKeepsOrder<T(!new)>(s: seq<T>, x: T, le: (T, T) -> bool)
    requires NoDup(s)
    ensures NoDup(Remove(s, x))
    ensures SortedBy(s, le) ==> SortedBy(Remove(s, x), le)
  {
    if s != [] {
      SetOfCons(s);
      assert SortedBy(s, le) ==> SortedBy(s[1..], le);
      if s[0] != x {
        RemoveKeepsOrder(s[1..], x, le);
        RemoveMember(s[1..], x);
        var r := Remove(s[1..], x);
        forall y | y in r ensures y in s[1..] {
          assert y in SetOf(r);
        }
        NoDupCons(s[0], r);
        if SortedBy(s, le) {
          SortedCons(s[0], r, le);
        }
      }
    }
  }

  lemma {:induction false} RemoveAt<T>(a: seq<T>, x: T, b: seq<T>)
    requires x !in a
    ensures Remove(a + [x] + b, x) == a + b
  {
    if a == [] {
      assert a + [x] + b == [x] + b;
    } else {
      RemoveAt(a[1..], x, b);
      assert (a + [x] + b)[1..] == a[1..] + [x] + b;
    }
  }

  lemma NoDupPermutation<T>(s: seq<T>, t: seq<T>)
    requires multiset(s) == multiset(t) && NoDup(s)
    ensures NoDup(t) && SetOf(s) == SetOf(t) && |s| == |t|
  {
    assert |multiset(s)| == |multiset(t)|;
    forall x ensures x in s <==> x in t {
      assert x in s <==> x in multiset(s);
      assert x in t <==> x in multiset(t);
    }
    forall i, j | 0 <= i < j < |t| ensures t[i] != t[j] {
      if t[i] == t[j] {
        assert t == t[..i] + [t[i]] + t[i + 1..j] + [t[j]] + t[j + 1..];
        assert multiset(t)[t[i]] >= 2;
        NoDupMultiplicity(s, t[i]);
      }
    }
  }

  lemma {:induction false} NoDupMultiplicity<T>(s: seq<T>, x: T)
    requires NoDup(s)
    ensures multiset(s)[x] <= 1
  {
    if s != [] {
      assert s == [s[0]] + s[1..];
      NoDupMultiplicity(s[1..], x);
      assert x in multiset(s[1..]) <==> x in s[1..];
    }
  }

  lemma {:induction false} NoDupCardinality<T>(s: seq<T>)
    requires NoDup(s)
    ensures |SetOf(s)| == |s|
  {
    if s != [] {
      NoDupCardinality(s[1..]);
      assert s == [s[0]] + s[1..];
      assert SetOf(s) == {s[0]} + SetOf(s[1..]);
    } else {
      assert SetOf(s) == {};
    }
  }

  lemma SelectOnly<T>(x: T)
    ensures Select([x], [true]) == [x] && Reject([x], [true]) == []
  {
    assert [x][1..] == [] && [true][1..] == [];
    assert Select<T>([], []) == [] && Reject<T>([], []) == [];
  }

  lemma {:induction false} RejectNone<T>(s: seq<T>, mask: seq<bool>)
    requires |s| == |mask| && forall i :: 0 <= i < |mask| ==> !mask[i]
    ensures Reject(s, mask) == s && Select(s, mask) == []
  {
    if s != [] {
      RejectNone(s[1..], mask[1..]);
    }
  }

  lemma SubsetSize<T>(a: set<T>, b: set<T>)
    requires a <= b
    ensures |a| <= |b|
  {
    assert b == a + (b - a);
  }
}
