/** Filtering, collecting and summing lists, and what pins each of them down: how often an element is
    kept, how often a value is collected, and that sums split. */
module Lists {
  import opened Options
  import opened Ordering

  /** The elements with a property, in order. */
  function Where<T>(s: seq<T>, p: T -> bool): seq<T> {
    if s == [] then []
    else Where(s[..|s| - 1], p) + if p(s[|s| - 1]) then [s[|s| - 1]] else []
  }

  /** The values that elements have, leaving out those that have none. */
  function Present<T>(s: seq<T>, f: T -> Option<int>): seq<int> {
    if s == [] then []
    else Present(s[..|s| - 1], f) + if f(s[|s| - 1]).Some? then [f(s[|s| - 1]).value] else []
  }

  function SumOf<T>(s: seq<T>, f: T -> int): int {
    if s == [] then 0 else SumOf(s[..|s| - 1], f) + f(s[|s| - 1])
  }

  lemma WhereSnoc<T>(s: seq<T>, x: T, p: T -> bool)
    ensures Where(s + [x], p) == Where(s, p) + if p(x) then [x] else []
  {
    assert (s + [x])[..|s|] == s;
  }

  lemma SumSnoc<T>(s: seq<T>, x: T, f: T -> int)
    ensures SumOf(s + [x], f) == SumOf(s, f) + f(x)
  {
    assert (s + [x])[..|s|] == s;
  }

  lemma Unsnoc<T>(s: seq<T>)
    requires s != []
    ensures s == s[..|s| - 1] + [s[|s| - 1]]
    ensures multiset(s) == multiset(s[..|s| - 1]) + multiset{s[|s| - 1]}
  {
    assert s == s[..|s| - 1] + [s[|s| - 1]];
  }

  /** An element with the property is kept as often as it occurs, and no other is. */
  lemma {:induction false} WhereKeeps<T>(s: seq<T>, p: T -> bool, x: T)
    ensures multiset(Where(s, p))[x] == if p(x) then multiset(s)[x] else 0
  {
    if s != [] {
      WhereKeeps(s[..|s| - 1], p, x);
      Unsnoc(s);
    }
  }

  lemma {:induction false} WhereMember<T>(s: seq<T>, p: T -> bool, x: T)
    ensures x in Where(s, p) <==> x in s && p(x)
  {
    if s != [] {
      WhereMember(s[..|s| - 1], p, x);
      Unsnoc(s);
    }
  }

  lemma {:induction false} WhereTwice<T>(s: seq<T>, p: T -> bool, q: T -> bool, both: T -> bool)
    requires forall x | x in s :: both(x) <==> p(x) && q(x)
    ensures Where(Where(s, p), q) == Where(s, both)
  {
    if s != [] {
      var before, x := s[..|s| - 1], s[|s| - 1];
      Unsnoc(s);
      assert x in s && forall y | y in before :: y in s;
      WhereTwice(before, p, q, both);
      WhereSnoc(Where(before, p), x, q);
      assert Where(s, p) == Where(before, p) + if p(x) then [x] else [];
      assert Where(before, p) + [] == Where(before, p);
    }
  }

  lemma {:induction false} WhereConcat<T>(a: seq<T>, b: seq<T>, p: T -> bool)
    ensures Where(a + b, p) == Where(a, p) + Where(b, p)
  {
    if b == [] {
      assert a + b == a;
    } else {
      var before, x := b[..|b| - 1], b[|b| - 1];
      WhereConcat(a, before, p);
      assert a + b == (a + before) + [x];
      WhereSnoc(a + before, x, p);
    }
  }

  lemma {:induction false} CountIsSize<T>(s: seq<T>, p: T -> bool)
    ensures CountWhere(s, p) == |Where(s, p)|
  {
    if s != [] {
      CountIsSize(s[1..], p);
      assert s == [s[0]] + s[1..];
      WhereConcat([s[0]], s[1..], p);
      assert [s[0]][..0] == [];
    }
  }

  lemma {:induction false} PresentMember<T>(s: seq<T>, f: T -> Option<int>, v: int)
    ensures v in Present(s, f) <==> exists x :: x in s && f(x) == Some(v)
  {
    if s != [] {
      PresentMember(s[..|s| - 1], f, v);
      Unsnoc(s);
    }
  }

  /** A value is collected as often as elements have it. */
  lemma {:induction false} PresentCounts<T>(s: seq<T>, f: T -> Option<int>, v: int, has: T -> bool)
    requires forall x | x in s :: has(x) <==> f(x) == Some(v)
    ensures multiset(Present(s, f))[v] == |Where(s, has)|
  {
    if s != [] {
      PresentCounts(s[..|s| - 1], f, v, has);
    }
  }

  lemma SumOne<T>(x: T, f: T -> int)
    ensures SumOf([x], f) == f(x)
  {
    assert [x][..0] == [];
  }

  lemma {:induction false} SumConcat<T>(a: seq<T>, b: seq<T>, f: T -> int)
    ensures SumOf(a + b, f) == SumOf(a, f) + SumOf(b, f)
  {
    if b == [] {
      assert a + b == a;
    } else {
      var before, x := b[..|b| - 1], b[|b| - 1];
      SumConcat(a, before, f);
      assert a + b == (a + before) + [x];
      SumSnoc(a + before, x, f);
    }
  }
}
