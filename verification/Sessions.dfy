/** Counting sessions: runs of requests with no gap above five minutes. Times are microseconds. */
module Sessions {
  import opened Ordering
  import opened Selections

  const IDLE_GAP := 300_000_000

  predicate IntLe(a: int, b: int) { a <= b }

  function Times(ts: seq<int>): set<int> { set t | t in ts }

  /** Does a time have no earlier one within the idle gap? */
  predicate IsStart(s: set<int>, t: int) {
    t in s && forall e | e in s :: !(t - IDLE_GAP <= e < t)
  }

  /** The specification: where the sessions start. */
  function Starts(s: set<int>): set<int> {
    set t | t in s && IsStart(s, t)
  }

  lemma StartsAfterLater(s: set<int>, prev: int, t: int)
    requires prev in s && prev <= t && forall e | e in s :: e <= prev
    ensures Starts(s + {t}) == if t - prev > IDLE_GAP then Starts(s) + {t} else Starts(s)
  {
    forall u ensures u in Starts(s + {t}) <==> u in (if t - prev > IDLE_GAP then Starts(s) + {t} else Starts(s)) {
      if u in s {
        assert IsStart(s + {t}, u) <==> IsStart(s, u);
      } else if u == t {
        assert IsStart(s + {t}, t) <==> t - prev > IDLE_GAP;
      }
    }
  }

  lemma SortTimes(ts: seq<int>)
    ensures Times(Sort(ts, IntLe)) == Times(ts)
  {
    forall t ensures t in Sort(ts, IntLe) <==> t in ts {
      SortMembers(ts, IntLe, t);
    }
  }

  lemma OneSession(t: int)
    ensures Starts(Times([t])) == {t}
  {
    assert Times([t]) == {t};
    assert IsStart({t}, t);
  }

  /** One more time of a sorted list is a new start just when it is a gap after its predecessor. */
  lemma NextInOrder(ordered: seq<int>, i: nat)
    requires SortedBy(ordered, IntLe) && 1 <= i < |ordered|
    ensures |Starts(Times(ordered[..i + 1]))|
         == |Starts(Times(ordered[..i]))| + (if ordered[i] - ordered[i - 1] > IDLE_GAP then 1 else 0)
  {
    var s, prev, cur := Times(ordered[..i]), ordered[i - 1], ordered[i];
    assert ordered[..i][i - 1] == prev;
    assert Times(ordered[..i + 1]) == s + {cur} by {
      assert ordered[..i + 1] == ordered[..i] + [cur];
    }
    forall e | e in s ensures e <= prev {
      var k :| 0 <= k < i && ordered[..i][k] == e;
      assert k < i - 1 ==> IntLe(ordered[k], prev);
    }
    assert IntLe(prev, cur);
    StartsAfterLater(s, prev, cur);
  }

  /** The loop over neighbours of the sorted list counts the starts, whatever order or
      repetitions the times came in. */
  method CountSessions(receivedAts: seq<int>) returns (sessions: nat)
    ensures sessions == |Starts(Times(receivedAts))|
  {
    if receivedAts == [] {
      return 0;
    }
    var ordered := Sort(receivedAts, IntLe);
    SortSorts(receivedAts, IntLe);
    SortTimes(receivedAts);
    SortPermutes(receivedAts, IntLe);
    sessions := 1;
    assert ordered[..1] == [ordered[0]];
    OneSession(ordered[0]);
    for i := 1 to |ordered|
      invariant sessions == |Starts(Times(ordered[..i]))|
    {
      NextInOrder(ordered, i);
      if ordered[i] - ordered[i - 1] > IDLE_GAP {
        sessions := sessions + 1;
      }
    }
    assert ordered[..|ordered|] == ordered;
  }

  /** Requests exactly five minutes apart are one session, a microsecond more makes two. */
  lemma FiveMinutes(t: int)
    ensures Starts({t, t + 300_000_000}) == {t}
    ensures Starts({t, t + 300_000_001}) == {t, t + 300_000_001}
  {
    var near, far := {t, t + 300_000_000}, {t, t + 300_000_001};
    assert IsStart(near, t) && !IsStart(near, t + 300_000_000);
    assert IsStart(far, t) && IsStart(far, t + 300_000_001);
  }

  /** Counting two lists together never gives more sessions than counting them apart. */
  lemma SessionsSubadditive(a: set<int>, b: set<int>)
    ensures |Starts(a + b)| <= |Starts(a)| + |Starts(b)|
  {
    forall t | t in Starts(a + b) ensures t in Starts(a) + Starts(b) {
      assert IsStart(a + b, t);
    }
    SubsetSize(Starts(a + b), Starts(a) + Starts(b));
    var both := Starts(a) * Starts(b);
    assert |Starts(a) + Starts(b)| <= |Starts(a)| + |Starts(b)|;
  }

  /** The starts that one more time can take away: it gives the nearest later one a
      predecessor, and no other. */
  lemma AtMostOneLost(s: set<int>, x: int)
    ensures |Starts(s) - Starts(s + {x})| <= 1
  {
    var lost := Starts(s) - Starts(s + {x});
    forall t, u | t in lost && u in lost ensures t == u {
      assert IsStart(s, t) && IsStart(s, u);
      assert !IsStart(s + {x}, t) && !IsStart(s + {x}, u);
      assert t - IDLE_GAP <= x < t && u - IDLE_GAP <= x < u;
    }
    if t :| t in lost {
      assert lost == {t};
    }
  }

  /** One more request changes the number of sessions by at most one, either way. */
  lemma OneMoreTime(s: set<int>, x: int)
    ensures -1 <= |Starts(s + {x})| - |Starts(s)| <= 1
  {
    forall t | t in Starts(s + {x}) ensures t in Starts(s) + {x} {
      assert IsStart(s + {x}, t);
    }
    SubsetSize(Starts(s + {x}), Starts(s) + {x});
    AtMostOneLost(s, x);
    var lost := Starts(s) - Starts(s + {x});
    SubsetSize(Starts(s), Starts(s + {x}) + lost);
  }

  // ---------- sessions are the connected components ----------

  /** A way through the times in steps no longer than the gap. */
  ghost predicate Path(s: set<int>, p: seq<int>, a: int, b: int) {
    && p != [] && p[0] == a && p[|p| - 1] == b
    && (forall i | 0 <= i < |p| :: p[i] in s)
    && (forall i | 0 <= i < |p| - 1 :: p[i + 1] - p[i] <= IDLE_GAP && p[i] - p[i + 1] <= IDLE_GAP)
  }

  lemma PathTail(s: set<int>, p: seq<int>, a: int, b: int)
    requires Path(s, p, a, b) && |p| >= 2
    ensures Path(s, p[1..], p[1], b)
  {
    var q := p[1..];
    forall i | 0 <= i < |q| - 1 ensures q[i + 1] - q[i] <= IDLE_GAP && q[i] - q[i + 1] <= IDLE_GAP {
      assert q[i] == p[i + 1] && q[i + 1] == p[i + 2];
    }
  }

  function Before(s: set<int>, t: int): set<int> {
    set e | e in s && e < t
  }

  /** Every time is reached from a start ... */
  lemma {:induction false} ReachedFromAStart(s: set<int>, t: int) returns (u: int, p: seq<int>)
    requires t in s
    ensures u in Starts(s) && Path(s, p, u, t)
    decreases Before(s, t)
  {
    if IsStart(s, t) {
      return t, [t];
    }
    var e :| e in s && t - IDLE_GAP <= e < t;
    assert e in Before(s, t) && e !in Before(s, e);
    var q;
    u, q := ReachedFromAStart(s, e);
    p := q + [t];
  }

  /** ... and no two starts are connected, so the starts are one from each component. */
  lemma {:induction false} StartsAreApart(s: set<int>, u: int, v: int, p: seq<int>)
    requires v in Starts(s) && u < v
    ensures !Path(s, p, u, v)
    decreases |p|
  {
    if Path(s, p, u, v) {
      assert IsStart(s, v);
      assert |p| >= 2;
      if p[1] < v {
        PathTail(s, p, u, v);
        StartsAreApart(s, p[1], v, p[1..]);
      }
    }
  }
}
