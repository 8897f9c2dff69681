/** The median of a window, and the two facts about it that matter: a strict majority decides
    on which side of a threshold it lies, and raising values never lowers it. */
module WindowMedian {
  import opened Ordering

  predicate RealLe(a: real, b: real) { a <= b }

  function Median(xs: seq<real>): real
    requires xs != []
  {
    SortPermutes(xs, RealLe);
    var s, n := Sort(xs, RealLe), |xs|;
    if n % 2 == 1 then s[n / 2] else (s[n / 2 - 1] + s[n / 2]) / 2.0
  }

  function Below(t: real): real -> bool { x => x < t }

  function UpTo(t: real): real -> bool { x => x <= t }

  function CountBelow(xs: seq<real>, t: real): nat { CountWhere(xs, Below(t)) }

  function CountUpTo(xs: seq<real>, t: real): nat { CountWhere(xs, UpTo(t)) }

  lemma KthBelow(xs: seq<real>, k: nat, t: real)
    requires k < |xs|
    ensures |Sort(xs, RealLe)| == |xs|
    ensures Sort(xs, RealLe)[k] < t <==> CountBelow(xs, t) > k
  {
    OrderStatistic(xs, RealLe, Below(t), k);
  }

  lemma KthUpTo(xs: seq<real>, k: nat, t: real)
    requires k < |xs|
    ensures |Sort(xs, RealLe)| == |xs|
    ensures Sort(xs, RealLe)[k] <= t <==> CountUpTo(xs, t) > k
  {
    OrderStatistic(xs, RealLe, UpTo(t), k);
  }

  /** More than half below a threshold puts the median below it; more than half at or above it
      keeps the median there. Both for odd and for even windows. */
  lemma MajorityDecides(xs: seq<real>, t: real)
    requires xs != []
    ensures 2 * CountBelow(xs, t) > |xs| ==> Median(xs) < t
    ensures 2 * CountBelow(xs, t) < |xs| ==> Median(xs) >= t
  {
    var n := |xs|;
    KthBelow(xs, n / 2, t);
    if n % 2 == 0 {
      KthBelow(xs, n / 2 - 1, t);
    }
  }

  lemma {:induction false} CountBelowAntitone(xs: seq<real>, ys: seq<real>, t: real)
    requires |xs| == |ys| && forall i :: 0 <= i < |xs| ==> xs[i] <= ys[i]
    ensures CountBelow(xs, t) >= CountBelow(ys, t)
  {
    if xs != [] {
      assert xs[0] <= ys[0];
      CountBelowAntitone(xs[1..], ys[1..], t);
    }
  }

  /** Every order statistic of the pointwise larger list is at least as large. */
  lemma KthMonotone(xs: seq<real>, ys: seq<real>, k: nat)
    requires |xs| == |ys| && forall i :: 0 <= i < |xs| ==> xs[i] <= ys[i]
    requires k < |xs|
    ensures |Sort(xs, RealLe)| == |xs| && |Sort(ys, RealLe)| == |ys|
    ensures Sort(xs, RealLe)[k] <= Sort(ys, RealLe)[k]
  {
    SortPermutes(xs, RealLe);
    SortPermutes(ys, RealLe);
    var t := Sort(xs, RealLe)[k];
    KthBelow(xs, k, t);
    KthBelow(ys, k, t);
    CountBelowAntitone(xs, ys, t);
  }

  lemma MedianMonotone(xs: seq<real>, ys: seq<real>)
    requires |xs| == |ys| > 0 && forall i :: 0 <= i < |xs| ==> xs[i] <= ys[i]
    ensures Median(xs) <= Median(ys)
  {
    var n := |xs|;
    KthMonotone(xs, ys, n / 2);
    if n % 2 == 0 {
      KthMonotone(xs, ys, n / 2 - 1);
    }
  }

  // ---------- scaling ----------

  lemma TimesPositive(x: real, y: real)
    requires x > 0.0 && y > 0.0
    ensures x * y > 0.0
  {
  }

  lemma TimesOrder(x: real, y: real, d: real)
    requires d != 0.0
    ensures x < y <==> if d > 0.0 then x * d < y * d else y * d < x * d
  {
    var e := if d > 0.0 then d else -d;
    if x < y {
      TimesPositive(y - x, e);
    } else if y < x {
      TimesPositive(x - y, e);
    }
    assert (y - x) * e == y * e - x * e && (x - y) * e == x * e - y * e;
  }

  /** ys are xs, all multiplied by one factor. */
  ghost predicate Scaled(xs: seq<real>, ys: seq<real>, d: real) {
    |xs| == |ys| && forall i | 0 <= i < |xs| :: ys[i] == xs[i] * d
  }

  lemma {:induction false} CountScaled(xs: seq<real>, ys: seq<real>, d: real, t: real)
    requires Scaled(xs, ys, d) && d != 0.0
    ensures d > 0.0 ==> CountBelow(ys, t * d) == CountBelow(xs, t)
    ensures d < 0.0 ==> CountBelow(ys, t * d) == |xs| - CountUpTo(xs, t)
  {
    if xs != [] {
      assert ys[0] == xs[0] * d;
      TimesOrder(xs[0], t, d);
      TimesOrder(t, xs[0], d);
      CountScaled(xs[1..], ys[1..], d, t);
    }
  }

  lemma Pinned(x: real, y: real, t: real, d: real)
    requires d != 0.0 && t * d == y && y >= x * d && if d > 0.0 then x >= t else x <= t
    ensures y == x * d
  {
    TimesOrder(x, t, d);
    TimesOrder(t, x, d);
  }

  lemma Quotient(y: real, d: real) returns (t: real)
    requires d != 0.0
    ensures t * d == y
  {
    t := y / d;
  }

  /** A positive factor keeps every order statistic in its place, a negative one mirrors them. */
  lemma KthScaled(xs: seq<real>, ys: seq<real>, d: real, k: nat, m: nat) returns (x: real, y: real)
    requires Scaled(xs, ys, d) && d != 0.0 && k < |xs|
    requires m == if d > 0.0 then k else |xs| - 1 - k
    ensures |Sort(xs, RealLe)| == |Sort(ys, RealLe)| == |xs|
    ensures x == Sort(xs, RealLe)[m] && y == Sort(ys, RealLe)[k] && y == x * d
  {
    SortPermutes(xs, RealLe);
    SortPermutes(ys, RealLe);
    x, y := Sort(xs, RealLe)[m], Sort(ys, RealLe)[k];
    var t := Quotient(y, d);
    assert y >= x * d by {
      KthBound(xs, ys, d, k, x);
    }
    assert if d > 0.0 then x >= t else x <= t by {
      KthBound(xs, ys, d, k, t);
    }
    Pinned(x, y, t, d);
  }

  lemma KthBound(xs: seq<real>, ys: seq<real>, d: real, k: nat, t: real)
    requires Scaled(xs, ys, d) && d != 0.0 && k < |xs|
    ensures |Sort(xs, RealLe)| == |Sort(ys, RealLe)| == |xs|
    ensures d > 0.0 ==> (Sort(ys, RealLe)[k] < t * d <==> Sort(xs, RealLe)[k] < t)
    ensures d < 0.0 ==> (Sort(ys, RealLe)[k] < t * d <==> Sort(xs, RealLe)[|xs| - 1 - k] > t)
  {
    CountScaled(xs, ys, d, t);
    KthBelow(ys, k, t * d);
    KthBelow(xs, k, t);
    KthUpTo(xs, |xs| - 1 - k, t);
  }

  lemma OddMedianScaled(xs: seq<real>, ys: seq<real>, d: real) returns (m: real, n: real)
    requires |xs| % 2 == 1 && Scaled(xs, ys, d) && d != 0.0
    ensures m == Median(xs) && n == Median(ys) && n == m * d
  {
    m, n := KthScaled(xs, ys, d, |xs| / 2, |xs| / 2);
  }

  lemma HalfwayScaled(a: real, b: real, a': real, b': real, d: real) returns (h: real, h': real)
    requires a' == a * d && b' == b * d
    ensures h == (a + b) / 2.0 && h' == (a' + b') / 2.0 && h' == h * d
  {
    h, h' := (a + b) / 2.0, (a' + b') / 2.0;
    assert (a + b) * d == a * d + b * d;
  }

  lemma EvenMedianScaled(xs: seq<real>, ys: seq<real>, d: real) returns (m: real, n: real)
    requires xs != [] && |xs| % 2 == 0 && Scaled(xs, ys, d) && d != 0.0
    ensures m == Median(xs) && n == Median(ys) && n == m * d
  {
    var lo, hi := |xs| / 2 - 1, |xs| / 2;
    var a, a' := KthScaled(xs, ys, d, lo, if d > 0.0 then lo else hi);
    var b, b' := KthScaled(xs, ys, d, hi, if d > 0.0 then hi else lo);
    m, n := HalfwayScaled(a, b, a', b', d);
  }

  /** So the median of scaled values is the scaled median. */
  lemma MedianScaled(xs: seq<real>, ys: seq<real>, d: real) returns (m: real, n: real)
    requires xs != [] && Scaled(xs, ys, d)
    ensures m == Median(xs) && n == Median(ys) && n == m * d
  {
    if d == 0.0 {
      MedianOfZeros(ys);
      m, n := Median(xs), 0.0;
    } else if |xs| % 2 == 1 {
      m, n := OddMedianScaled(xs, ys, d);
    } else {
      m, n := EvenMedianScaled(xs, ys, d);
    }
  }

  lemma MedianOfZeros(ys: seq<real>)
    requires ys != [] && forall i | 0 <= i < |ys| :: ys[i] == 0.0
    ensures Median(ys) == 0.0
  {
    SortPermutes(ys, RealLe);
    forall i | 0 <= i < |ys| ensures Sort(ys, RealLe)[i] == 0.0 {
      SortMembers(ys, RealLe, Sort(ys, RealLe)[i]);
    }
  }
}
