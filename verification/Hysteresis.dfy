/** Pressure levels and the automaton that decides when to change between them. It sees one verdict
    per input: the level that the window argues for after a reading, or nothing for a lost one. */
module Hysteresis {
  import opened Options

  datatype Level = LOW | MODERATE | HIGH | CRITICAL

  function Rank(l: Level): nat {
    match l
    case LOW => 0
    case MODERATE => 1
    case HIGH => 2
    case CRITICAL => 3
  }

  datatype Automaton = Automaton(level: Level, candidate: Option<Level>, streak: int)

  const START := Automaton(LOW, None, 0)

  type Verdicts = seq<Option<Level>>

  function Lost(a: Automaton): Automaton {
    Automaton(if a.level == LOW then MODERATE else a.level, None, 0)
  }

  function Argued(hysteresis: int, a: Automaton, c: Level): Automaton {
    if c == a.level then Automaton(a.level, None, 0)
    else
      var streak := if a.candidate == Some(c) then a.streak + 1 else 1;
      if streak >= hysteresis then Automaton(c, None, 0) else Automaton(a.level, Some(c), streak)
  }

  function Step(hysteresis: int, a: Automaton, v: Option<Level>): Automaton {
    match v
    case None => Lost(a)
    case Some(c) => Argued(hysteresis, a, c)
  }

  function After(hysteresis: int, vs: Verdicts): Automaton {
    if vs == [] then START else Step(hysteresis, After(hysteresis, vs[..|vs| - 1]), vs[|vs| - 1])
  }

  lemma AfterOneMore(hysteresis: int, vs: Verdicts, v: Option<Level>)
    ensures After(hysteresis, vs + [v]) == Step(hysteresis, After(hysteresis, vs), v)
  {
    assert (vs + [v])[..|vs|] == vs;
  }

  function Enough(hysteresis: int): nat {
    if hysteresis > 1 then hysteresis else 1
  }

  // ---------- the memory ----------

  /** The last k verdicts were all for l. */
  ghost predicate Unanimous(vs: Verdicts, k: nat, l: Level) {
    k <= |vs| && forall j | |vs| - k <= j < |vs| :: vs[j] == Some(l)
  }

  /** How many of the last verdicts are the same as the very last one; none if that was a loss. */
  function Stretch(vs: Verdicts): nat {
    if vs == [] || vs[|vs| - 1].None? then 0
    else if |vs| > 1 && vs[|vs| - 2] == vs[|vs| - 1] then Stretch(vs[..|vs| - 1]) + 1
    else 1
  }

  lemma {:induction false} StretchIsLongest(vs: Verdicts, k: nat, l: Level)
    requires k >= 1
    ensures Unanimous(vs, k, l) <==> Stretch(vs) >= k && vs[|vs| - 1] == Some(l)
  {
    if vs != [] && vs[|vs| - 1] == Some(l) {
      if k > 1 {
        StretchIsLongest(vs[..|vs| - 1], k - 1, l);
      }
      assert Unanimous(vs, k, l) <==> Unanimous(vs[..|vs| - 1], k - 1, l);
    }
  }

  /** The automaton's memory is the unanimous stretch, cut to nothing where it argues for the level
      already in force: a candidate is recorded exactly when the streak is positive, it is never
      the current level, and the streak is always short of the hysteresis. */
  lemma {:induction false} MemoryIsTheStretch(hysteresis: int, vs: Verdicts)
    ensures var a, n := After(hysteresis, vs), Stretch(vs);
      if n == 0 || vs[|vs| - 1] == Some(a.level)
      then a.candidate == None && a.streak == 0
      else a.candidate == vs[|vs| - 1] && a.streak == n < Enough(hysteresis)
  {
    if vs != [] {
      MemoryIsTheStretch(hysteresis, vs[..|vs| - 1]);
    }
  }

  /** A reading changes the level exactly when it completes a stretch of max(1, hysteresis)
      readings, none of them lost, after each of which the window argued for one and the same
      level other than the current one; and that is the level taken. */
  lemma ChangesIffUnanimous(hysteresis: int, vs: Verdicts, c: Level)
    ensures var now, next := After(hysteresis, vs).level, After(hysteresis, vs + [Some(c)]).level;
      && (next != now <==> exists l :: l != now && Unanimous(vs + [Some(c)], Enough(hysteresis), l))
      && (next != now ==> Unanimous(vs + [Some(c)], Enough(hysteresis), next))
  {
    var all := vs + [Some(c)];
    assert all[..|vs|] == vs;
    MemoryIsTheStretch(hysteresis, vs);
    forall l {
      StretchIsLongest(all, Enough(hysteresis), l);
    }
  }

  // ---------- losing telemetry ----------

  /** The fail-safe raises LOW to MODERATE, leaves every other level alone, and forgets what the
      readings before it argued for. */
  lemma LossFailsSafe(hysteresis: int, vs: Verdicts)
    ensures var now, after := After(hysteresis, vs), After(hysteresis, vs + [None]);
      && (now.level == LOW ==> after.level == MODERATE)
      && (now.level != LOW ==> after.level == now.level)
      && after.candidate == None && after.streak == 0
  {
    AfterOneMore(hysteresis, vs, None);
  }

  lemma LossNeverLowers(hysteresis: int, vs: Verdicts)
    ensures var now, after := After(hysteresis, vs).level, After(hysteresis, vs + [None]).level;
      Rank(after) >= Rank(now) && after != LOW
  {
    AfterOneMore(hysteresis, vs, None);
  }

  /** After a lost reading the level stays above LOW until at least max(1, hysteresis) further
      inputs have arrived, whatever they are. */
  lemma {:induction false} NotLowSoonAfterLoss(hysteresis: int, before: Verdicts, after: Verdicts)
    requires |after| < Enough(hysteresis)
    ensures After(hysteresis, before + [None] + after).level != LOW
  {
    if after == [] {
      assert before + [None] + after == before + [None];
      LossNeverLowers(hysteresis, before);
    } else {
      var last, rest := after[|after| - 1], after[..|after| - 1];
      var history := before + [None] + rest;
      NotLowSoonAfterLoss(hysteresis, before, rest);
      assert before + [None] + after == history + [last];
      AfterOneMore(hysteresis, history, last);
      if last.Some? {
        ChangesIffUnanimous(hysteresis, history, last.value);
        assert (history + [last])[|before|] == None;
      }
    }
  }

  // ---------- flapping ----------

  function Readings(vs: Verdicts): nat {
    if vs == [] then 0 else Readings(vs[..|vs| - 1]) + if vs[|vs| - 1].Some? then 1 else 0
  }

  predicate ChangesAt(hysteresis: int, vs: Verdicts)
    requires vs != []
  {
    After(hysteresis, vs).level != After(hysteresis, vs[..|vs| - 1]).level
  }

  /** Level changes caused by readings, and by their loss. */
  function ReadingChanges(hysteresis: int, vs: Verdicts): nat {
    if vs == [] then 0
    else
      ReadingChanges(hysteresis, vs[..|vs| - 1])
      + if vs[|vs| - 1].Some? && ChangesAt(hysteresis, vs) then 1 else 0
  }

  function FailSafes(hysteresis: int, vs: Verdicts): nat {
    if vs == [] then 0
    else
      FailSafes(hysteresis, vs[..|vs| - 1])
      + if vs[|vs| - 1].None? && ChangesAt(hysteresis, vs) then 1 else 0
  }

  lemma TimesSuccessor(k: nat, c: nat)
    ensures k * (c + 1) == k * c + k
  {
  }

  /** Every change that readings bring about costs a full streak of them. */
  lemma {:induction false} ChangesArePaidFor(hysteresis: int, vs: Verdicts)
    ensures 0 <= After(hysteresis, vs).streak
    ensures Enough(hysteresis) * ReadingChanges(hysteresis, vs) + After(hysteresis, vs).streak <= Readings(vs)
  {
    if vs != [] {
      ChangesArePaidFor(hysteresis, vs[..|vs| - 1]);
      TimesSuccessor(Enough(hysteresis), ReadingChanges(hysteresis, vs[..|vs| - 1]));
    }
  }

  /** The fail-safe can fire again only after readings have brought the level back to LOW. */
  lemma {:induction false} FailSafesFollowChanges(hysteresis: int, vs: Verdicts)
    ensures FailSafes(hysteresis, vs) + (if After(hysteresis, vs).level == LOW then 1 else 0)
         <= ReadingChanges(hysteresis, vs) + 1
  {
    if vs != [] {
      FailSafesFollowChanges(hysteresis, vs[..|vs| - 1]);
    }
  }

  lemma TimesMonotone(k: nat, a: int, b: int)
    requires a <= b
    ensures k * a <= k * b
  {
  }

  lemma Quotient(k: nat, c: nat, n: nat)
    requires k >= 1 && k * c <= n
    ensures c <= n / k
  {
    var q := n / k;
    assert n < k * q + k && k * (q + 1) == k * q + k;
    if q + 1 <= c {
      TimesMonotone(k, q + 1, c);
    }
  }

  /** With n readings and any number of lost ones the level changes at most
      2 * (n / max(1, hysteresis)) + 1 times. */
  lemma BoundedFlapping(hysteresis: int, vs: Verdicts)
    ensures var bound := Readings(vs) / Enough(hysteresis);
      && ReadingChanges(hysteresis, vs) <= bound
      && FailSafes(hysteresis, vs) <= bound + 1
      && ReadingChanges(hysteresis, vs) + FailSafes(hysteresis, vs) <= 2 * bound + 1
  {
    ChangesArePaidFor(hysteresis, vs);
    FailSafesFollowChanges(hysteresis, vs);
    Quotient(Enough(hysteresis), ReadingChanges(hysteresis, vs), Readings(vs));
  }
}
