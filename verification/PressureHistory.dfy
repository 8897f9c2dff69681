/** What the evaluator's level means in terms of everything it was ever fed. */
module PressureHistory {
  import opened Options
  import opened WindowMedian
  import opened Hysteresis
  import opened Pressure

  type Inputs = seq<Option<GpuSample>>

  function Replay(cfg: Config, inputs: Inputs): Evaluator
    requires UsableConfig(cfg)
  {
    if inputs == [] then INITIAL
    else Ingest(cfg, Replay(cfg, inputs[..|inputs| - 1]), inputs[|inputs| - 1])
  }

  lemma ReplayExtends(cfg: Config, inputs: Inputs, x: Option<GpuSample>)
    requires UsableConfig(cfg)
    ensures Replay(cfg, inputs + [x]) == Ingest(cfg, Replay(cfg, inputs), x)
  {
    assert (inputs + [x])[..|inputs|] == inputs;
  }

  /** The readings that arrived, oldest first. */
  function Samples(inputs: Inputs): seq<GpuSample> {
    if inputs == [] then []
    else
      var rest := Samples(inputs[..|inputs| - 1]);
      match inputs[|inputs| - 1]
      case None => rest
      case Some(s) => rest + [s]
  }

  function Recent(ss: seq<GpuSample>, size: nat): seq<GpuSample> {
    if |ss| <= size then ss else ss[|ss| - size..]
  }

  lemma AppendRecent(ss: seq<GpuSample>, s: GpuSample, size: nat)
    requires size >= 1
    ensures Append(Recent(ss, size), s, size) == Recent(ss + [s], size)
  {
  }

  /** The window is the last readings that arrived; lost ones neither enter nor clear it. */
  lemma {:induction false} WindowIsRecent(cfg: Config, inputs: Inputs)
    requires UsableConfig(cfg)
    ensures Replay(cfg, inputs).window == Recent(Samples(inputs), cfg.windowSamples)
  {
    if inputs != [] {
      var before, x := inputs[..|inputs| - 1], inputs[|inputs| - 1];
      WindowIsRecent(cfg, before);
      if x.Some? {
        AppendRecent(Samples(before), x.value, cfg.windowSamples);
      }
    }
  }

  /** The level the window argues for right after its newest reading. */
  function CandidateAt(cfg: Config, inputs: Inputs): Level
    requires UsableConfig(cfg) && inputs != [] && inputs[|inputs| - 1].Some?
  {
    Candidate(Recent(Samples(inputs), cfg.windowSamples), cfg.thresholds)
  }

  /** What the newest input argues for: nothing if it was lost. */
  function Verdict(cfg: Config, inputs: Inputs): Option<Level>
    requires UsableConfig(cfg) && inputs != []
  {
    if inputs[|inputs| - 1].None? then None else Some(CandidateAt(cfg, inputs))
  }

  function VerdictsOf(cfg: Config, inputs: Inputs): Verdicts
    requires UsableConfig(cfg)
  {
    if inputs == [] then []
    else
      VerdictsOf(cfg, inputs[..|inputs| - 1]) + [Verdict(cfg, inputs)]
  }

  lemma {:induction false} VerdictAt(cfg: Config, inputs: Inputs, j: nat)
    requires UsableConfig(cfg) && j < |inputs|
    ensures |VerdictsOf(cfg, inputs)| == |inputs|
    ensures VerdictsOf(cfg, inputs)[j]
         == Verdict(cfg, inputs[..j + 1])
  {
    var before := inputs[..|inputs| - 1];
    VerdictsLength(cfg, before);
    if j < |inputs| - 1 {
      VerdictAt(cfg, before, j);
      assert before[..j + 1] == inputs[..j + 1];
    } else {
      assert inputs[..j + 1] == inputs;
    }
  }

  lemma {:induction false} VerdictsLength(cfg: Config, inputs: Inputs)
    requires UsableConfig(cfg)
    ensures |VerdictsOf(cfg, inputs)| == |inputs|
    ensures Readings(VerdictsOf(cfg, inputs)) == |Samples(inputs)|
  {
    if inputs != [] {
      var vs := VerdictsOf(cfg, inputs);
      VerdictsLength(cfg, inputs[..|inputs| - 1]);
      assert vs[..|vs| - 1] == VerdictsOf(cfg, inputs[..|inputs| - 1]);
    }
  }

  lemma VerdictsOneMore(cfg: Config, inputs: Inputs, x: Option<GpuSample>)
    requires UsableConfig(cfg)
    ensures VerdictsOf(cfg, inputs + [x]) == VerdictsOf(cfg, inputs) + [Verdict(cfg, inputs + [x])]
  {
    assert (inputs + [x])[..|inputs|] == inputs;
  }

  /** The evaluator runs the automaton on those verdicts: its level, candidate and streak depend on
      all it was ever fed only through them. */
  lemma {:induction false} EvaluatorRunsAutomaton(cfg: Config, inputs: Inputs)
    requires UsableConfig(cfg)
    ensures Replay(cfg, inputs).automaton == After(cfg.hysteresisSamples, VerdictsOf(cfg, inputs))
  {
    if inputs != [] {
      var before, x := inputs[..|inputs| - 1], inputs[|inputs| - 1];
      EvaluatorRunsAutomaton(cfg, before);
      WindowIsRecent(cfg, inputs);
      AfterOneMore(cfg.hysteresisSamples, VerdictsOf(cfg, before), Verdict(cfg, inputs));
    }
  }

  /** So a reading changes the evaluator's level exactly when the windows after the last
      max(1, hysteresis) inputs, all of them readings, argue for one and the same other level. */
  lemma LevelChangesIff(cfg: Config, inputs: Inputs, s: GpuSample)
    requires UsableConfig(cfg)
    ensures var now, next := Replay(cfg, inputs).Level(), Replay(cfg, inputs + [Some(s)]).Level();
      var verdicts, k := VerdictsOf(cfg, inputs + [Some(s)]), Enough(cfg.hysteresisSamples);
      && (next != now <==> exists l :: l != now && Unanimous(verdicts, k, l))
      && (next != now ==> Unanimous(verdicts, k, next))
  {
    EvaluatorRunsAutomaton(cfg, inputs);
    EvaluatorRunsAutomaton(cfg, inputs + [Some(s)]);
    VerdictsOneMore(cfg, inputs, Some(s));
    ChangesIffUnanimous(cfg.hysteresisSamples, VerdictsOf(cfg, inputs), CandidateAt(cfg, inputs + [Some(s)]));
  }

  // ---------- losing telemetry ----------

  lemma AfterALoss(cfg: Config, inputs: Inputs)
    requires UsableConfig(cfg)
    ensures var now, after := Replay(cfg, inputs), Replay(cfg, inputs + [None]);
      && after.Level() == (if now.Level() == LOW then MODERATE else now.Level())
      && Rank(after.Level()) >= Rank(now.Level()) && after.Level() != LOW
      && !after.healthy && after.window == now.window
  {
    ReplayExtends(cfg, inputs, None);
  }

  /** Telemetry counts as healthy exactly while the latest input is a reading, and the last sample
      is the latest reading that arrived, however many inputs were lost since. */
  lemma {:induction false} HealthIsTheLastInput(cfg: Config, inputs: Inputs)
    requires UsableConfig(cfg)
    ensures var e, ss := Replay(cfg, inputs), Samples(inputs);
      && (e.healthy <==> inputs != [] && inputs[|inputs| - 1].Some?)
      && e.lastSample == if ss == [] then None else Some(ss[|ss| - 1])
  {
    if inputs != [] {
      HealthIsTheLastInput(cfg, inputs[..|inputs| - 1]);
    }
  }

  /** Unknown pressure is treated as LOW in exactly one case: before anything was ever ingested. */
  lemma UnknownIsLowIff(cfg: Config, inputs: Inputs)
    requires UsableConfig(cfg)
    ensures !Replay(cfg, inputs).healthy && Replay(cfg, inputs).Level() == LOW <==> inputs == []
  {
    if inputs != [] {
      var before, x := inputs[..|inputs| - 1], inputs[|inputs| - 1];
      assert inputs == before + [x];
      if x.None? {
        AfterALoss(cfg, before);
      } else {
        ReplayExtends(cfg, before, x);
      }
    }
  }

  lemma {:induction false} VerdictsConcat(cfg: Config, a: Inputs, b: Inputs) returns (later: Verdicts)
    requires UsableConfig(cfg)
    ensures VerdictsOf(cfg, a + b) == VerdictsOf(cfg, a) + later && |later| == |b|
  {
    if b == [] {
      assert a + b == a;
      later := [];
    } else {
      var rest, x := b[..|b| - 1], b[|b| - 1];
      later := VerdictsConcat(cfg, a, rest);
      assert a + b == (a + rest) + [x];
      VerdictsOneMore(cfg, a + rest, x);
      later := later + [Verdict(cfg, a + rest + [x])];
    }
  }

  /** After a lost reading the evaluator's level stays above LOW until at least max(1, hysteresis)
      further inputs have arrived, whatever they are. */
  lemma AboveLowAfterLoss(cfg: Config, before: Inputs, after: Inputs)
    requires UsableConfig(cfg) && |after| < Enough(cfg.hysteresisSamples)
    ensures Replay(cfg, before + [None] + after).Level() != LOW
  {
    VerdictsOneMore(cfg, before, None);
    var later := VerdictsConcat(cfg, before + [None], after);
    EvaluatorRunsAutomaton(cfg, before + [None] + after);
    NotLowSoonAfterLoss(cfg.hysteresisSamples, VerdictsOf(cfg, before), later);
  }

  /** With n readings and any number of lost ones the evaluator's level changes at most
      2 * (n / max(1, hysteresis)) + 1 times. */
  lemma LevelFlapsBounded(cfg: Config, inputs: Inputs)
    requires UsableConfig(cfg)
    ensures LevelChanges(cfg, inputs) <= 2 * (|Samples(inputs)| / Enough(cfg.hysteresisSamples)) + 1
  {
    VerdictsLength(cfg, inputs);
    ChangesOfBothKinds(cfg, inputs);
    BoundedFlapping(cfg.hysteresisSamples, VerdictsOf(cfg, inputs));
  }

  function LevelChanges(cfg: Config, inputs: Inputs): nat
    requires UsableConfig(cfg)
  {
    if inputs == [] then 0
    else
      var before := inputs[..|inputs| - 1];
      LevelChanges(cfg, before) + if Replay(cfg, inputs).Level() != Replay(cfg, before).Level() then 1 else 0
  }

  lemma {:induction false} ChangesOfBothKinds(cfg: Config, inputs: Inputs)
    requires UsableConfig(cfg)
    ensures var h, vs := cfg.hysteresisSamples, VerdictsOf(cfg, inputs);
      LevelChanges(cfg, inputs) == ReadingChanges(h, vs) + FailSafes(h, vs)
  {
    if inputs != [] {
      var before, vs := inputs[..|inputs| - 1], VerdictsOf(cfg, inputs);
      ChangesOfBothKinds(cfg, before);
      EvaluatorRunsAutomaton(cfg, before);
      EvaluatorRunsAutomaton(cfg, inputs);
      assert vs[..|vs| - 1] == VerdictsOf(cfg, before);
    }
  }

  // ---------- what the window says ----------

  function Min(a: real, b: real): real { if a <= b then a else b }

  function LowestVram(th: Thresholds): real { Min(th.vramModerate, Min(th.vramHigh, th.vramCritical)) }

  function LowestUtil(th: Thresholds): real { Min(th.utilModerate, Min(th.utilHigh, th.utilCritical)) }

  lemma LevelMonotone(a: GpuSample, b: GpuSample, th: Thresholds)
    requires a.util <= b.util && VramPct(a) <= VramPct(b) && a.temp <= b.temp
    ensures Rank(LevelFromSample(a, th)) <= Rank(LevelFromSample(b, th))
  {
  }

  /** The memory readings of a window as shares of its newest total. */
  function VramShares(ws: seq<GpuSample>): seq<real>
    requires ws != []
  {
    seq(|ws|, i requires 0 <= i < |ws| => Share(ws[i].vramUsed, ws[|ws| - 1].vramTotal))
  }

  function PerUnit(total: real): real { if total != 0.0 then 100.0 / total else 0.0 }

  lemma ShareIsScaled(used: real, total: real)
    ensures Share(used, total) == used * PerUnit(total)
  {
    if total != 0.0 {
      var q := 100.0 / total;
      assert q * total == 100.0;
      assert used * q * total == used * (q * total);
      assert 100.0 * used / total * total == 100.0 * used;
      SameQuotient(used * q, 100.0 * used / total, total);
    }
  }

  lemma SameQuotient(x: real, y: real, d: real)
    requires d != 0.0 && x * d == y * d
    ensures x == y
  {
    TimesOrder(x, y, d);
    TimesOrder(y, x, d);
  }

  lemma SharesAreScaled(ws: seq<GpuSample>)
    requires ws != []
    ensures Scaled(Useds(ws), VramShares(ws), PerUnit(ws[|ws| - 1].vramTotal))
  {
    forall i | 0 <= i < |ws| {
      ShareIsScaled(ws[i].vramUsed, ws[|ws| - 1].vramTotal);
    }
  }

  lemma ScaledShare(used: real, share: real, total: real)
    requires share == used * PerUnit(total)
    ensures share == Share(used, total)
  {
    ShareIsScaled(used, total);
  }

  lemma MedianShare(ws: seq<GpuSample>) returns (m: real, n: real)
    requires ws != []
    ensures m == Median(Useds(ws)) && n == Median(VramShares(ws))
    ensures n == Share(m, ws[|ws| - 1].vramTotal)
  {
    SharesAreScaled(ws);
    m, n := MedianScaled(Useds(ws), VramShares(ws), PerUnit(ws[|ws| - 1].vramTotal));
    ScaledShare(m, n, ws[|ws| - 1].vramTotal);
  }

  /** Taking the share of the median is taking the median of the shares, whatever the total. */
  lemma ShareOfMedian(ws: seq<GpuSample>)
    requires ws != []
    ensures VramPct(MedianSample(ws)) == Median(VramShares(ws))
  {
    var m, n := MedianShare(ws);
  }

  /** Raising a window pointwise, memory as shares of the newest total, never lowers the level it
      argues for. */
  lemma CandidateMonotone(ws: seq<GpuSample>, vs: seq<GpuSample>, th: Thresholds)
    requires |ws| == |vs| > 0
    requires forall i :: 0 <= i < |ws| ==> ws[i].util <= vs[i].util && ws[i].temp <= vs[i].temp
    requires forall i :: 0 <= i < |ws| ==> VramShares(ws)[i] <= VramShares(vs)[i]
    ensures Rank(Candidate(ws, th)) <= Rank(Candidate(vs, th))
  {
    MedianMonotone(Utils(ws), Utils(vs));
    MedianMonotone(VramShares(ws), VramShares(vs));
    MedianMonotone(Temps(ws), Temps(vs));
    ShareOfMedian(ws);
    ShareOfMedian(vs);
    LevelMonotone(MedianSample(ws), MedianSample(vs), th);
  }

  /** More memory in use is a larger share of the same total, exactly if the total is positive. */
  lemma MoreUsedIsMoreShareIff(total: real)
    ensures (forall a: real, b: real :: a < b ==> Share(a, total) < Share(b, total)) <==> total > 0.0
  {
    forall a: real, b: real | a < b && total > 0.0 ensures Share(a, total) < Share(b, total) {
      ShareIsScaled(a, total);
      ShareIsScaled(b, total);
      assert 100.0 / total > 0.0;
      TimesOrder(a, b, 100.0 / total);
    }
    if total <= 0.0 {
      ShareIsScaled(0.0, total);
      ShareIsScaled(1.0, total);
      assert Share(0.0, total) >= Share(1.0, total);
    }
  }

  /** If, separately for utilisation, memory and temperature, more than half of the window lies
      below the lowest threshold, the window argues for LOW whatever the rest of it says. */
  lemma MajorityCalmMeansLow(ws: seq<GpuSample>, th: Thresholds)
    requires ws != []
    requires 2 * CountBelow(Utils(ws), LowestUtil(th)) > |ws|
    requires 2 * CountBelow(VramShares(ws), LowestVram(th)) > |ws|
    requires 2 * CountBelow(Temps(ws), th.tempCritical) > |ws|
    ensures Candidate(ws, th) == LOW
  {
    MajorityDecides(Utils(ws), LowestUtil(th));
    ShareOfMedian(ws);
    MajorityDecides(VramShares(ws), LowestVram(th));
    MajorityDecides(Temps(ws), th.tempCritical);
  }

  /** And what a strict majority shows in any one measure is seen: its threshold is the least the
      window then argues for. */
  lemma MajorityHotIsSeen(ws: seq<GpuSample>, th: Thresholds)
    requires ws != []
    ensures var n, level := |ws|, Candidate(ws, th);
      && (2 * CountBelow(Temps(ws), th.tempCritical) < n ==> level == CRITICAL)
      && (2 * CountBelow(Utils(ws), th.utilCritical) < n ==> level == CRITICAL)
      && (2 * CountBelow(VramShares(ws), th.vramCritical) < n ==> level == CRITICAL)
      && (2 * CountBelow(Utils(ws), th.utilHigh) < n ==> Rank(level) >= Rank(HIGH))
      && (2 * CountBelow(VramShares(ws), th.vramHigh) < n ==> Rank(level) >= Rank(HIGH))
      && (2 * CountBelow(Utils(ws), th.utilModerate) < n ==> level != LOW)
      && (2 * CountBelow(VramShares(ws), th.vramModerate) < n ==> level != LOW)
  {
    MajorityDecides(Temps(ws), th.tempCritical);
    MajorityDecides(Utils(ws), th.utilCritical);
    MajorityDecides(Utils(ws), th.utilHigh);
    MajorityDecides(Utils(ws), th.utilModerate);
    ShareOfMedian(ws);
    MajorityDecides(VramShares(ws), th.vramCritical);
    MajorityDecides(VramShares(ws), th.vramHigh);
    MajorityDecides(VramShares(ws), th.vramModerate);
  }

  /** More than half of the window is below the given limits, in each measure on its own. */
  ghost predicate MostlyBelow(ws: seq<GpuSample>, util: real, vram: real, temp: real)
    requires ws != []
  {
    && 2 * CountBelow(Utils(ws), util) > |ws|
    && 2 * CountBelow(VramShares(ws), vram) > |ws|
    && 2 * CountBelow(Temps(ws), temp) > |ws|
  }

  lemma MostlyBelowDecides(ws: seq<GpuSample>, util: real, vram: real, temp: real)
    requires ws != [] && MostlyBelow(ws, util, vram, temp)
    ensures var m := MedianSample(ws); m.util < util && VramPct(m) < vram && m.temp < temp
  {
    MajorityDecides(Utils(ws), util);
    ShareOfMedian(ws);
    MajorityDecides(VramShares(ws), vram);
    MajorityDecides(Temps(ws), temp);
  }

  /** And no more is seen than the readings show: below the critical thresholds the window argues
      for HIGH at most, and below the high ones too for MODERATE at most. */
  lemma MajorityMildBounds(ws: seq<GpuSample>, th: Thresholds)
    requires ws != []
    ensures MostlyBelow(ws, th.utilCritical, th.vramCritical, th.tempCritical)
        ==> Rank(Candidate(ws, th)) <= Rank(HIGH)
    ensures MostlyBelow(ws, Min(th.utilHigh, th.utilCritical), Min(th.vramHigh, th.vramCritical), th.tempCritical)
        ==> Rank(Candidate(ws, th)) <= Rank(MODERATE)
  {
    if MostlyBelow(ws, th.utilCritical, th.vramCritical, th.tempCritical) {
      MostlyBelowDecides(ws, th.utilCritical, th.vramCritical, th.tempCritical);
    }
    if MostlyBelow(ws, Min(th.utilHigh, th.utilCritical), Min(th.vramHigh, th.vramCritical), th.tempCritical) {
      MostlyBelowDecides(ws, Min(th.utilHigh, th.utilCritical), Min(th.vramHigh, th.vramCritical), th.tempCritical);
    }
  }

  predicate Calm(s: GpuSample, total: real, th: Thresholds) {
    s.util < LowestUtil(th) && Share(s.vramUsed, total) < LowestVram(th) && s.temp < th.tempCritical
  }

  /** A stretch of calm readings at the start of the window counts towards all three majorities. */
  lemma {:induction false} CalmPrefixCounts(xs: seq<real>, t: real, k: nat)
    requires k <= |xs| && forall i :: 0 <= i < k ==> xs[i] < t
    ensures CountBelow(xs, t) >= k
  {
    if k > 0 {
      CalmPrefixCounts(xs[1..], t, k - 1);
    }
  }

  lemma CalmMajorityMeansLow(ws: seq<GpuSample>, th: Thresholds, k: nat)
    requires k <= |ws| && 2 * k > |ws|
    requires forall i :: 0 <= i < k ==> Calm(ws[i], ws[|ws| - 1].vramTotal, th)
    ensures Candidate(ws, th) == LOW
  {
    CalmPrefixCounts(Utils(ws), LowestUtil(th), k);
    CalmPrefixCounts(VramShares(ws), LowestVram(th), k);
    CalmPrefixCounts(Temps(ws), th.tempCritical, k);
    MajorityCalmMeansLow(ws, th);
  }

  function Arrived(burst: seq<GpuSample>): Inputs {
    seq(|burst|, i requires 0 <= i < |burst| => Some(burst[i]))
  }

  lemma ArrivedLast(inputs: Inputs, burst: seq<GpuSample>)
    requires burst != []
    ensures var n := |burst| - 1;
      inputs + Arrived(burst) == inputs + Arrived(burst[..n]) + [Some(burst[n])]
  {
    assert Arrived(burst) == Arrived(burst[..|burst| - 1]) + [Some(burst[|burst| - 1])];
  }

  lemma {:induction false} SamplesAppend(inputs: Inputs, burst: seq<GpuSample>)
    ensures Samples(inputs + Arrived(burst)) == Samples(inputs) + burst
  {
    if burst == [] {
      assert inputs + Arrived(burst) == inputs;
    } else {
      var n := |burst| - 1;
      SamplesAppend(inputs, burst[..n]);
      var all := inputs + Arrived(burst);
      assert all[..|all| - 1] == inputs + Arrived(burst[..n]);
      assert burst == burst[..n] + [burst[n]];
    }
  }

  /** What the window holds during a burst: the newest calm readings, then the burst. */
  lemma BurstWindow(ss: seq<GpuSample>, burst: seq<GpuSample>, size: nat)
    requires |burst| < size <= |ss|
    ensures Recent(ss + burst, size) == Recent(ss, size)[|burst|..] + burst
  {
  }

  lemma BurstArguesForLow(calm: seq<GpuSample>, burst: seq<GpuSample>, th: Thresholds)
    requires burst != [] && |burst| <= |calm| && 2 * |burst| < |calm|
    requires var total := burst[|burst| - 1].vramTotal;
      forall s :: s in calm ==> Calm(s, total, th)
    ensures Candidate(calm[|burst|..] + burst, th) == LOW
  {
    var window := calm[|burst|..] + burst;
    assert window[|window| - 1] == burst[|burst| - 1];
    forall i | 0 <= i < |calm| - |burst| ensures Calm(window[i], burst[|burst| - 1].vramTotal, th) {
      assert window[i] == calm[|burst| + i];
    }
    CalmMajorityMeansLow(window, th, |calm| - |burst|);
  }

  lemma LowNeverRaises(cfg: Config, before: Inputs, s: GpuSample)
    requires UsableConfig(cfg)
    ensures CandidateAt(cfg, before + [Some(s)]) == LOW
        ==> Rank(Replay(cfg, before + [Some(s)]).Level()) <= Rank(Replay(cfg, before).Level())
  {
    ReplayExtends(cfg, before, Some(s));
    WindowIsRecent(cfg, before + [Some(s)]);
  }

  /** A burst shorter than half the window, after a full window of readings that are calm
      against the totals the burst reports, never raises the level, whatever it was and however
      extreme the burst is. */
  lemma {:induction false} ShortBurstIsIgnored(cfg: Config, inputs: Inputs, burst: seq<GpuSample>)
    requires UsableConfig(cfg)
    requires |Samples(inputs)| >= cfg.windowSamples && 2 * |burst| < cfg.windowSamples
    requires forall b, s | b in burst && s in Recent(Samples(inputs), cfg.windowSamples) ::
      Calm(s, b.vramTotal, cfg.thresholds)
    ensures Rank(Replay(cfg, inputs + Arrived(burst)).Level()) <= Rank(Replay(cfg, inputs).Level())
  {
    if burst == [] {
      assert inputs + Arrived(burst) == inputs;
    } else {
      var n := |burst| - 1;
      ShortBurstIsIgnored(cfg, inputs, burst[..n]);
      ArrivedLast(inputs, burst);
      SamplesAppend(inputs, burst);
      BurstWindow(Samples(inputs), burst, cfg.windowSamples);
      assert burst[n] in burst;
      BurstArguesForLow(Recent(Samples(inputs), cfg.windowSamples), burst, cfg.thresholds);
      LowNeverRaises(cfg, inputs + Arrived(burst[..n]), burst[n]);
    }
  }
}
