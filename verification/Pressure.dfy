/** The GPU pressure evaluator: a rolling component-wise median feeding the hysteresis
    automaton. */
module Pressure {
  import opened Options
  import opened WindowMedian
  import opened Hysteresis

  datatype GpuSample = GpuSample(util: real, vramUsed: real, vramTotal: real, temp: real)

  /** Memory in use as a percentage of a total. */
  function Share(used: real, total: real): real {
    if total != 0.0 then 100.0 * used / total else 0.0
  }

  function VramPct(s: GpuSample): real { Share(s.vramUsed, s.vramTotal) }

  datatype Thresholds = Thresholds(
    vramModerate: real, vramHigh: real, vramCritical: real,
    utilModerate: real, utilHigh: real, utilCritical: real,
    tempCritical: real)

  function LevelFromSample(m: GpuSample, th: Thresholds): Level {
    if m.temp >= th.tempCritical then CRITICAL
    else if VramPct(m) >= th.vramCritical || m.util >= th.utilCritical then CRITICAL
    else if VramPct(m) >= th.vramHigh || m.util >= th.utilHigh then HIGH
    else if VramPct(m) >= th.vramModerate || m.util >= th.utilModerate then MODERATE
    else LOW
  }

  function Utils(ws: seq<GpuSample>): seq<real> { seq(|ws|, i requires 0 <= i < |ws| => ws[i].util) }

  function Useds(ws: seq<GpuSample>): seq<real> { seq(|ws|, i requires 0 <= i < |ws| => ws[i].vramUsed) }

  function Temps(ws: seq<GpuSample>): seq<real> { seq(|ws|, i requires 0 <= i < |ws| => ws[i].temp) }

  /** The medians of the window, with the newest reading of the total. */
  function MedianSample(ws: seq<GpuSample>): GpuSample
    requires ws != []
  {
    GpuSample(Median(Utils(ws)), Median(Useds(ws)), ws[|ws| - 1].vramTotal, Median(Temps(ws)))
  }

  function Candidate(ws: seq<GpuSample>, th: Thresholds): Level
    requires ws != []
  {
    LevelFromSample(MedianSample(ws), th)
  }

  /** The window is bounded: appending to a full one drops its oldest sample. Python's median
      of an empty window raises, so a window holds at least one sample. */
  datatype Config = Config(windowSamples: nat, hysteresisSamples: int, thresholds: Thresholds)

  predicate UsableConfig(cfg: Config) {
    cfg.windowSamples >= 1
  }

  datatype Evaluator = Evaluator(
    window: seq<GpuSample>,
    automaton: Automaton,
    healthy: bool,
    lastSample: Option<GpuSample>)
  {
    function Level(): Level { automaton.level }
  }

  const INITIAL := Evaluator([], START, false, None)

  function Append(ws: seq<GpuSample>, s: GpuSample, size: nat): (r: seq<GpuSample>)
    ensures r == [] <==> size == 0
  {
    if |ws| < size then ws + [s] else (ws + [s])[|ws| + 1 - size..]
  }

  function AfterLoss(e: Evaluator): Evaluator {
    e.(healthy := false, automaton := Lost(e.automaton))
  }

  function AfterSample(cfg: Config, e: Evaluator, s: GpuSample): Evaluator
    requires UsableConfig(cfg)
  {
    var window := Append(e.window, s, cfg.windowSamples);
    var automaton := Argued(cfg.hysteresisSamples, e.automaton, Candidate(window, cfg.thresholds));
    Evaluator(window, automaton, true, Some(s))
  }

  function Ingest(cfg: Config, e: Evaluator, input: Option<GpuSample>): Evaluator
    requires UsableConfig(cfg)
  {
    match input
    case None => AfterLoss(e)
    case Some(s) => AfterSample(cfg, e, s)
  }

  /** The evaluator object. */
  class PressureEvaluator {
    const cfg: Config
    var window: seq<GpuSample>
    var currentLevel: Level
    var candidateLevel: Option<Level>
    var candidateStreak: int
    var telemetryHealthy: bool
    var lastSample: Option<GpuSample>

    ghost function View(): Evaluator
      reads this
    {
      Evaluator(window, Memory(), telemetryHealthy, lastSample)
    }

    ghost function Memory(): Automaton
      reads this
    {
      Automaton(currentLevel, candidateLevel, candidateStreak)
    }

    constructor (cfg: Config)
      ensures this.cfg == cfg && View() == INITIAL
    {
      this.cfg := cfg;
      window := [];
      currentLevel := LOW;
      candidateLevel := None;
      candidateStreak := 0;
      telemetryHealthy := false;
      lastSample := None;
    }

    /** Returns the level, or nothing where the source raises: a window that may hold no sample
        has no median. */
    method IngestSample(sample: Option<GpuSample>) returns (level: Option<Level>)
      modifies this
      ensures level.None? <==> sample.Some? && !UsableConfig(cfg)
      ensures level.Some? ==> level.value == currentLevel
      ensures UsableConfig(cfg) ==> View() == Ingest(cfg, old(View()), sample)
      ensures !UsableConfig(cfg) ==>
        View() == if sample.None? then AfterLoss(old(View()))
                  else old(View()).(window := [], healthy := true, lastSample := sample)
    {
      if sample.None? {
        telemetryHealthy := false;
        if currentLevel == LOW {
          currentLevel := MODERATE;
        }
        candidateLevel := None;
        candidateStreak := 0;
        return Some(currentLevel);
      }
      telemetryHealthy := true;
      lastSample := sample;
      window := Append(window, sample.value, cfg.windowSamples);
      if window == [] {
        return None;
      }
      Decide(Candidate(window, cfg.thresholds));
      return Some(currentLevel);
    }

    /** What a reading does once it is in the window. */
    method Decide(candidate: Level)
      modifies this`currentLevel, this`candidateLevel, this`candidateStreak
      ensures Memory() == Argued(cfg.hysteresisSamples, old(Memory()), candidate)
    {
      if candidate == currentLevel {
        candidateLevel := None;
        candidateStreak := 0;
        return;
      }
      if candidateLevel == Some(candidate) {
        candidateStreak := candidateStreak + 1;
      } else {
        candidateLevel := Some(candidate);
        candidateStreak := 1;
      }
      if candidateStreak >= cfg.hysteresisSamples {
        currentLevel := candidate;
        candidateLevel := None;
        candidateStreak := 0;
      }
    }
  }
}
