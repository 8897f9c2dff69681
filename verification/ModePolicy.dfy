/** Operating modes, the ceiling they derive from GPU pressure, and what that means for
    admission: the evaluator, the policy and the scheduler run together. */
module ModePolicy {
  import opened Options
  import opened Ordering
  import opened Selections
  import opened Hysteresis
  import opened Pressure
  import opened PressureHistory
  import opened SchedulerModel
  import Greedy = GreedyPromotion
  import opened SchedulerInvariant
  import opened SchedulerRuns
  import opened SchedulerDrain

  datatype Mode = SERVING | PERSONAL | GAMEDEV

  datatype Settings = Settings(maxActiveJobs: int, perUserMaxActive: int)

  datatype Policy = Policy(maxActiveJobs: int, perUserMaxActive: int, ownerPriorityBonus: int, pressureEnabled: bool)

  function PolicyOf(settings: Settings, mode: Mode): Policy {
    match mode
    case SERVING => Policy(settings.maxActiveJobs, settings.perUserMaxActive, 0, false)
    case PERSONAL =>
      Policy(settings.maxActiveJobs, Greedy.Max(settings.perUserMaxActive, settings.maxActiveJobs), 1000, false)
    case GAMEDEV => Policy(settings.maxActiveJobs, settings.perUserMaxActive, 0, true)
  }

  function PressureAdjustedCeiling(base: int, level: Level): int {
    match level
    case LOW => base
    case MODERATE => Greedy.Max(1, base - 1)
    case _ => 0
  }

  datatype Effective = Effective(mode: Mode, ceiling: int, cap: int, bonus: int, pressureLevel: Level)

  function ComputeEffective(settings: Settings, mode: Mode, current: Level, isOwner: bool): Effective {
    var policy := PolicyOf(settings, mode);
    var level := if policy.pressureEnabled then current else LOW;
    var base := Greedy.Min(settings.maxActiveJobs, policy.maxActiveJobs);
    Effective(mode,
              if policy.pressureEnabled then PressureAdjustedCeiling(base, level) else base,
              policy.perUserMaxActive,
              if isOwner then policy.ownerPriorityBonus else 0,
              level)
  }

  /** The limits a request that arrives in this mode and at this level applies. */
  function AppliedLimits(settings: Settings, mode: Mode, current: Level): Limits {
    var e := ComputeEffective(settings, mode, current, false);
    Limits(e.ceiling, e.cap)
  }

  /** More pressure never allows more, and pressure never allows more than its absence, exactly
      when the base ceiling is at least one: MODERATE insists on one slot even where the base
      has none. */
  lemma CeilingAntitoneIff(base: int)
    ensures (forall a: Level, b: Level :: Rank(a) <= Rank(b) ==>
               PressureAdjustedCeiling(base, b) <= PressureAdjustedCeiling(base, a))
       <==> base >= 1
    ensures (forall l: Level :: PressureAdjustedCeiling(base, l) <= base) <==> base >= 1
  {
    assert PressureAdjustedCeiling(base, LOW) == base;
    assert base <= 0 ==> PressureAdjustedCeiling(base, MODERATE) == 1;
    assert Rank(LOW) <= Rank(MODERATE);
  }

  lemma GamedevCeiling(settings: Settings, level: Level)
    ensures var ceiling := AppliedLimits(settings, GAMEDEV, level).ceiling;
      && (level == LOW ==> ceiling == settings.maxActiveJobs)
      && (level == MODERATE && settings.maxActiveJobs > 1 ==> ceiling + 1 == settings.maxActiveJobs)
      && (level != LOW ==> ceiling <= Greedy.Max(1, settings.maxActiveJobs - 1))
      && (ceiling == 0 <==> Rank(level) >= Rank(HIGH) || (level == LOW && settings.maxActiveJobs == 0))
  {
  }

  /** What reaches admission, in terms of the settings: the per-user limit is the setting, raised to
      the maximum in PERSONAL alone, and outside GAMEDEV the ceiling is the maximum whatever the
      pressure. */
  lemma LimitsFromSettings(settings: Settings, mode: Mode, level: Level)
    ensures var limits := AppliedLimits(settings, mode, level);
      && (mode != PERSONAL ==> limits.cap == settings.perUserMaxActive)
      && (mode == PERSONAL ==>
            && limits.cap >= settings.perUserMaxActive && limits.cap >= settings.maxActiveJobs
            && (limits.cap == settings.perUserMaxActive || limits.cap == settings.maxActiveJobs))
      && (mode != GAMEDEV ==> limits.ceiling == settings.maxActiveJobs)
  {
  }

  /** Who is put first: 1000 for the owner in PERSONAL and nothing for anybody else; and a request is
      told the pressure it was judged under, which is LOW outside GAMEDEV. */
  lemma BonusAndPressure(settings: Settings, mode: Mode, level: Level, isOwner: bool)
    ensures var e := ComputeEffective(settings, mode, level, isOwner);
      && (mode == PERSONAL && isOwner ==> e.bonus == 1000)
      && (mode != PERSONAL || !isOwner ==> e.bonus == 0)
      && e.mode == mode
      && e.pressureLevel == (if mode == GAMEDEV then level else LOW)
      && Limits(e.ceiling, e.cap) == AppliedLimits(settings, mode, level)
  {
  }

  /** Only GAMEDEV lets pressure reach the scheduler, and it always does; the cap never moves. */
  lemma OnlyGamedevFollowsPressure(settings: Settings, mode: Mode)
    ensures (exists a: Level, b: Level :: AppliedLimits(settings, mode, a) != AppliedLimits(settings, mode, b))
       <==> mode == GAMEDEV
    ensures forall a: Level, b: Level :: AppliedLimits(settings, mode, a).cap == AppliedLimits(settings, mode, b).cap
  {
    if mode == GAMEDEV {
      var low, moderate := AppliedLimits(settings, mode, LOW), AppliedLimits(settings, mode, MODERATE);
      assert low != AppliedLimits(settings, mode, HIGH) || moderate != AppliedLimits(settings, mode, HIGH);
    }
  }

  // ---------- PERSONAL: a strict priority queue ----------

  lemma NobodyHoldsMoreThanAll(s: State, u: User)
    requires Accounted(s)
    ensures HeldBy(s.slots, u) <= s.slots.active
  {
    SubsetSize(OfUser(Occupants(s.ledger), u), Occupants(s.ledger));
  }

  lemma {:induction false} PrefixMask<T>(xs: seq<T>, mask: seq<bool>, n: nat)
    requires |xs| == |mask| && n <= |xs|
    requires forall i :: 0 <= i < |mask| ==> (mask[i] <==> i < n)
    ensures Select(xs, mask) == xs[..n] && Reject(xs, mask) == xs[n..]
  {
    if xs != [] {
      if n > 0 {
        PrefixMask(xs[1..], mask[1..], n - 1);
        assert xs[..n] == [xs[0]] + xs[1..][..n - 1];
      } else {
        PrefixMask(xs[1..], mask[1..], 0);
      }
    }
  }

  /** Under the limits PERSONAL applies, promotion takes exactly the first free-slots many of
      the ranked queue, or all of it: the per-user cap never makes it skip anybody. */
  lemma PersonalIsStrictPriority(settings: Settings, level: Level, s: State)
    requires Accounted(s) && s.limits == AppliedLimits(settings, PERSONAL, level)
    ensures var queue := Sort(s.waiting, RankLe);
      var n := Greedy.Min(|queue|, Greedy.Room(s.slots, s.limits));
      && Promote(s).waiting == queue[n..]
      && Taken(s) == SetOf(queue[..n])
      && Promote(s).slots.active == s.slots.active + n
  {
    var queue := Sort(s.waiting, RankLe);
    SortKeepsLength(s.waiting);
    var n := Greedy.Min(|queue|, Greedy.Room(s.slots, s.limits));
    var picked := ScanQueue(queue, s.slots, s.limits).picked;
    forall u: User ensures HeldBy(s.slots, u) <= s.slots.active {
      NobodyHoldsMoreThanAll(s, u);
    }
    forall i | 0 <= i < |queue| ensures picked[i] <==> i < n {
      Greedy.StrictPriority(queue, s.slots, s.limits, i);
    }
    PrefixMask(queue, picked, n);
    PromoteMoves(s);
    PromoteCounts(s, "");
  }

  /** So under those limits no event leaves anybody queued behind a waiter it outranks. */
  lemma PersonalNeverBypasses(settings: Settings, level: Level, s: State, e: Event, v: Ticket, w: Ticket)
    requires Inv(s) && Enabled(s, e) && s.limits == AppliedLimits(settings, PERSONAL, level)
    requires !WasPromoted(s.ledger, v) && WasPromoted(Apply(s, e).ledger, v)
    requires w in Apply(s, e).waiting
    ensures w.priority < v.priority || (w.priority == v.priority && w.seqNo >= v.seqNo)
  {
    if !Promotes(s, e) {
      OthersPromoteNobody(s, e, v);
    }
    BeforePromotionAccounted(s, e);
    PromotionsComeFromTheQueue(s, e, v);
    var b := BeforePromotion(s, e);
    PersonalIsStrictPriority(settings, level, b);
    RankIsTotal();
    SortSorts(b.waiting, RankLe);
    FrontOutranksRest(Sort(b.waiting, RankLe), Greedy.Min(|b.waiting|, Greedy.Room(b.slots, b.limits)), v, w);
  }

  lemma FrontOutranksRest(queue: seq<Ticket>, n: nat, v: Ticket, w: Ticket)
    requires SortedBy(queue, RankLe) && n <= |queue| && v in queue[..n] && w in queue[n..]
    ensures !Outranks(w, v)
  {
    var i :| 0 <= i < n && queue[i] == v;
    var j :| 0 <= j < |queue| - n && queue[n..][j] == w;
    assert RankLe(queue[i], queue[n + j]);
  }

  // ---------- pressure, policy and admission together ----------

  datatype World = World(sched: State, evaluator: Evaluator)

  /** A request reads the mode before it reads the level and applies the policy, and the mode may
      have been set anew in between; so an arrival carries whatever mode it has read. */
  datatype Happening =
    | Sampled(input: Option<GpuSample>)
    | Arrives(read: Mode)
    | Scheduled(event: Event)

  predicate Possible(w: World, h: Happening) {
    h.Scheduled? ==> !h.event.SetPolicy? && Enabled(w.sched, h.event)
  }

  function Happen(cfg: Config, settings: Settings, w: World, h: Happening): World
    requires UsableConfig(cfg)
  {
    match h
    case Sampled(input) => w.(evaluator := Ingest(cfg, w.evaluator, input))
    case Arrives(read) =>
      w.(sched := Apply(w.sched, SetPolicy(AppliedLimits(settings, read, w.evaluator.Level()))))
    case Scheduled(e) => w.(sched := Apply(w.sched, e))
  }

  ghost predicate ValidHistory(cfg: Config, settings: Settings, ws: seq<World>, hs: seq<Happening>)
    requires UsableConfig(cfg)
  {
    && |ws| == |hs| + 1
    && Inv(ws[0].sched) && ws[0].evaluator == INITIAL
    && forall i | 0 <= i < |hs| :: Possible(ws[i], hs[i]) && ws[i + 1] == Happen(cfg, settings, ws[i], hs[i])
  }

  function ReadingsOf(hs: seq<Happening>): Inputs {
    if hs == [] then []
    else if hs[|hs| - 1].Sampled? then ReadingsOf(hs[..|hs| - 1]) + [hs[|hs| - 1].input]
    else ReadingsOf(hs[..|hs| - 1])
  }

  lemma {:induction false} EvaluatorReplays(cfg: Config, settings: Settings, ws: seq<World>, hs: seq<Happening>, i: nat)
    requires UsableConfig(cfg) && ValidHistory(cfg, settings, ws, hs) && i <= |hs|
    ensures ws[i].evaluator == Replay(cfg, ReadingsOf(hs[..i])) && Inv(ws[i].sched)
  {
    if i > 0 {
      EvaluatorReplays(cfg, settings, ws, hs, i - 1);
      var h := hs[i - 1];
      assert hs[..i][..i - 1] == hs[..i - 1];
      if h.Sampled? {
        ReplayExtends(cfg, ReadingsOf(hs[..i - 1]), h.input);
      }
      if h.Scheduled? {
        StepKeeps(ws[i - 1].sched, h.event);
      }
    }
  }

  lemma {:induction false} ReadingsConcat(a: seq<Happening>, b: seq<Happening>)
    ensures ReadingsOf(a + b) == ReadingsOf(a) + ReadingsOf(b)
  {
    if b == [] {
      assert a + b == a;
    } else {
      ReadingsConcat(a, b[..|b| - 1]);
      assert (a + b)[..|a + b| - 1] == a + b[..|b| - 1];
    }
  }

  lemma ReadingsAround(hs: seq<Happening>, k: nat, m: nat)
    requires k < m <= |hs| && hs[k] == Sampled(None)
    ensures ReadingsOf(hs[..m]) == ReadingsOf(hs[..k]) + [None] + ReadingsOf(hs[k + 1..m])
  {
    var a, b := hs[..k], hs[k + 1..m];
    assert hs[..m] == a + [hs[k]] + b;
    ReadingsConcat(a + [hs[k]], b);
    assert (a + [hs[k]])[..k] == a;
  }

  /** A request that has read GAMEDEV and arrives after a lost reading, with fewer than
      max(1, hysteresis) inputs since, applies a ceiling of at most max(1, base - 1). */
  lemma LossLowersTheCeiling(cfg: Config, settings: Settings, ws: seq<World>, hs: seq<Happening>, k: nat, m: nat)
    requires UsableConfig(cfg) && ValidHistory(cfg, settings, ws, hs)
    requires k < m < |hs| && hs[k] == Sampled(None) && hs[m] == Arrives(GAMEDEV)
    requires |ReadingsOf(hs[k + 1..m])| < Enough(cfg.hysteresisSamples)
    ensures ws[m + 1].sched.limits.ceiling <= Greedy.Max(1, settings.maxActiveJobs - 1)
  {
    EvaluatorReplays(cfg, settings, ws, hs, m);
    ReadingsAround(hs, k, m);
    AboveLowAfterLoss(cfg, ReadingsOf(hs[..k]), ReadingsOf(hs[k + 1..m]));
    GamedevCeiling(settings, ws[m].evaluator.Level());
  }

  /** Once a request has applied the policy of a HIGH or CRITICAL level, nobody is promoted and
      the slot counter only falls, until another request applies a policy: new samples alone reopen
      nothing. */
  lemma {:induction false} ClosedUntilTheNextRequest(cfg: Config, settings: Settings, ws: seq<World>,
                                                     hs: seq<Happening>, i: nat, j: nat, t: Ticket)
    requires UsableConfig(cfg) && ValidHistory(cfg, settings, ws, hs) && i < j <= |hs|
    requires hs[i] == Arrives(GAMEDEV) && Rank(ws[i].evaluator.Level()) >= Rank(HIGH)
    requires forall k | i < k < j :: !hs[k].Arrives?
    ensures ws[j].sched.limits.ceiling == 0
    ensures WasPromoted(ws[j].sched.ledger, t) ==> WasPromoted(ws[i].sched.ledger, t)
    ensures ws[j].sched.slots.active <= ws[i].sched.slots.active
  {
    if j == i + 1 {
      GamedevCeiling(settings, ws[i].evaluator.Level());
    } else {
      ClosedUntilTheNextRequest(cfg, settings, ws, hs, i, j - 1, t);
      EvaluatorReplays(cfg, settings, ws, hs, j - 1);
      var w, h := ws[j - 1], hs[j - 1];
      if h.Scheduled? {
        NoRoomStep(w.sched, h.event, t);
        StepLimits(w.sched, h.event);
      }
    }
  }

  /** From the i-th happening on, which is one, all requests have read one mode that pressure does not
      reach. */
  ghost predicate OneCalmMode(hs: seq<Happening>, i: nat, j: nat, mode: Mode) {
    && mode != GAMEDEV && i < j <= |hs| && hs[i] == Arrives(mode)
    && forall k | i < k < j && hs[k].Arrives? :: hs[k].read == mode
  }

  lemma {:induction false} CalmModeLimits(cfg: Config, settings: Settings, ws: seq<World>, hs: seq<Happening>,
                                          i: nat, j: nat, mode: Mode)
    requires UsableConfig(cfg) && ValidHistory(cfg, settings, ws, hs) && OneCalmMode(hs, i, j, mode)
    ensures ws[j].sched.limits == AppliedLimits(settings, mode, LOW)
  {
    var w, h := ws[j - 1], hs[j - 1];
    if h.Arrives? {
      LimitsFromSettings(settings, mode, w.evaluator.Level());
      SameLimits(settings, mode, w.evaluator.Level());
    } else {
      CalmModeLimits(cfg, settings, ws, hs, i, j - 1, mode);
      if h.Scheduled? {
        StepLimits(w.sched, h.event);
      }
    }
  }

  lemma SameLimits(settings: Settings, mode: Mode, level: Level)
    requires mode != GAMEDEV
    ensures AppliedLimits(settings, mode, level) == AppliedLimits(settings, mode, LOW)
  {
  }

  lemma HappeningBounds(cfg: Config, settings: Settings, w: World, h: Happening, u: User)
    requires UsableConfig(cfg) && Inv(w.sched) && Possible(w, h)
    ensures var s, s' := w.sched, Happen(cfg, settings, w, h).sched;
      && s'.slots.active <= Greedy.Max(s.slots.active, s.limits.ceiling)
      && HeldBy(s'.slots, u) <= Greedy.Max(HeldBy(s.slots, u), s.limits.cap)
  {
    if h.Scheduled? {
      StepBounds(w.sched, h.event, u);
    }
  }

  predicate Passes(w: World, h: Happening) {
    h.Scheduled? && Promotes(w.sched, h.event)
  }

  lemma HappeningSettles(cfg: Config, settings: Settings, w: World, h: Happening)
    requires UsableConfig(cfg) && Inv(w.sched) && Possible(w, h)
    requires Passes(w, h)
          || (Settled(w.sched) && Happen(cfg, settings, w, h).sched.limits == w.sched.limits)
    ensures Settled(Happen(cfg, settings, w, h).sched)
  {
    if h.Scheduled? {
      StepSettles(w.sched, h.event);
    }
  }

  /** Under requests of SERVING, or of PERSONAL, no user goes beyond its limit and all together not
      beyond the maximum, except for what was taken before. */
  lemma {:induction false} CalmModeBounds(cfg: Config, settings: Settings, ws: seq<World>, hs: seq<Happening>,
                                          i: nat, j: nat, mode: Mode, u: User)
    requires UsableConfig(cfg) && ValidHistory(cfg, settings, ws, hs) && OneCalmMode(hs, i, j, mode)
    ensures ws[j].sched.slots.active <= Greedy.Max(ws[i].sched.slots.active, settings.maxActiveJobs)
    ensures HeldBy(ws[j].sched.slots, u) <= Greedy.Max(HeldBy(ws[i].sched.slots, u), UserLimit(settings, mode))
  {
    if i + 1 < j {
      CalmModeBounds(cfg, settings, ws, hs, i, j - 1, mode, u);
      CalmModeLimits(cfg, settings, ws, hs, i, j - 1, mode);
      LimitsFromSettings(settings, mode, LOW);
      EvaluatorReplays(cfg, settings, ws, hs, j - 1);
      HappeningBounds(cfg, settings, ws[j - 1], hs[j - 1], u);
    }
  }

  function UserLimit(settings: Settings, mode: Mode): int {
    if mode == PERSONAL && settings.maxActiveJobs > settings.perUserMaxActive then settings.maxActiveJobs
    else settings.perUserMaxActive
  }

  /** And they use what they may: after every promotion pass a waiter is left only with the maximum
      reached or its own user at its limit, until the next pass and beyond. */
  lemma {:induction false} CalmModeLeavesNobody(cfg: Config, settings: Settings, ws: seq<World>, hs: seq<Happening>,
                                                i: nat, k: nat, j: nat, mode: Mode, w: Ticket)
    requires UsableConfig(cfg) && ValidHistory(cfg, settings, ws, hs) && OneCalmMode(hs, i, j, mode)
    requires i < k < j && Passes(ws[k], hs[k])
    requires w in ws[j].sched.waiting
    ensures ws[j].sched.slots.active >= settings.maxActiveJobs
         || HeldBy(ws[j].sched.slots, w.user) >= UserLimit(settings, mode)
  {
    CalmModeSettles(cfg, settings, ws, hs, i, k, j, mode);
    CalmModeLimits(cfg, settings, ws, hs, i, j, mode);
    LimitsFromSettings(settings, mode, LOW);
  }

  lemma CalmModeStep(cfg: Config, settings: Settings, ws: seq<World>, hs: seq<Happening>, i: nat, j: nat, mode: Mode)
    requires UsableConfig(cfg) && ValidHistory(cfg, settings, ws, hs) && OneCalmMode(hs, i, j + 1, mode) && i < j
    ensures Inv(ws[j].sched) && Possible(ws[j], hs[j]) && ws[j + 1] == Happen(cfg, settings, ws[j], hs[j])
    ensures ws[j + 1].sched.limits == ws[j].sched.limits
  {
    EvaluatorReplays(cfg, settings, ws, hs, j);
    CalmModeLimits(cfg, settings, ws, hs, i, j, mode);
    CalmModeLimits(cfg, settings, ws, hs, i, j + 1, mode);
  }

  lemma CalmModeStaysSettled(cfg: Config, settings: Settings, ws: seq<World>, hs: seq<Happening>,
                             i: nat, j: nat, mode: Mode)
    requires UsableConfig(cfg) && ValidHistory(cfg, settings, ws, hs) && OneCalmMode(hs, i, j + 1, mode) && i < j
    ensures Passes(ws[j], hs[j]) || Settled(ws[j].sched) ==> Settled(ws[j + 1].sched)
  {
    CalmModeStep(cfg, settings, ws, hs, i, j, mode);
    if Passes(ws[j], hs[j]) || Settled(ws[j].sched) {
      HappeningSettles(cfg, settings, ws[j], hs[j]);
    }
  }

  lemma {:induction false} CalmModeSettles(cfg: Config, settings: Settings, ws: seq<World>, hs: seq<Happening>,
                                           i: nat, k: nat, j: nat, mode: Mode)
    requires UsableConfig(cfg) && ValidHistory(cfg, settings, ws, hs) && OneCalmMode(hs, i, j, mode)
    requires i < k < j && Passes(ws[k], hs[k])
    ensures Settled(ws[j].sched)
  {
    if k < j - 1 {
      CalmModeSettles(cfg, settings, ws, hs, i, k, j - 1, mode);
    }
    CalmModeStaysSettled(cfg, settings, ws, hs, i, j - 1, mode);
  }

  /** No request lets anybody in while the queue is full, however low the pressure has fallen and
      however high the ceiling it applies: the queue, the counters and who was promoted stay as they
      are until somebody is cancelled in the queue, times out or releases. */
  lemma {:induction false} FullQueueIgnoresRecovery(cfg: Config, settings: Settings, ws: seq<World>,
                                                    hs: seq<Happening>, i: nat, j: nat, t: Ticket)
    requires UsableConfig(cfg) && ValidHistory(cfg, settings, ws, hs) && i <= j <= |hs|
    requires |ws[i].sched.waiting| >= ws[i].sched.maxDepth
    requires forall k | i <= k < j && hs[k].Scheduled? :: !Unblocks(ws[k].sched, hs[k].event)
    ensures var s, s' := ws[i].sched, ws[j].sched;
      && s'.waiting == s.waiting && s'.slots == s.slots && s'.maxDepth == s.maxDepth
      && (WasPromoted(s'.ledger, t) ==> WasPromoted(s.ledger, t))
  {
    if i < j {
      FullQueueIgnoresRecovery(cfg, settings, ws, hs, i, j - 1, t);
      EvaluatorReplays(cfg, settings, ws, hs, j - 1);
      if hs[j - 1].Scheduled? {
        StepBlocked(ws[j - 1].sched, hs[j - 1].event, t);
      }
    }
  }

  lemma StepLimits(s: State, e: Event)
    ensures Apply(s, e).limits == if e.SetPolicy? then e.limits else s.limits
  {
  }
}
