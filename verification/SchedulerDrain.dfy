/** When the queue drains: exactly as far as abandoned slots leave room and somebody starts a
    promotion pass. */
module SchedulerDrain {
  import opened Ordering
  import opened Selections
  import opened SchedulerModel
  import opened GreedyPromotion
  import opened SchedulerInvariant
  import opened SchedulerRuns

  /** Events of a run in which nobody arrives, no limit is rewritten and nobody is cancelled
      between being promoted and waking. */
  predicate Draining(s: State, e: Event) {
    match e
    case Admit(_, _) => false
    case SetPolicy(_) => false
    case Cancel(t) => t in s.waiting
    case _ => true
  }

  ghost predicate DrainRun(r: Run) {
    && ValidRun(r)
    && Inv(r.states[0])
    && forall i | 0 <= i < |r.events| :: Draining(r.states[i], r.events[i])
  }

  /** Work left: two steps for whoever waits, and one for each occupied slot and each pending
      wake-up. Promotion itself moves work but does none. */
  function Work(s: State): int {
    2 * |s.waiting| + s.slots.active + |AllAt(s.ledger, Granted)|
  }

  lemma MarkGrants(l: Ledger, taken: set<Ticket>)
    requires taken <= AllAt(l, Waiting)
    ensures |AllAt(l + Mark(taken), Granted)| == |AllAt(l, Granted)| + |taken|
    ensures AllAt(l + Mark(taken), Abandoned) == AllAt(l, Abandoned)
  {
    assert AllAt(l, Granted) !! taken;
    assert AllAt(l + Mark(taken), Granted) == AllAt(l, Granted) + taken;
  }

  lemma PromoteKeepsWork(s: State)
    requires Accounted(s)
    ensures Work(Promote(s)) == Work(s)
    ensures AllAt(Promote(s).ledger, Abandoned) == AllAt(s.ledger, Abandoned)
  {
    PromoteMoves(s);
    PromoteCounts(s, "");
    MarkGrants(s.ledger, Taken(s));
  }

  lemma WakeWork(s: State, t: Ticket)
    requires At(s.ledger, t, Granted)
    ensures Work(Apply(s, Wake(t))) == Work(s) - 1
    ensures AllAt(Apply(s, Wake(t)).ledger, Abandoned) == AllAt(s.ledger, Abandoned)
  {
    var l := s.ledger[t := Holding];
    assert AllAt(s.ledger, Granted) == AllAt(l, Granted) + {t};
    assert AllAt(l, Abandoned) == AllAt(s.ledger, Abandoned);
  }

  lemma DequeueWork(s: State, t: Ticket, p: Place)
    requires Inv(s) && t in s.waiting && (p == TimedOut || p == Cancelled)
    ensures Work(Dequeued(s, t, p)) == Work(s) - 2
    ensures AllAt(Dequeued(s, t, p).ledger, Abandoned) == AllAt(s.ledger, Abandoned)
  {
    RemoveMember(s.waiting, t);
    assert t in SetOf(s.waiting);
    var l := s.ledger[t := p];
    assert AllAt(l, Granted) == AllAt(s.ledger, Granted);
    assert AllAt(l, Abandoned) == AllAt(s.ledger, Abandoned);
  }

  lemma FreeWork(s: State, t: Ticket)
    requires At(s.ledger, t, Holding)
    ensures Work(Freed(s, t)) == Work(s) - 1
    ensures AllAt(Freed(s, t).ledger, Abandoned) == AllAt(s.ledger, Abandoned)
  {
    var l := s.ledger[t := Released];
    assert AllAt(l, Granted) == AllAt(s.ledger, Granted);
    assert AllAt(l, Abandoned) == AllAt(s.ledger, Abandoned);
  }

  lemma StepWorks(s: State, e: Event)
    requires Inv(s) && Enabled(s, e) && Draining(s, e)
    ensures Work(Apply(s, e)) < Work(s)
    ensures AllAt(Apply(s, e).ledger, Abandoned) == AllAt(s.ledger, Abandoned)
    ensures Apply(s, e).limits == s.limits
  {
    match e
    case Wake(t) => WakeWork(s, t);
    case Timeout(t) => DequeueWork(s, t, TimedOut);
    case Cancel(t) =>
      DequeueWork(s, t, Cancelled);
      DequeueKeeps(s, t, Cancelled);
      PromoteKeepsWork(Dequeued(s, t, Cancelled));
    case Release(t) =>
      FreeWork(s, t);
      FreeKeeps(s, t);
      PromoteKeepsWork(Freed(s, t));
  }

  /** A release always lowers the number of waiters and occupied slots together by one. */
  lemma ReleaseShrinks(s: State, t: Ticket)
    requires Inv(s) && Enabled(s, Release(t))
    ensures var s' := Apply(s, Release(t));
      |s'.waiting| + s'.slots.active == |s.waiting| + s.slots.active - 1
  {
    FreeKeeps(s, t);
    PromoteMoves(Freed(s, t));
    PromoteCounts(Freed(s, t), "");
  }

  lemma SomebodyOccupies(s: State)
    requires Inv(s) && Settled(s) && s.limits.ceiling >= 1 && s.limits.cap >= 1
    requires s.waiting != [] || s.slots.active > 0
    ensures Occupants(s.ledger) != {}
  {
    var occ := Occupants(s.ledger);
    assert s.slots.active == |occ|;
    if s.waiting != [] {
      var w := s.waiting[0];
      assert w in s.waiting && HeldBy(s.slots, w.user) == |OfUser(occ, w.user)|;
      SubsetSize(OfUser(occ, w.user), occ);
    }
    assert |occ| >= 1;
  }

  /** A settled scheduler without abandoned slots is never stuck: if anybody waits, somebody
      holds a slot or is about to wake up in one. */
  lemma NeverStuck(s: State) returns (e: Event)
    requires Inv(s) && Settled(s) && s.limits.ceiling >= 1 && s.limits.cap >= 1
    requires AllAt(s.ledger, Abandoned) == {}
    requires s.waiting != [] || s.slots.active > 0
    ensures (e.Wake? || e.Release?) && Enabled(s, e)
  {
    SomebodyOccupies(s);
    var occ := Occupants(s.ledger);
    var t :| t in occ;
    e := if s.ledger[t] == Granted then Wake(t) else Release(t);
    assert t !in AllAt(s.ledger, Abandoned);
  }

  lemma {:induction false} DrainStates(r: Run, i: nat)
    requires DrainRun(r) && i < |r.states|
    ensures Inv(r.states[i]) && r.states[i].limits == r.states[0].limits
    ensures AllAt(r.states[i].ledger, Abandoned) == AllAt(r.states[0].ledger, Abandoned)
    ensures Work(r.states[i]) + i <= Work(r.states[0])
  {
    if i > 0 {
      DrainStates(r, i - 1);
      var s, e := r.states[i - 1], r.events[i - 1];
      StepKeeps(s, e);
      StepWorks(s, e);
    }
  }

  /** One of the first n events makes a promotion pass. */
  ghost predicate PassBefore(r: Run, n: nat)
    requires n <= |r.events| < |r.states|
  {
    exists i :: 0 <= i < n && Promotes(r.states[i], r.events[i])
  }

  /** Everybody who can be promoted was, at the start or by some pass of the run. */
  ghost predicate GetsGoing(r: Run)
    requires |r.events| < |r.states|
  {
    Settled(r.states[0]) || PassBefore(r, |r.events|)
  }

  lemma DrainingSettles(s: State, e: Event)
    requires Inv(s) && Enabled(s, e) && Draining(s, e) && (Promotes(s, e) || Settled(s))
    ensures Settled(Apply(s, e))
  {
    StepSettles(s, e);
  }

  lemma PassEarlier(r: Run, n: nat)
    requires n < |r.events| < |r.states| && !Promotes(r.states[n], r.events[n])
    ensures PassBefore(r, n + 1) ==> PassBefore(r, n)
  {
  }

  lemma {:induction false} SettledOnceGoing(r: Run, n: nat)
    requires DrainRun(r) && n <= |r.events|
    requires Settled(r.states[0]) || PassBefore(r, n)
    ensures Settled(r.states[n])
  {
    if n > 0 {
      DrainStates(r, n - 1);
      if !Promotes(r.states[n - 1], r.events[n - 1]) {
        PassEarlier(r, n - 1);
        SettledOnceGoing(r, n - 1);
      }
      DrainingSettles(r.states[n - 1], r.events[n - 1]);
    }
  }

  lemma {:induction false} NoPassPromotesNobody(r: Run, n: nat, t: Ticket)
    requires DrainRun(r) && n <= |r.events| && !PassBefore(r, n)
    ensures WasPromoted(r.states[n].ledger, t) ==> WasPromoted(r.states[0].ledger, t)
  {
    if n > 0 {
      assert !Promotes(r.states[n - 1], r.events[n - 1]);
      assert !PassBefore(r, n - 1);
      NoPassPromotesNobody(r, n - 1, t);
      DrainStates(r, n - 1);
      OthersPromoteNobody(r.states[n - 1], r.events[n - 1], t);
    }
  }

  /** No task can wake up with a slot or give one back. */
  ghost predicate NobodyCanMove(s: State) {
    forall t :: !Enabled(s, Wake(t)) && !Enabled(s, Release(t))
  }

  lemma NobodyOccupies(s: State)
    requires Inv(s) && s.slots.active == 0
    ensures Occupants(s.ledger) == {} && NobodyCanMove(s)
  {
    assert |Occupants(s.ledger)| == 0;
    forall t ensures !Enabled(s, Wake(t)) && !Enabled(s, Release(t)) {
      assert t !in Occupants(s.ledger);
    }
  }

  lemma EverybodyDone(r: Run, t: Ticket)
    requires DrainRun(r) && t in r.states[0].ledger
    requires r.states[|r.events|].waiting == [] && r.states[|r.events|].slots.active == 0
    ensures var l := r.states[|r.events|].ledger; t in l && l[t] in {Released, TimedOut, Cancelled}
  {
    var n := |r.events|;
    var end := r.states[n];
    DrainStates(r, n);
    NobodyOccupies(end);
    PlacesOverRuns(r, 0, n, t);
    assert t !in Occupants(end.ledger);
    assert t !in SetOf(end.waiting) && t !in AllAt(end.ledger, Waiting);
  }

  /** Every draining run is finite. One that starts without abandoned slots, gets going, and goes
      on until no task can wake or release any more ends with an empty queue and no slot in use;
      and whenever a run ends so, whoever was waiting has been served, has timed out or was
      cancelled. */
  lemma DrainsCompletely(r: Run)
    requires DrainRun(r) && AllAt(r.states[0].ledger, Abandoned) == {}
    requires r.states[0].limits.ceiling >= 1 && r.states[0].limits.cap >= 1
    ensures |r.events| <= Work(r.states[0])
    ensures var end := r.states[|r.events|];
      && (end.waiting == [] && end.slots.active == 0 ==> NobodyCanMove(end))
      && (NobodyCanMove(end) && GetsGoing(r) ==> end.waiting == [] && end.slots.active == 0)
    ensures var end := r.states[|r.events|];
      end.waiting == [] && end.slots.active == 0 ==>
        forall t | t in r.states[0].ledger :: t in end.ledger && end.ledger[t] in {Released, TimedOut, Cancelled}
  {
    var end := r.states[|r.events|];
    DrainStates(r, |r.events|);
    assert end.slots.active == |Occupants(end.ledger)|;
    if end.waiting == [] && end.slots.active == 0 {
      NobodyOccupies(end);
      forall t | t in r.states[0].ledger
        ensures t in end.ledger && end.ledger[t] in {Released, TimedOut, Cancelled}
      {
        EverybodyDone(r, t);
      }
    } else if GetsGoing(r) {
      SettledOnceGoing(r, |r.events|);
      var e := NeverStuck(end);
      assert !NobodyCanMove(end) by {
        assert Enabled(end, Wake(e.t)) || Enabled(end, Release(e.t));
      }
    }
  }

  // ---------- abandoned slots ----------

  /** When no task is left that could wake or release, a waiter is still queued only because of
      abandoned slots: they fill the ceiling, or its user's cap. */
  lemma LeftBehindOnlyByAbandoned(s: State, w: Ticket)
    requires Inv(s) && Settled(s) && w in s.waiting
    requires AllAt(s.ledger, Granted) == {} && AllAt(s.ledger, Holding) == {}
    ensures |AllAt(s.ledger, Abandoned)| >= s.limits.ceiling
         || |OfUser(AllAt(s.ledger, Abandoned), w.user)| >= s.limits.cap
  {
    forall t | t in Occupants(s.ledger) ensures t in AllAt(s.ledger, Abandoned) {
      assert t !in AllAt(s.ledger, Granted) && t !in AllAt(s.ledger, Holding);
    }
    assert Occupants(s.ledger) == AllAt(s.ledger, Abandoned);
    assert HeldBy(s.slots, w.user) == |OfUser(Occupants(s.ledger), w.user)|;
  }

  lemma AbandonedOccupyThroughout(s: State, e: Event)
    requires Inv(s) && Enabled(s, e) && Promotes(s, e)
    ensures AllAt(s.ledger, Abandoned) <= Occupants(BeforePromotion(s, e).ledger)
  {
    forall t | t in AllAt(s.ledger, Abandoned) ensures t in Occupants(BeforePromotion(s, e).ledger) {
      assert e.Admit? ==> Ticket(e.user, e.priority, s.nextSeq) !in s.ledger;
      assert e.Cancel? ==> e.t in SetOf(s.waiting);
    }
  }

  lemma NoRoomStep(s: State, e: Event, t: Ticket)
    requires Inv(s) && Enabled(s, e) && |AllAt(s.ledger, Abandoned)| >= s.limits.ceiling
    ensures WasPromoted(Apply(s, e).ledger, t) ==> WasPromoted(s.ledger, t)
    ensures Apply(s, e).slots.active <= s.slots.active
  {
    if Promotes(s, e) {
      var b := BeforePromotion(s, e);
      BeforePromotionAccounted(s, e);
      AbandonedOccupyThroughout(s, e);
      SubsetSize(AllAt(s.ledger, Abandoned), Occupants(b.ledger));
      PromoteChooses(b);
      PromoteCounts(b, "");
      if WasPromoted(Apply(s, e).ledger, t) && !WasPromoted(s.ledger, t) {
        PromotionsComeFromTheQueue(s, e, t);
      }
    } else {
      OthersPromoteNobody(s, e, t);
    }
  }

  lemma CappedStaysOut(s: State, t: Ticket)
    requires HeldBy(s.slots, t.user) >= s.limits.cap
    ensures t !in Taken(s)
  {
    var queue := Sort(s.waiting, RankLe);
    var picked := ScanQueue(queue, s.slots, s.limits).picked;
    SortKeepsLength(s.waiting);
    SelectMember(queue, picked, t);
    forall i | 0 <= i < |queue| && queue[i] == t ensures !picked[i] {
      SameUserStaysOut(queue, s.slots, s.limits, t.user, i);
    }
  }

  lemma LockedOutStep(s: State, e: Event, t: Ticket)
    requires Inv(s) && Enabled(s, e) && |OfUser(AllAt(s.ledger, Abandoned), t.user)| >= s.limits.cap
    ensures WasPromoted(Apply(s, e).ledger, t) ==> WasPromoted(s.ledger, t)
  {
    if Promotes(s, e) {
      var b := BeforePromotion(s, e);
      BeforePromotionAccounted(s, e);
      AbandonedOccupyThroughout(s, e);
      SubsetSize(OfUser(AllAt(s.ledger, Abandoned), t.user), OfUser(Occupants(b.ledger), t.user));
      assert HeldBy(b.slots, t.user) == |OfUser(Occupants(b.ledger), t.user)|;
      CappedStaysOut(b, t);
      if WasPromoted(Apply(s, e).ledger, t) && !WasPromoted(s.ledger, t) {
        PromotionsComeFromTheQueue(s, e, t);
      }
    } else {
      OthersPromoteNobody(s, e, t);
    }
  }

  lemma AbandonedForGood(r: Run, i: nat, j: nat)
    requires ValidRun(r) && Inv(r.states[0]) && i <= j < |r.states|
    ensures AllAt(r.states[i].ledger, Abandoned) <= AllAt(r.states[j].ledger, Abandoned)
  {
    forall t | t in AllAt(r.states[i].ledger, Abandoned) ensures t in AllAt(r.states[j].ledger, Abandoned) {
      PlacesOverRuns(r, i, j, t);
    }
  }

  /** From state i to state j no ceiling above so many slots is in force. */
  ghost predicate CeilingsUpTo(r: Run, i: nat, j: nat, slots: nat)
    requires j <= |r.states|
  {
    forall k | i <= k < j :: r.states[k].limits.ceiling <= slots
  }

  ghost predicate CapsUpTo(r: Run, i: nat, j: nat, slots: nat)
    requires j <= |r.states|
  {
    forall k | i <= k < j :: r.states[k].limits.cap <= slots
  }

  /** As long as no ceiling above the number of abandoned slots is applied, nobody is promoted
      and the slot counter only falls. With a ceiling of zero this needs no abandoned slot. */
  lemma {:induction false} NoPromotionWithoutRoom(r: Run, i: nat, j: nat, t: Ticket)
    requires ValidRun(r) && Inv(r.states[0]) && i <= j < |r.states|
    requires CeilingsUpTo(r, i, j, |AllAt(r.states[i].ledger, Abandoned)|)
    ensures WasPromoted(r.states[j].ledger, t) ==> WasPromoted(r.states[i].ledger, t)
    ensures r.states[j].slots.active <= r.states[i].slots.active
  {
    if i < j {
      NoPromotionWithoutRoom(r, i, j - 1, t);
      var s, e := r.states[j - 1], r.events[j - 1];
      RunKeeps(r, j - 1);
      AbandonedForGood(r, i, j - 1);
      SubsetSize(AllAt(r.states[i].ledger, Abandoned), AllAt(s.ledger, Abandoned));
      NoRoomStep(s, e, t);
    }
  }

  /** The same for one user: while its own abandoned slots fill its cap, none of its waiters is
      promoted, whatever the others do and however many slots are free. */
  lemma {:induction false} LockedOut(r: Run, i: nat, j: nat, t: Ticket)
    requires ValidRun(r) && Inv(r.states[0]) && i <= j < |r.states|
    requires CapsUpTo(r, i, j, |OfUser(AllAt(r.states[i].ledger, Abandoned), t.user)|)
    ensures WasPromoted(r.states[j].ledger, t) ==> WasPromoted(r.states[i].ledger, t)
  {
    if i < j {
      LockedOut(r, i, j - 1, t);
      var s, e := r.states[j - 1], r.events[j - 1];
      RunKeeps(r, j - 1);
      AbandonedForGood(r, i, j - 1);
      SubsetSize(OfUser(AllAt(r.states[i].ledger, Abandoned), t.user), OfUser(AllAt(s.ledger, Abandoned), t.user));
      LockedOutStep(s, e, t);
    }
  }

  /** There is a slot that no abandoned waiter occupies, both under the ceiling and under the
      user's cap. */
  ghost predicate HasRoom(s: State, u: User) {
    var abandoned := AllAt(s.ledger, Abandoned);
    |abandoned| < s.limits.ceiling && |OfUser(abandoned, u)| < s.limits.cap
  }

  lemma OnlyWithRoom(r: Run, w: Ticket)
    requires DrainRun(r) && !WasPromoted(r.states[0].ledger, w)
    requires WasPromoted(r.states[|r.events|].ledger, w)
    ensures HasRoom(r.states[0], w.user)
  {
    var n, abandoned := |r.events|, AllAt(r.states[0].ledger, Abandoned);
    forall k | 0 <= k < n ensures r.states[k].limits == r.states[0].limits {
      DrainStates(r, k);
    }
    if |abandoned| >= r.states[0].limits.ceiling {
      assert CeilingsUpTo(r, 0, n, |abandoned|);
      NoPromotionWithoutRoom(r, 0, n, w);
    }
    if |OfUser(abandoned, w.user)| >= r.states[0].limits.cap {
      assert CapsUpTo(r, 0, n, |OfUser(abandoned, w.user)|);
      LockedOut(r, 0, n, w);
    }
  }

  lemma ServedOrStillQueued(r: Run, w: Ticket)
    requires DrainRun(r) && w in r.states[0].waiting && NobodyCanMove(r.states[|r.events|])
    ensures var l := r.states[|r.events|].ledger;
      w in l && l[w] in {Waiting, Released, TimedOut, Cancelled}
    ensures At(r.states[|r.events|].ledger, w, Waiting) ==> w in r.states[|r.events|].waiting
    ensures At(r.states[0].ledger, w, Waiting)
  {
    var n := |r.events|;
    var start, end := r.states[0], r.states[n];
    assert w in SetOf(start.waiting);
    DrainStates(r, n);
    PlacesOverRuns(r, 0, n, w);
    assert !Enabled(end, Wake(w)) && !Enabled(end, Release(w));
    assert w !in AllAt(start.ledger, Abandoned) && w !in AllAt(end.ledger, Abandoned);
    assert At(end.ledger, w, Waiting) ==> w in SetOf(end.waiting);
  }

  /** Exactly when draining works. In a draining run that goes on until no task can move, a waiter
      that neither times out nor is cancelled is served if and only if, at the start, the
      abandoned slots left room under the ceiling and its user's left room under the cap, and the
      run gets going: a raised limit alone promotes nobody. */
  lemma ServedIffRoom(r: Run, w: Ticket)
    requires DrainRun(r) && w in r.states[0].waiting && NobodyCanMove(r.states[|r.events|])
    requires var l := r.states[|r.events|].ledger; !At(l, w, TimedOut) && !At(l, w, Cancelled)
    ensures At(r.states[|r.events|].ledger, w, Released) <==> HasRoom(r.states[0], w.user) && GetsGoing(r)
  {
    var end := r.states[|r.events|];
    ServedOrStillQueued(r, w);
    if At(end.ledger, w, Released) {
      OnlyWithRoom(r, w);
      if !GetsGoing(r) {
        NoPassPromotesNobody(r, |r.events|, w);
      }
    } else if GetsGoing(r) {
      DrainStates(r, |r.events|);
      SettledOnceGoing(r, |r.events|);
      NothingGranted(end);
      LeftBehindOnlyByAbandoned(end, w);
    }
  }

  lemma NothingGranted(s: State)
    requires NobodyCanMove(s)
    ensures AllAt(s.ledger, Granted) == {} && AllAt(s.ledger, Holding) == {}
  {
    forall t ensures t !in AllAt(s.ledger, Granted) && t !in AllAt(s.ledger, Holding) {
      assert !Enabled(s, Wake(t)) && !Enabled(s, Release(t));
    }
  }

  // ---------- a full queue behind a raised ceiling ----------

  /** An event that takes somebody out of the queue or frees a slot. */
  predicate Unblocks(s: State, e: Event) {
    e.Release? || e.Timeout? || (e.Cancel? && e.t in s.waiting)
  }

  lemma StepBlocked(s: State, e: Event, t: Ticket)
    requires Inv(s) && Enabled(s, e) && |s.waiting| >= s.maxDepth && !Unblocks(s, e)
    ensures var s' := Apply(s, e);
      && s'.waiting == s.waiting && s'.slots == s.slots && s'.maxDepth == s.maxDepth
      && (WasPromoted(s'.ledger, t) ==> WasPromoted(s.ledger, t))
  {
  }

  ghost predicate BlockedThroughout(r: Run, i: nat, j: nat)
    requires j <= |r.events| < |r.states|
  {
    forall k | i <= k < j :: !Unblocks(r.states[k], r.events[k])
  }

  /** While the queue is full, admissions and new limits change neither the queue nor a counter and
      promote nobody, however many slots are free, until somebody is cancelled in the queue, times
      out or releases. */
  lemma {:induction false} FullQueueStalls(r: Run, i: nat, j: nat, t: Ticket)
    requires ValidRun(r) && Inv(r.states[0]) && i <= j < |r.states|
    requires |r.states[i].waiting| >= r.states[i].maxDepth && BlockedThroughout(r, i, j)
    ensures var s, s' := r.states[i], r.states[j];
      && s'.waiting == s.waiting && s'.slots == s.slots && s'.maxDepth == s.maxDepth
      && (WasPromoted(s'.ledger, t) ==> WasPromoted(s.ledger, t))
  {
    if i < j {
      FullQueueStalls(r, i, j - 1, t);
      RunKeeps(r, j - 1);
      StepBlocked(r.states[j - 1], r.events[j - 1], t);
    }
  }

  /** Under a ceiling of zero one request fills the queue, the ceiling is raised to one, and the
      next request is turned away. */
  function RaisedCeiling(u: User, v: User): Run {
    var s0 := Init(Limits(0, 1), 1);
    var s1 := s0.(waiting := [Ticket(u, 0, 0)], nextSeq := 1, ledger := map[Ticket(u, 0, 0) := Waiting]);
    var s2 := s1.(limits := Limits(1, 1));
    Run([s0, s1, s2, s2.(nextSeq := 2)], [Admit(u, 0), SetPolicy(Limits(1, 1)), Admit(v, 0)])
  }

  lemma AdmitWithoutRoom(s: State, u: User)
    requires s.waiting == [] && s.limits.ceiling <= s.slots.active && s.maxDepth >= 1
    ensures Apply(s, Admit(u, 0)) == Enqueued(s, Ticket(u, 0, s.nextSeq))
  {
    assert Enqueued(s, Ticket(u, 0, s.nextSeq)).waiting == [Ticket(u, 0, s.nextSeq)];
    PromoteNobody(Enqueued(s, Ticket(u, 0, s.nextSeq)));
  }

  /** The stall: a free slot, a waiter with room, nobody who could move, and a queue that is full,
      so that no further request promotes the waiter. */
  lemma RaisedCeilingStalls(u: User, v: User)
    ensures var r := RaisedCeiling(u, v);
      && ValidRun(r) && r.states[0] == Init(Limits(0, 1), 1)
      && var end := r.states[3];
         && end.waiting == [Ticket(u, 0, 0)] && |end.waiting| >= end.maxDepth
         && end.slots.active == 0 < end.limits.ceiling
         && HasRoom(end, u) && NobodyCanMove(end)
  {
    var r := RaisedCeiling(u, v);
    AdmitWithoutRoom(r.states[0], u);
    assert map[][Ticket(u, 0, 0) := Waiting] == r.states[1].ledger;
    NobodyAbandoned(r.states[3], u);
  }

  lemma NobodyAbandoned(s: State, u: User)
    requires forall t | t in s.ledger :: s.ledger[t] != Abandoned
    ensures |AllAt(s.ledger, Abandoned)| == 0 && |OfUser(AllAt(s.ledger, Abandoned), u)| == 0
  {
    assert AllAt(s.ledger, Abandoned) == {};
    assert OfUser({}, u) == {};
  }

  // ---------- one slot lost ----------

  lemma PromoteOnlyWaiter(s: State, t: Ticket)
    requires s.waiting == [t] && s.limits == Limits(1, 1) && s.slots == Slots(0, map[])
    ensures Promote(s) == s.(waiting := [], slots := Slots(1, map[t.user := 1]), ledger := s.ledger[t := Granted])
  {
    assert Sort([t], RankLe) == [t];
    assert [t][1..] == [];
    assert ScanQueue([t], s.slots, s.limits) == Scan(Slots(1, map[t.user := 1]), [true]);
    SelectOnly(t);
    assert SetOf([t]) == {t};
    assert s.ledger + Mark({t}) == s.ledger[t := Granted];
  }

  lemma ReleaseOnlySlot(s: State, t: Ticket, next: Ticket)
    requires s.waiting == [next] && s.limits == Limits(1, 1) && s.slots == Slots(1, map[t.user := 1])
    ensures Apply(s, Release(t)) == s.(waiting := [], slots := Slots(1, map[next.user := 1]),
                                       ledger := s.ledger[t := Released][next := Granted])
  {
    assert map[t.user := 1] - {t.user} == map[];
    PromoteOnlyWaiter(Freed(s, t), next);
  }

  /** A runs, B queues behind it, A's release promotes B, B is cancelled before its task wakes,
      and C arrives. */
  function OneAbandonedSlot(u: User, v: User, x: User, depth: nat): Run {
    var a, b, c := Ticket(u, 0, 0), Ticket(v, 0, 1), Ticket(x, 0, 2);
    var s0 := Init(Limits(1, 1), depth);
    var s1 := s0.(slots := Slots(1, map[u := 1]), nextSeq := 1, ledger := map[a := Granted]);
    var s2 := s1.(ledger := map[a := Holding]);
    var s3 := s2.(waiting := [b], nextSeq := 2, ledger := map[a := Holding, b := Waiting]);
    var s4 := s3.(waiting := [], slots := Slots(1, map[v := 1]), ledger := map[a := Released, b := Granted]);
    var s5 := s4.(ledger := map[a := Released, b := Abandoned]);
    var s6 := s5.(waiting := [c], nextSeq := 3, ledger := map[a := Released, b := Abandoned, c := Waiting]);
    Run([s0, s1, s2, s3, s4, s5, s6], [Admit(u, 0), Wake(a), Admit(v, 0), Release(a), Cancel(b), Admit(x, 0)])
  }

  predicate StepOf(r: Run, i: nat)
    requires i < |r.events| < |r.states|
  {
    Enabled(r.states[i], r.events[i]) && r.states[i + 1] == Apply(r.states[i], r.events[i])
  }

  /** The first n steps of a run are steps. */
  ghost predicate RunsUpTo(r: Run, n: nat)
    requires n <= |r.events| < |r.states|
  {
    forall i | 0 <= i < n :: StepOf(r, i)
  }

  lemma OneStepMore(r: Run, n: nat)
    requires n < |r.events| < |r.states| && RunsUpTo(r, n)
    requires Enabled(r.states[n], r.events[n]) && r.states[n + 1] == Apply(r.states[n], r.events[n])
    ensures RunsUpTo(r, n + 1)
  {
    assert StepOf(r, n);
  }

  lemma FirstIsAdmitted(u: User, v: User, x: User, depth: nat)
    requires depth >= 1
    ensures RunsUpTo(OneAbandonedSlot(u, v, x, depth), 2)
  {
    var r := OneAbandonedSlot(u, v, x, depth);
    PromoteOnlyWaiter(Enqueued(r.states[0], Ticket(u, 0, 0)), Ticket(u, 0, 0));
    OneStepMore(r, 0);
    assert r.states[1].ledger[Ticket(u, 0, 0) := Holding] == r.states[2].ledger;
    OneStepMore(r, 1);
  }

  lemma SecondQueues(u: User, v: User, x: User, depth: nat)
    requires depth >= 1 && RunsUpTo(OneAbandonedSlot(u, v, x, depth), 2)
    ensures RunsUpTo(OneAbandonedSlot(u, v, x, depth), 3)
  {
    var r := OneAbandonedSlot(u, v, x, depth);
    AdmitWithoutRoom(r.states[2], v);
    assert r.states[2].ledger[Ticket(v, 0, 1) := Waiting] == r.states[3].ledger;
    OneStepMore(r, 2);
  }

  lemma SecondIsPromoted(u: User, v: User, x: User, depth: nat)
    requires RunsUpTo(OneAbandonedSlot(u, v, x, depth), 3)
    ensures RunsUpTo(OneAbandonedSlot(u, v, x, depth), 4)
  {
    var r := OneAbandonedSlot(u, v, x, depth);
    var a, b := Ticket(u, 0, 0), Ticket(v, 0, 1);
    ReleaseOnlySlot(r.states[3], a, b);
    assert r.states[3].ledger[a := Released][b := Granted] == r.states[4].ledger;
    OneStepMore(r, 3);
  }

  lemma SecondIsCancelled(u: User, v: User, x: User, depth: nat)
    requires RunsUpTo(OneAbandonedSlot(u, v, x, depth), 4)
    ensures RunsUpTo(OneAbandonedSlot(u, v, x, depth), 5)
  {
    var r := OneAbandonedSlot(u, v, x, depth);
    assert r.states[4].ledger[Ticket(v, 0, 1) := Abandoned] == r.states[5].ledger;
    OneStepMore(r, 4);
  }

  lemma ThirdQueues(u: User, v: User, x: User, depth: nat)
    requires depth >= 1 && RunsUpTo(OneAbandonedSlot(u, v, x, depth), 5)
    ensures RunsUpTo(OneAbandonedSlot(u, v, x, depth), 6)
  {
    var r := OneAbandonedSlot(u, v, x, depth);
    AdmitWithoutRoom(r.states[5], x);
    assert r.states[5].ledger[Ticket(x, 0, 2) := Waiting] == r.states[6].ledger;
    OneStepMore(r, 5);
  }

  /** Whoever is cancelled after its promotion had slept in the queue before. */
  ghost predicate CancelsSleepers(r: Run)
    requires |r.events| < |r.states|
  {
    forall i | 0 <= i < |r.events| && r.events[i].Cancel? && r.events[i].t !in r.states[i].waiting ::
      exists j :: 0 <= j < i && r.events[i].t in r.states[j].waiting
  }

  lemma StepsMakeARun(r: Run)
    requires |r.states| == |r.events| + 1 && RunsUpTo(r, |r.events|)
    ensures ValidRun(r)
  {
    forall i | 0 <= i < |r.events|
      ensures Enabled(r.states[i], r.events[i]) && r.states[i + 1] == Apply(r.states[i], r.events[i])
    {
      assert StepOf(r, i);
    }
  }

  lemma OneAbandonedSlotRuns(u: User, v: User, x: User, depth: nat)
    requires depth >= 1
    ensures ValidRun(OneAbandonedSlot(u, v, x, depth))
  {
    FirstIsAdmitted(u, v, x, depth);
    SecondQueues(u, v, x, depth);
    SecondIsPromoted(u, v, x, depth);
    SecondIsCancelled(u, v, x, depth);
    ThirdQueues(u, v, x, depth);
    StepsMakeARun(OneAbandonedSlot(u, v, x, depth));
  }

  lemma SecondSlept(u: User, v: User, x: User, depth: nat)
    ensures CancelsSleepers(OneAbandonedSlot(u, v, x, depth))
  {
    var r := OneAbandonedSlot(u, v, x, depth);
    assert r.events[4].t in r.states[3].waiting;
  }

  /** The defect: with one slot, one request cancelled after it slept and was promoted, and before
      its task wakes, leaves the slot counted for ever, and the next request waits with nobody
      ahead. */
  lemma OneAbandonedSlotDeadlocks(u: User, v: User, x: User, depth: nat)
    requires depth >= 1
    ensures var r := OneAbandonedSlot(u, v, x, depth);
      && ValidRun(r) && CancelsSleepers(r) && r.states[0] == Init(Limits(1, 1), depth)
      && r.states[6].waiting == [Ticket(x, 0, 2)] && r.states[6].slots.active == 1
      && NobodyCanMove(r.states[6])
  {
    OneAbandonedSlotRuns(u, v, x, depth);
    SecondSlept(u, v, x, depth);
  }
}
