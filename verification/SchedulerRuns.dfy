/** Theorems about whole runs of the scheduler: accounting, where waiters can go, order,
    safety under limits that move, and saturation. */
module SchedulerRuns {
  import opened MapSums
  import opened Ordering
  import opened Selections
  import opened SchedulerModel
  import opened GreedyPromotion
  import opened SchedulerInvariant

  // ---------- accounting ----------

  lemma {:induction false} CountsAddUp(m: map<User, int>, ts: set<Ticket>)
    requires forall u: User :: (if u in m then m[u] else 0) == |OfUser(ts, u)|
    ensures MapSum(m) == |ts|
    decreases |ts|
  {
    if ts == {} {
      forall u | u in m ensures m[u] == 0 {
        assert OfUser(ts, u) == {};
      }
      MapSumZero(m);
    } else {
      var t :| t in ts;
      var rest := ts - {t};
      var m' := m[t.user := (if t.user in m then m[t.user] else 0) - 1];
      forall u: User ensures (if u in m' then m'[u] else 0) == |OfUser(rest, u)| {
        assert ts == rest + {t};
        OfUserUnion(rest, {t}, u);
        OfUserSingle(t, u);
      }
      CountsAddUp(m', rest);
      MapSumUpdate(m, t.user, m'[t.user]);
    }
  }

  function AllIn(l: Ledger, places: set<Place>): set<Ticket> {
    set t | t in l && l[t] in places
  }

  lemma DropPlace(l: Ledger, places: set<Place>, p: Place)
    requires p in places
    ensures |AllIn(l, places)| == |AllAt(l, p)| + |AllIn(l, places - {p})|
  {
    assert AllIn(l, places) == AllAt(l, p) + AllIn(l, places - {p});
  }

  lemma OccupantPlaces(l: Ledger)
    ensures |Occupants(l)| == |AllAt(l, Granted)| + |AllAt(l, Holding)| + |AllAt(l, Abandoned)|
    ensures Occupants(l) == AllIn(l, {Granted, Holding, Abandoned})
  {
    assert Occupants(l) == AllIn(l, {Granted, Holding, Abandoned});
    DropPlace(l, {Granted, Holding, Abandoned}, Granted);
    assert {Granted, Holding, Abandoned} - {Granted} == {Holding, Abandoned};
    DropPlace(l, {Holding, Abandoned}, Holding);
    assert {Holding, Abandoned} - {Holding} == {Abandoned};
    assert AllIn(l, {Abandoned}) == AllAt(l, Abandoned);
  }

  lemma AllPlaces(l: Ledger)
    ensures |l| == |AllAt(l, Waiting)| + |Occupants(l)| + |AllAt(l, Released)|
                 + |AllAt(l, TimedOut)| + |AllAt(l, Cancelled)|
  {
    OccupantPlaces(l);
    var occ := {Granted, Holding, Abandoned};
    DropPlace(l, occ + {Waiting, Released, TimedOut, Cancelled}, Waiting);
    assert occ + {Waiting, Released, TimedOut, Cancelled} - {Waiting} == occ + {Released, TimedOut, Cancelled};
    DropPlace(l, occ + {Released, TimedOut, Cancelled}, Released);
    assert occ + {Released, TimedOut, Cancelled} - {Released} == occ + {TimedOut, Cancelled};
    DropPlace(l, occ + {TimedOut, Cancelled}, TimedOut);
    assert occ + {TimedOut, Cancelled} - {TimedOut} == occ + {Cancelled};
    DropPlace(l, occ + {Cancelled}, Cancelled);
    assert occ + {Cancelled} - {Cancelled} == occ;
    forall t | t in l ensures l[t] in occ + {Waiting, Released, TimedOut, Cancelled} {
      match l[t] case _ =>
    }
    assert AllIn(l, occ + {Waiting, Released, TimedOut, Cancelled}) == l.Keys;
    assert |l| == |l.Keys|;
  }

  /** In every state of every run the slot counter is the sum of the per-user counters and the
      number of woken holders, granted waiters and abandoned slots; the queue respects its
      depth; and everybody ever admitted is in exactly one place. */
  lemma AccountingOverRuns(r: Run, i: nat)
    requires ValidRun(r) && Inv(r.states[0]) && i < |r.states|
    ensures var s := r.states[i];
      && s.slots.active == MapSum(s.slots.byUser)
      && s.slots.active == |AllAt(s.ledger, Granted)| + |AllAt(s.ledger, Holding)| + |AllAt(s.ledger, Abandoned)|
      && |s.waiting| == |AllAt(s.ledger, Waiting)| <= Max(0, s.maxDepth)
      && |s.ledger| == |s.waiting| + s.slots.active + |AllAt(s.ledger, Released)|
                     + |AllAt(s.ledger, TimedOut)| + |AllAt(s.ledger, Cancelled)|
  {
    RunKeeps(r, i);
    var s := r.states[i];
    forall u: User ensures (if u in s.slots.byUser then s.slots.byUser[u] else 0) == |OfUser(Occupants(s.ledger), u)| {
      assert HeldBy(s.slots, u) == |OfUser(Occupants(s.ledger), u)|;
    }
    CountsAddUp(s.slots.byUser, Occupants(s.ledger));
    OccupantPlaces(s.ledger);
    AllPlaces(s.ledger);
    NoDupCardinality(s.waiting);
  }

  /** With nobody granted or holding, the scheduler counts zero exactly when no promoted
      waiter was ever cancelled before it woke. */
  lemma IdleMeansZeroIffNoneAbandoned(s: State)
    requires Inv(s) && AllAt(s.ledger, Granted) == {} && AllAt(s.ledger, Holding) == {}
    ensures s.slots.active == |AllAt(s.ledger, Abandoned)|
    ensures s.slots.active == 0 <==> AllAt(s.ledger, Abandoned) == {}
  {
    OccupantPlaces(s.ledger);
  }

  // ---------- where a waiter can go ----------

  predicate Follows(p: Place, q: Place) {
    match p
    case Waiting => q == Waiting || q == Granted || q == TimedOut || q == Cancelled
    case Granted => q == Granted || q == Holding || q == Abandoned
    case Holding => q == Holding || q == Released
    case _ => q == p
  }

  /** The state in which an event starts its promotion pass, if it makes one. */
  predicate Promotes(s: State, e: Event) {
    match e
    case Admit(_, _) => |s.waiting| < s.maxDepth
    case Cancel(t) => t in s.waiting
    case Release(_) => true
    case _ => false
  }

  function BeforePromotion(s: State, e: Event): State
    requires Promotes(s, e)
  {
    match e
    case Admit(u, p) => Enqueued(s, Ticket(u, p, s.nextSeq))
    case Cancel(t) => Dequeued(s, t, Cancelled)
    case Release(t) => Freed(s, t)
  }

  lemma BeforePromotionAccounted(s: State, e: Event)
    requires Inv(s) && Enabled(s, e) && Promotes(s, e)
    ensures Accounted(BeforePromotion(s, e))
    ensures Apply(s, e) == Promote(BeforePromotion(s, e))
    ensures BeforePromotion(s, e).limits == s.limits
  {
    match e
    case Admit(u, p) => EnqueueKeeps(s, u, p);
    case Cancel(t) => DequeueKeeps(s, t, Cancelled);
    case Release(t) => FreeKeeps(s, t);
  }

  lemma PromotionPlaces(s: State, t: Ticket)
    requires Accounted(s) && t in s.ledger
    ensures t in Promote(s).ledger
    ensures Promote(s).ledger[t] == if t in Taken(s) then Granted else s.ledger[t]
    ensures t in Taken(s) ==> s.ledger[t] == Waiting
  {
    PromoteMoves(s);
    assert Taken(s) <= AllAt(s.ledger, Waiting);
  }

  /** Before its promotion pass an event moves a waiter at most out of its old place. */
  lemma PlaceBeforePromotion(s: State, e: Event, t: Ticket)
    requires Inv(s) && Enabled(s, e) && Promotes(s, e) && t in s.ledger
    ensures var l := BeforePromotion(s, e).ledger;
      && t in l && Follows(s.ledger[t], l[t])
      && (l[t] == Waiting ==> s.ledger[t] == Waiting)
  {
    match e
    case Admit(u, p) => assert Ticket(u, p, s.nextSeq) !in s.ledger;
    case Cancel(v) => assert v in SetOf(s.waiting);
    case Release(_) =>
  }

  lemma PlaceWithoutPromotion(s: State, e: Event, t: Ticket)
    requires Inv(s) && Enabled(s, e) && !Promotes(s, e) && t in s.ledger
    ensures var l := Apply(s, e).ledger; t in l && Follows(s.ledger[t], l[t])
  {
    if e.Timeout? {
      assert e.t in SetOf(s.waiting);
    }
  }

  lemma StepMoves(s: State, e: Event, t: Ticket)
    requires Inv(s) && Enabled(s, e) && t in s.ledger
    ensures t in Apply(s, e).ledger && Follows(s.ledger[t], Apply(s, e).ledger[t])
  {
    if Promotes(s, e) {
      BeforePromotionAccounted(s, e);
      PlaceBeforePromotion(s, e, t);
      PromotionPlaces(BeforePromotion(s, e), t);
    } else {
      PlaceWithoutPromotion(s, e, t);
    }
  }

  predicate Final(p: Place) { p == TimedOut || p == Cancelled || p == Abandoned || p == Released }

  predicate Promoted(p: Place) { Occupies(p) || p == Released }

  /** Nobody returns to the queue, a promoted waiter stays one, and a final place is final. */
  predicate Onward(p: Place, q: Place) {
    (p != Waiting ==> q != Waiting) && (Promoted(p) ==> Promoted(q)) && (Final(p) ==> q == p)
  }

  lemma {:induction false} PlacesMoveOnward(r: Run, i: nat, j: nat, t: Ticket)
    requires ValidRun(r) && Inv(r.states[0]) && i <= j < |r.states|
    requires t in r.states[i].ledger
    ensures t in r.states[j].ledger && Onward(r.states[i].ledger[t], r.states[j].ledger[t])
  {
    if i < j {
      PlacesMoveOnward(r, i, j - 1, t);
      RunKeeps(r, j - 1);
      StepMoves(r.states[j - 1], r.events[j - 1], t);
    }
  }

  /** Places only move forward: once released, timed out, cancelled or abandoned a waiter stays
      so, and a promoted waiter never times out and never counts as cancelled in the queue. */
  lemma PlacesOverRuns(r: Run, i: nat, j: nat, t: Ticket)
    requires ValidRun(r) && Inv(r.states[0]) && i <= j < |r.states|
    requires t in r.states[i].ledger
    ensures t in r.states[j].ledger
    ensures var p, q := r.states[i].ledger[t], r.states[j].ledger[t];
      && (p != Waiting ==> q != Waiting)
      && (WasPromoted(r.states[i].ledger, t) ==> WasPromoted(r.states[j].ledger, t))
      && (p == Released || p == TimedOut || p == Cancelled || p == Abandoned ==> q == p)
  {
    PlacesMoveOnward(r, i, j, t);
  }

  /** The event that puts a waiter in a place it never leaves. */
  predicate Ends(s: State, e: Event, t: Ticket, p: Place) {
    match p
    case TimedOut => e == Timeout(t)
    case Cancelled => e == Cancel(t) && t in s.waiting
    case Abandoned => e == Cancel(t) && t !in s.waiting
    case Released => e == Release(t)
    case _ => false
  }

  /** The event that lets a waiter into the queue. */
  predicate Enters(s: State, e: Event, t: Ticket) {
    e.Admit? && |s.waiting| < s.maxDepth && t == Ticket(e.user, e.priority, s.nextSeq)
  }

  lemma EndsBeforePromotion(s: State, e: Event, t: Ticket, p: Place)
    requires Inv(s) && Enabled(s, e) && Promotes(s, e) && Final(p)
    ensures At(BeforePromotion(s, e).ledger, t, p) <==> At(s.ledger, t, p) || Ends(s, e, t, p)
    ensures t in BeforePromotion(s, e).ledger <==> t in s.ledger || Enters(s, e, t)
  {
    match e
    case Admit(u, pr) => assert Ticket(u, pr, s.nextSeq) !in s.ledger;
    case Cancel(v) => assert v in SetOf(s.waiting);
    case Release(_) =>
  }

  lemma PromotionEndsNothing(s: State, t: Ticket, p: Place)
    requires Accounted(s) && Final(p)
    ensures At(Promote(s).ledger, t, p) <==> At(s.ledger, t, p)
    ensures t in Promote(s).ledger <==> t in s.ledger
  {
    PromoteMoves(s);
    assert Taken(s) <= AllAt(s.ledger, Waiting);
    MarkMoves(s.ledger, Taken(s));
    assert t in Promote(s).ledger.Keys <==> t in s.ledger.Keys;
    if t in s.ledger {
      PromotionPlaces(s, t);
    }
  }

  lemma StepEnds(s: State, e: Event, t: Ticket, p: Place)
    requires Inv(s) && Enabled(s, e) && Final(p)
    ensures At(Apply(s, e).ledger, t, p) <==> At(s.ledger, t, p) || Ends(s, e, t, p)
    ensures t in Apply(s, e).ledger <==> t in s.ledger || Enters(s, e, t)
  {
    if Promotes(s, e) {
      BeforePromotionAccounted(s, e);
      EndsBeforePromotion(s, e, t, p);
      PromotionEndsNothing(BeforePromotion(s, e), t, p);
    } else {
      EndsWithoutPromotion(s, e, t, p);
    }
  }

  lemma EndsWithoutPromotion(s: State, e: Event, t: Ticket, p: Place)
    requires Inv(s) && Enabled(s, e) && !Promotes(s, e) && Final(p)
    ensures At(Apply(s, e).ledger, t, p) <==> At(s.ledger, t, p) || Ends(s, e, t, p)
    ensures t in Apply(s, e).ledger <==> t in s.ledger || Enters(s, e, t)
  {
    if e.Timeout? {
      assert e.t in SetOf(s.waiting);
    } else if e.Cancel? {
      assert e.t !in SetOf(s.waiting);
    }
  }

  ghost predicate EndedBefore(r: Run, i: nat, t: Ticket, p: Place)
    requires i <= |r.events| < |r.states|
  {
    exists k :: 0 <= k < i && Ends(r.states[k], r.events[k], t, p)
  }

  ghost predicate EnteredBefore(r: Run, i: nat, t: Ticket)
    requires i <= |r.events| < |r.states|
  {
    exists k :: 0 <= k < i && Enters(r.states[k], r.events[k], t)
  }

  /** Is a waiter in that final place after i events for a reason? */
  ghost predicate HasCause(r: Run, i: nat, t: Ticket, p: Place)
    requires i <= |r.events| < |r.states|
  {
    At(r.states[i].ledger, t, p) <==> At(r.states[0].ledger, t, p) || EndedBefore(r, i, t, p)
  }

  lemma CauseStep(r: Run, i: nat, t: Ticket, p: Place)
    requires ValidRun(r) && Inv(r.states[0]) && i < |r.events| && Final(p) && HasCause(r, i, t, p)
    ensures HasCause(r, i + 1, t, p)
  {
    RunEnds(r, i, t, p);
    OneEventMore(r, i, t, p);
  }

  /** Is a waiter on record after i events exactly if it was admitted? */
  ghost predicate HasEntered(r: Run, i: nat, t: Ticket)
    requires i <= |r.events| < |r.states|
  {
    t in r.states[i].ledger <==> t in r.states[0].ledger || EnteredBefore(r, i, t)
  }

  lemma EntryStep(r: Run, i: nat, t: Ticket)
    requires ValidRun(r) && Inv(r.states[0]) && i < |r.events| && HasEntered(r, i, t)
    ensures HasEntered(r, i + 1, t)
  {
    RunEnds(r, i, t, Released);
    OneEventMore(r, i, t, Released);
  }

  /** Where a waiter ends up is what happened to it: it timed out, was cancelled in the queue, was
      abandoned or was released exactly if that event occurred. */
  lemma {:induction false} PlacesHaveCauses(r: Run, i: nat, t: Ticket, p: Place)
    requires ValidRun(r) && Inv(r.states[0]) && i <= |r.events| && Final(p)
    ensures HasCause(r, i, t, p)
  {
    if i > 0 {
      PlacesHaveCauses(r, i - 1, t, p);
      CauseStep(r, i - 1, t, p);
    }
  }

  /** And it was admitted exactly if some admission with its user, priority and number met a queue that
      was not full. */
  lemma {:induction false} AdmittedIff(r: Run, i: nat, t: Ticket)
    requires ValidRun(r) && Inv(r.states[0]) && i <= |r.events|
    ensures HasEntered(r, i, t)
  {
    if i > 0 {
      AdmittedIff(r, i - 1, t);
      EntryStep(r, i - 1, t);
    }
  }

  lemma RunEnds(r: Run, i: nat, t: Ticket, p: Place)
    requires ValidRun(r) && Inv(r.states[0]) && i < |r.events| && Final(p)
    ensures At(r.states[i + 1].ledger, t, p) <==> At(r.states[i].ledger, t, p) || Ends(r.states[i], r.events[i], t, p)
    ensures t in r.states[i + 1].ledger <==> t in r.states[i].ledger || Enters(r.states[i], r.events[i], t)
  {
    RunKeeps(r, i);
    StepEnds(r.states[i], r.events[i], t, p);
  }

  lemma OneEventMore(r: Run, i: nat, t: Ticket, p: Place)
    requires i < |r.events| < |r.states|
    ensures EndedBefore(r, i + 1, t, p) <==> EndedBefore(r, i, t, p) || Ends(r.states[i], r.events[i], t, p)
    ensures EnteredBefore(r, i + 1, t) <==> EnteredBefore(r, i, t) || Enters(r.states[i], r.events[i], t)
  {
  }

  function Admissions(events: seq<Event>): nat {
    if events == [] then 0
    else Admissions(events[..|events| - 1]) + if events[|events| - 1].Admit? then 1 else 0
  }

  lemma StepDraws(s: State, e: Event)
    ensures var s' := Apply(s, e);
      s'.maxDepth == s.maxDepth && s'.nextSeq == s.nextSeq + if e.Admit? then 1 else 0
  {
  }

  /** Sequence numbers are drawn by admissions alone, the ones turned away included. */
  lemma {:induction false} NumbersAreDrawn(r: Run, i: nat)
    requires ValidRun(r) && i <= |r.events|
    ensures r.states[i].nextSeq == r.states[0].nextSeq + Admissions(r.events[..i])
    ensures r.states[i].maxDepth == r.states[0].maxDepth
  {
    if i > 0 {
      NumbersAreDrawn(r, i - 1);
      StepDraws(r.states[i - 1], r.events[i - 1]);
      assert r.events[..i][..i - 1] == r.events[..i - 1];
    }
  }

  // ---------- order ----------

  /** Events without a promotion pass promote nobody and let nobody into the queue. */
  lemma OthersPromoteNobody(s: State, e: Event, t: Ticket)
    requires Inv(s) && Enabled(s, e) && !Promotes(s, e)
    ensures WasPromoted(Apply(s, e).ledger, t) ==> WasPromoted(s.ledger, t)
    ensures t in Apply(s, e).waiting ==> t in s.waiting
  {
    if e.Timeout? {
      RemoveMember(s.waiting, e.t);
      assert t in Apply(s, e).waiting <==> t in SetOf(Apply(s, e).waiting);
    }
  }

  lemma NotYetPromoted(s: State, e: Event, t: Ticket)
    requires Promotes(s, e) && Enabled(s, e) && !WasPromoted(s.ledger, t)
    ensures !WasPromoted(BeforePromotion(s, e).ledger, t)
  {
  }

  lemma PromotionsComeFromTheQueue(s: State, e: Event, t: Ticket)
    requires Inv(s) && Enabled(s, e) && Promotes(s, e)
    requires !WasPromoted(s.ledger, t) && WasPromoted(Apply(s, e).ledger, t)
    ensures t in Taken(BeforePromotion(s, e))
  {
    BeforePromotionAccounted(s, e);
    var b := BeforePromotion(s, e);
    NotYetPromoted(s, e, t);
    PromoteMoves(b);
    if t in b.ledger {
      PromotionPlaces(b, t);
    }
  }

  lemma PassedOverAtCap(s: State, e: Event, v: Ticket, w: Ticket)
    requires Inv(s) && Enabled(s, e)
    requires !WasPromoted(s.ledger, v) && WasPromoted(Apply(s, e).ledger, v)
    requires w in Apply(s, e).waiting && Outranks(w, v)
    ensures w.user != v.user
    ensures HeldBy(Apply(s, e).slots, w.user) >= s.limits.cap
  {
    if !Promotes(s, e) {
      OthersPromoteNobody(s, e, v);
    }
    BeforePromotionAccounted(s, e);
    PromotionsComeFromTheQueue(s, e, v);
    PromoteChooses(BeforePromotion(s, e));
  }

  /** Whoever an event promotes, everybody of higher priority, or of the same and earlier, that stays
      in the queue belongs to another user, who is at the cap. */
  lemma StepPassesOverOnlyAtCap(s: State, e: Event, v: Ticket, w: Ticket)
    requires Inv(s) && Enabled(s, e)
    requires !WasPromoted(s.ledger, v) && WasPromoted(Apply(s, e).ledger, v)
    requires w in Apply(s, e).waiting
    requires w.priority > v.priority || (w.priority == v.priority && w.seqNo < v.seqNo)
    ensures w.user != v.user
    ensures HeldBy(Apply(s, e).slots, w.user) >= s.limits.cap
  {
    PassedOverAtCap(s, e, v, w);
  }

  /** A waiter that has left the queue does not come back. */
  lemma StepLeavesForGood(s: State, e: Event, t: Ticket)
    requires Inv(s) && Enabled(s, e) && t in s.ledger && t !in s.waiting
    ensures t !in Apply(s, e).waiting
  {
    StepMoves(s, e, t);
    StepKeeps(s, e);
    assert t !in SetOf(s.waiting);
    assert t !in AllAt(Apply(s, e).ledger, Waiting);
    assert t !in SetOf(Apply(s, e).waiting);
  }

  ghost predicate InOrder(s: State, w: Ticket, v: Ticket) {
    w in s.ledger && v in s.ledger && (WasPromoted(s.ledger, v) ==> w !in s.waiting)
  }

  lemma StepKeepsOrder(s: State, e: Event, w: Ticket, v: Ticket)
    requires Inv(s) && Enabled(s, e) && InOrder(s, w, v)
    requires w.user == v.user && Outranks(w, v)
    ensures InOrder(Apply(s, e), w, v)
  {
    StepMoves(s, e, w);
    StepMoves(s, e, v);
    if WasPromoted(s.ledger, v) {
      StepLeavesForGood(s, e, w);
    } else if WasPromoted(Apply(s, e).ledger, v) && w in Apply(s, e).waiting {
      PassedOverAtCap(s, e, v, w);
    }
  }

  /** Two waiters of one user are never promoted out of rank order, whatever happens between:
      arrivals, timeouts, cancellations, releases or changes of the limits. */
  lemma {:induction false} RankOrderWithinUser(r: Run, i: nat, j: nat, w: Ticket, v: Ticket)
    requires ValidRun(r) && Inv(r.states[0]) && i <= j < |r.states|
    requires w in r.states[i].waiting && v in r.states[i].waiting && w.user == v.user
    requires w.priority > v.priority || (w.priority == v.priority && w.seqNo < v.seqNo)
    ensures InOrder(r.states[j], w, v)
  {
    if i == j {
      RunKeeps(r, i);
      assert v in SetOf(r.states[i].waiting) && w in SetOf(r.states[i].waiting);
    } else {
      RankOrderWithinUser(r, i, j - 1, w, v);
      RunKeeps(r, j - 1);
      StepKeepsOrder(r.states[j - 1], r.events[j - 1], w, v);
    }
  }

  // ---------- safety while the limits move ----------

  lemma StepBounds(s: State, e: Event, u: User)
    requires Inv(s) && Enabled(s, e)
    ensures var s' := Apply(s, e);
      && s'.slots.active <= Max(s.slots.active, s.limits.ceiling)
      && HeldBy(s'.slots, u) <= Max(HeldBy(s.slots, u), s.limits.cap)
      && (s'.slots.active < s.slots.active ==> e.Release?)
      && s'.slots.active >= s.slots.active - 1
  {
    if Promotes(s, e) {
      BeforePromotionAccounted(s, e);
      CountsBeforePromotion(s, e, u);
      PromoteCounts(BeforePromotion(s, e), u);
    }
  }

  lemma CountsBeforePromotion(s: State, e: Event, u: User)
    requires Promotes(s, e) && Inv(s) && Enabled(s, e)
    ensures var b := BeforePromotion(s, e).slots;
      && b.active == s.slots.active - (if e.Release? then 1 else 0)
      && HeldBy(b, u) <= HeldBy(s.slots, u)
  {
    if e.Release? {
      assert HeldBy(s.slots, e.t.user) == |OfUser(Occupants(s.ledger), e.t.user)|;
      assert e.t in OfUser(Occupants(s.ledger), e.t.user);
    }
  }

  /** The largest ceiling, and the largest cap, in force in any of the first i + 1 states. */
  function PeakCeiling(states: seq<State>, i: nat): int
    requires i < |states|
  {
    if i == 0 then states[0].limits.ceiling else Max(PeakCeiling(states, i - 1), states[i].limits.ceiling)
  }

  function PeakCap(states: seq<State>, i: nat): int
    requires i < |states|
  {
    if i == 0 then states[0].limits.cap else Max(PeakCap(states, i - 1), states[i].limits.cap)
  }

  /** However the limits are rewritten, nobody is preempted and the counters never exceed the
      largest limits that were in force so far. */
  lemma {:induction false} WithinPeakLimits(r: Run, i: nat, u: User)
    requires ValidRun(r) && Inv(r.states[0]) && i < |r.states|
    requires r.states[0].slots.active == 0
    ensures r.states[i].slots.active <= Max(0, PeakCeiling(r.states, i))
    ensures HeldBy(r.states[i].slots, u) <= Max(0, PeakCap(r.states, i))
  {
    if i == 0 {
      var occ := Occupants(r.states[0].ledger);
      assert |OfUser(occ, u)| == HeldBy(r.states[0].slots, u);
      assert occ == {} && OfUser(occ, u) == {};
    } else {
      WithinPeakLimits(r, i - 1, u);
      RunKeeps(r, i - 1);
      StepBounds(r.states[i - 1], r.events[i - 1], u);
      PeaksCover(r.states, i - 1);
    }
  }

  lemma PeaksCover(states: seq<State>, i: nat)
    requires i < |states|
    ensures states[i].limits.ceiling <= PeakCeiling(states, i) && states[i].limits.cap <= PeakCap(states, i)
  {
  }

  // ---------- saturation ----------

  ghost predicate Settled(s: State) {
    Saturated(s.slots, s.waiting, s.limits)
  }

  /** An event that can leave the scheduler unsettled: a policy that raises a limit. */
  predicate Raises(s: State, e: Event) {
    e.SetPolicy? && (e.limits.ceiling > s.limits.ceiling || e.limits.cap > s.limits.cap)
  }

  lemma StepSettles(s: State, e: Event)
    requires Inv(s) && Enabled(s, e)
    requires Promotes(s, e) || (Settled(s) && !Raises(s, e))
    ensures Settled(Apply(s, e))
  {
    if Promotes(s, e) {
      BeforePromotionAccounted(s, e);
      PromoteChooses(BeforePromotion(s, e));
    } else if e.Timeout? {
      RemoveMember(s.waiting, e.t);
      assert forall w | w in Apply(s, e).waiting :: w in SetOf(Apply(s, e).waiting);
    }
  }

  /** The scheduler is settled from any promoting event on, until a limit is raised. */
  lemma {:induction false} SettledUntilRaised(r: Run, k: nat, i: nat)
    requires ValidRun(r) && Inv(r.states[0]) && k <= i < |r.states|
    requires Settled(r.states[k]) || (k > 0 && Promotes(r.states[k - 1], r.events[k - 1]))
    requires forall j | k <= j < i :: !Raises(r.states[j], r.events[j])
    ensures Settled(r.states[i])
  {
    if k == i {
      if k > 0 {
        RunKeeps(r, k - 1);
        if Promotes(r.states[k - 1], r.events[k - 1]) {
          StepSettles(r.states[k - 1], r.events[k - 1]);
        }
      }
    } else {
      SettledUntilRaised(r, k, i - 1);
      RunKeeps(r, i - 1);
      StepSettles(r.states[i - 1], r.events[i - 1]);
    }
  }

  lemma PromoteNobody(s: State)
    requires SortedBy(s.waiting, RankLe)
    requires ScanQueue(s.waiting, s.slots, s.limits) == Scan(s.slots, seq(|s.waiting|, _ => false))
    ensures Promote(s) == s
  {
    SortIdempotent(s.waiting, RankLe);
    RejectNone(s.waiting, seq(|s.waiting|, _ => false));
    assert s.ledger + Mark({}) == s.ledger;
    assert SetOf<Ticket>([]) == {};
  }

  /** Promoting twice in a row is the same as promoting once, down to the zero entries that
      reading the per-user dictionary leaves behind. */
  lemma PromotionIdempotent(s: State)
    requires NoDup(s.waiting)
    ensures Promote(Promote(s)) == Promote(s)
  {
    var s' := Promote(s);
    PromoteMoves(s);
    ScanSaturates(Sort(s.waiting, RankLe), s.slots, s.limits);
    SaturatedScan(s'.waiting, s'.slots, s'.limits);
    PromoteNobody(s');
  }
}
