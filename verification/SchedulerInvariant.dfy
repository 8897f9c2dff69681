/** What every event of the scheduler keeps: exact slot accounting and one place for everybody. */
module SchedulerInvariant {
  import opened MapSums
  import opened Ordering
  import opened Selections
  import opened SchedulerModel
  import opened GreedyPromotion

  /** The queue is exactly the waiters recorded as waiting. */
  ghost predicate QueueRecorded(waiting: seq<Ticket>, l: Ledger) {
    NoDup(waiting) && SetOf(waiting) == AllAt(l, Waiting)
  }

  ghost predicate FreshNumbers(l: Ledger, nextSeq: nat) {
    && (forall t | t in l :: t.seqNo < nextSeq)
    && (forall t, v | t in l && v in l && t.seqNo == v.seqNo :: t == v)
  }

  /** The counters are the number of occupied slots, in total and user by user. */
  ghost predicate ExactCounts(slots: Slots, occupants: set<Ticket>) {
    && slots.active == |occupants|
    && (forall u: User :: HeldBy(slots, u) == |OfUser(occupants, u)|)
  }

  ghost predicate Accounted(s: State) {
    && QueueRecorded(s.waiting, s.ledger)
    && FreshNumbers(s.ledger, s.nextSeq)
    && ExactCounts(s.slots, Occupants(s.ledger))
    && |s.waiting| <= Max(0, s.maxDepth)
  }

  ghost predicate Inv(s: State) {
    Accounted(s) && SortedBy(s.waiting, RankLe)
  }

  lemma OfUserUnion(a: set<Ticket>, b: set<Ticket>, u: User)
    requires a !! b
    ensures |OfUser(a + b, u)| == |OfUser(a, u)| + |OfUser(b, u)|
    ensures |a + b| == |a| + |b|
  {
    assert OfUser(a + b, u) == OfUser(a, u) + OfUser(b, u);
  }

  lemma OfUserSingle(t: Ticket, u: User)
    ensures |OfUser({t}, u)| == if t.user == u then 1 else 0
  {
    assert OfUser({t}, u) == if t.user == u then {t} else {};
  }

  lemma {:induction false} SelectedOfUser(queue: seq<Ticket>, mask: seq<bool>, u: User)
    requires |queue| == |mask| && NoDup(queue)
    ensures |SetOf(Select(queue, mask))| == Picked(mask)
    ensures |OfUser(SetOf(Select(queue, mask)), u)| == TakenOf(queue, mask, u)
  {
    if queue == [] {
      assert SetOf(Select(queue, mask)) == {};
      assert OfUser({}, u) == {};
    } else {
      SetOfCons(queue);
      SelectedOfUser(queue[1..], mask[1..], u);
      SelectUnion(queue[1..], mask[1..]);
      if mask[0] {
        SetOfCons(Select(queue, mask));
        OfUserUnion({queue[0]}, SetOf(Select(queue[1..], mask[1..])), u);
        OfUserSingle(queue[0], u);
      }
    }
  }

  /** The waiters promoted by the loop. */
  function Taken(s: State): set<Ticket> {
    SortKeepsLength(s.waiting);
    var queue := Sort(s.waiting, RankLe);
    SetOf(Select(queue, ScanQueue(queue, s.slots, s.limits).picked))
  }

  /** Promotion moves a set of waiters out of the queue and keeps the rest in rank order. */
  lemma PromoteMoves(s: State)
    requires NoDup(s.waiting)
    ensures var s' := Promote(s);
      && s' == s.(slots := s'.slots, waiting := s'.waiting, ledger := s.ledger + Mark(Taken(s)))
      && SetOf(s.waiting) == SetOf(s'.waiting) + Taken(s)
      && SetOf(s'.waiting) !! Taken(s)
      && NoDup(s'.waiting) && SortedBy(s'.waiting, RankLe)
      && |s'.waiting| == |s.waiting| - |Taken(s)|
  {
    var queue := Sort(s.waiting, RankLe);
    RankIsTotal();
    SortSorts(s.waiting, RankLe);
    NoDupPermutation(s.waiting, queue);
    var picked := ScanQueue(queue, s.slots, s.limits).picked;
    SelectPartition(queue, picked);
    RejectKeepsOrder(queue, picked, RankLe);
    SelectionLengths(queue, picked);
    SelectedOfUser(queue, picked, "");
  }

  /** It counts everybody it moves, and never beyond the larger of the limit and what was
      already there. */
  lemma PromoteCounts(s: State, u: User)
    requires NoDup(s.waiting)
    ensures var s' := Promote(s);
      && s'.slots.active == s.slots.active + |Taken(s)|
      && HeldBy(s'.slots, u) == HeldBy(s.slots, u) + |OfUser(Taken(s), u)|
      && s'.slots.active <= Max(s.slots.active, s.limits.ceiling)
      && HeldBy(s'.slots, u) <= Max(HeldBy(s.slots, u), s.limits.cap)
  {
    var queue := Sort(s.waiting, RankLe);
    RankIsTotal();
    SortSorts(s.waiting, RankLe);
    NoDupPermutation(s.waiting, queue);
    SelectedOfUser(queue, ScanQueue(queue, s.slots, s.limits).picked, u);
    ScanAccounts(queue, s.slots, s.limits, u);
    ScanWithinCap(queue, s.slots, s.limits, u);
  }

  /** It leaves nobody who could be promoted, and passes over nobody whose user is below its cap. */
  lemma PromoteChooses(s: State)
    ensures Saturated(Promote(s).slots, Promote(s).waiting, s.limits)
    ensures forall t, w | t in Taken(s) && w in Promote(s).waiting && Outranks(w, t) ::
              w.user != t.user && HeldBy(Promote(s).slots, w.user) >= s.limits.cap
    ensures Taken(s) != {} ==> s.slots.active < s.limits.ceiling
  {
    var queue := Sort(s.waiting, RankLe);
    var scan := ScanQueue(queue, s.slots, s.limits);
    RankIsTotal();
    SortSorts(s.waiting, RankLe);
    ScanSaturates(queue, s.slots, s.limits);
    forall t, w | t in Taken(s) && w in Reject(queue, scan.picked) && Outranks(w, t)
      ensures w.user != t.user && HeldBy(scan.slots, w.user) >= s.limits.cap
    {
      PassedOver(queue, s.slots, s.limits, w, t);
    }
    if t :| t in Taken(s) {
      SelectMember(queue, scan.picked, t);
      assert exists i :: 0 <= i < |queue| && scan.picked[i];
    }
  }

  lemma PassedOver(queue: seq<Ticket>, slots: Slots, limits: Limits, w: Ticket, t: Ticket)
    requires SortedBy(queue, RankLe) && Outranks(w, t)
    requires var p := ScanQueue(queue, slots, limits).picked;
      t in Select(queue, p) && w in Reject(queue, p)
    ensures w.user != t.user && HeldBy(ScanQueue(queue, slots, limits).slots, w.user) >= limits.cap
  {
    var scan := ScanQueue(queue, slots, limits);
    SelectMember(queue, scan.picked, t);
    SelectMember(queue, scan.picked, w);
    var i :| 0 <= i < |queue| && !scan.picked[i] && queue[i] == w;
    var j :| 0 <= j < |queue| && scan.picked[j] && queue[j] == t;
    assert j < i ==> RankLe(queue[j], queue[i]);
    BypassOnlyAtCap(queue, slots, limits, i, j);
    TakenOfPrefix(queue, scan.picked, w.user, i);
    ScanAccounts(queue, slots, limits, w.user);
  }

  lemma MarkMoves(l: Ledger, taken: set<Ticket>)
    requires taken <= AllAt(l, Waiting)
    ensures AllAt(l + Mark(taken), Waiting) == AllAt(l, Waiting) - taken
    ensures Occupants(l + Mark(taken)) == Occupants(l) + taken
    ensures Occupants(l) !! taken
    ensures (l + Mark(taken)).Keys == l.Keys
  {
  }

  lemma OccupyCounts(slots: Slots, slots': Slots, occupants: set<Ticket>, taken: set<Ticket>)
    requires ExactCounts(slots, occupants) && occupants !! taken
    requires slots'.active == slots.active + |taken|
    requires forall u: User :: HeldBy(slots', u) == HeldBy(slots, u) + |OfUser(taken, u)|
    ensures ExactCounts(slots', occupants + taken)
  {
    OfUserUnion(occupants, taken, "");
    forall u: User ensures HeldBy(slots', u) == |OfUser(occupants + taken, u)| {
      OfUserUnion(occupants, taken, u);
    }
  }

  lemma PromoteKeeps(s: State)
    requires Accounted(s)
    ensures Inv(Promote(s))
  {
    PromoteMoves(s);
    MarkMoves(s.ledger, Taken(s));
    forall u: User
      ensures HeldBy(Promote(s).slots, u) == HeldBy(s.slots, u) + |OfUser(Taken(s), u)|
    {
      PromoteCounts(s, u);
    }
    PromoteCounts(s, "");
    OccupyCounts(s.slots, Promote(s).slots, Occupants(s.ledger), Taken(s));
  }

  lemma InitInv(limits: Limits, maxDepth: int)
    ensures Inv(Init(limits, maxDepth))
  {
    var s := Init(limits, maxDepth);
    assert Occupants(s.ledger) == {};
    forall u: User ensures HeldBy(s.slots, u) == |OfUser({}, u)| {
      assert OfUser({}, u) == {};
    }
    assert SetOf(s.waiting) == {};
  }

  lemma EnqueueKeeps(s: State, u: User, p: int)
    requires Inv(s) && |s.waiting| < s.maxDepth
    ensures Accounted(Enqueued(s, Ticket(u, p, s.nextSeq)))
  {
    var t := Ticket(u, p, s.nextSeq);
    var q := Enqueued(s, t);
    assert t !in s.ledger;
    assert SetOf(q.waiting) == SetOf(s.waiting) + {t};
    assert AllAt(q.ledger, Waiting) == AllAt(s.ledger, Waiting) + {t};
    assert t !in SetOf(s.waiting);
    assert Occupants(q.ledger) == Occupants(s.ledger);
  }

  lemma DequeueKeeps(s: State, t: Ticket, p: Place)
    requires Inv(s) && t in s.waiting && p != Waiting && !Occupies(p)
    ensures Inv(Dequeued(s, t, p))
  {
    var q := Dequeued(s, t, p);
    RemoveMember(s.waiting, t);
    RemoveKeepsOrder(s.waiting, t, RankLe);
    assert t in SetOf(s.waiting);
    assert AllAt(q.ledger, Waiting) == AllAt(s.ledger, Waiting) - {t};
    assert Occupants(q.ledger) == Occupants(s.ledger);
    assert q.ledger.Keys == s.ledger.Keys;
  }

  /** Moving a ticket among the places that occupy a slot touches no counter. */
  lemma RelabelKeeps(s: State, t: Ticket, p: Place)
    requires Inv(s) && At(s.ledger, t, Granted) && Occupies(p)
    ensures Inv(s.(ledger := s.ledger[t := p]))
  {
    var l := s.ledger[t := p];
    assert Occupants(l) == Occupants(s.ledger);
    assert AllAt(l, Waiting) == AllAt(s.ledger, Waiting);
    assert l.Keys == s.ledger.Keys;
  }

  lemma VacateCounts(slots: Slots, occupants: set<Ticket>, t: Ticket)
    requires ExactCounts(slots, occupants) && t in occupants
    ensures ExactCounts(Vacate(slots, t.user), occupants - {t})
  {
    var rest := occupants - {t};
    assert occupants == rest + {t};
    forall u: User ensures HeldBy(Vacate(slots, t.user), u) == |OfUser(rest, u)| {
      OfUserUnion(rest, {t}, u);
      OfUserSingle(t, u);
    }
    OfUserUnion(rest, {t}, "");
  }

  lemma FreeKeeps(s: State, t: Ticket)
    requires Inv(s) && At(s.ledger, t, Holding)
    ensures Accounted(Freed(s, t))
  {
    var f := Freed(s, t);
    VacateCounts(s.slots, Occupants(s.ledger), t);
    assert Occupants(f.ledger) == Occupants(s.ledger) - {t};
    assert AllAt(f.ledger, Waiting) == AllAt(s.ledger, Waiting);
    assert f.ledger.Keys == s.ledger.Keys;
  }

  lemma StepKeeps(s: State, e: Event)
    requires Inv(s) && Enabled(s, e)
    ensures Inv(Apply(s, e))
  {
    match e
    case Admit(u, p) =>
      if |s.waiting| < s.maxDepth {
        EnqueueKeeps(s, u, p);
        PromoteKeeps(Enqueued(s, Ticket(u, p, s.nextSeq)));
      }
    case Wake(t) => RelabelKeeps(s, t, Holding);
    case Timeout(t) => DequeueKeeps(s, t, TimedOut);
    case Cancel(t) =>
      if t in s.waiting {
        DequeueKeeps(s, t, Cancelled);
        PromoteKeeps(Dequeued(s, t, Cancelled));
      } else {
        RelabelKeeps(s, t, Abandoned);
      }
    case Release(t) =>
      FreeKeeps(s, t);
      PromoteKeeps(Freed(s, t));
    case SetPolicy(_) =>
  }

  /** Every state of every run is accounted for. */
  lemma {:induction false} RunKeeps(r: Run, i: nat)
    requires ValidRun(r) && Inv(r.states[0]) && i < |r.states|
    ensures Inv(r.states[i])
  {
    if i > 0 {
      RunKeeps(r, i - 1);
      StepKeeps(r.states[i - 1], r.events[i - 1]);
    }
  }
}
