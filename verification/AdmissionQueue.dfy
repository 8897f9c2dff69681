/** The scheduler object itself. Its methods are the critical sections of `admit`, each proved
    to take the object from one state of the transition system to the next. */
module AdmissionQueue {
  import opened Ordering
  import opened Selections
  import opened SchedulerModel
  import opened GreedyPromotion
  import opened SchedulerInvariant
  import opened SchedulerRuns

  class Waiter {
    const ticket: Ticket
    var promoted: bool

    constructor (ticket: Ticket)
      ensures this.ticket == ticket && !promoted
    {
      this.ticket := ticket;
      promoted := false;
    }
  }

  predicate WaiterLe(a: Waiter, b: Waiter) {
    RankLe(a.ticket, b.ticket)
  }

  function Tickets(ws: seq<Waiter>): (ts: seq<Ticket>)
    ensures |ts| == |ws|
  {
    seq(|ws|, i requires 0 <= i < |ws| => ws[i].ticket)
  }

  lemma {:induction false} InsertCommutes(w: Waiter, ws: seq<Waiter>)
    ensures Tickets(Insert(w, ws, WaiterLe)) == Insert(w.ticket, Tickets(ws), RankLe)
  {
    if ws == [] || WaiterLe(w, ws[0]) {
    } else {
      InsertCommutes(w, ws[1..]);
      assert Tickets(ws)[1..] == Tickets(ws[1..]);
      var rest := Insert(w, ws[1..], WaiterLe);
      assert Tickets([ws[0]] + rest) == [ws[0].ticket] + Tickets(rest);
    }
  }

  lemma {:induction false} SortCommutes(ws: seq<Waiter>)
    ensures Tickets(Sort(ws, WaiterLe)) == Sort(Tickets(ws), RankLe)
  {
    if ws == [] {
    } else {
      SortCommutes(ws[1..]);
      InsertCommutes(ws[0], Sort(ws[1..], WaiterLe));
      assert Tickets(ws)[1..] == Tickets(ws[1..]);
    }
  }

  lemma {:induction false} RejectCommutes(ws: seq<Waiter>, mask: seq<bool>)
    requires |ws| == |mask|
    ensures Tickets(Reject(ws, mask)) == Reject(Tickets(ws), mask)
  {
    if ws == [] {
    } else {
      RejectCommutes(ws[1..], mask[1..]);
      assert Tickets(ws)[1..] == Tickets(ws[1..]);
      if !mask[0] {
        var rest := Reject(ws[1..], mask[1..]);
        assert Tickets([ws[0]] + rest) == [ws[0].ticket] + Tickets(rest);
      }
    }
  }

  /** Which waiter objects there are, and which of them queue: nothing here reads the heap,
      because a ticket never changes. */
  ghost predicate Roster(waiters: set<Waiter>, waiting: seq<Waiter>, l: Ledger, nextSeq: nat) {
    && NoDup(Tickets(waiting))
    && (forall w | w in waiting :: w in waiters && At(l, w.ticket, Waiting))
    && (forall w | w in waiters && At(l, w.ticket, Waiting) :: w in waiting)
    && (forall w, x | w in waiters && x in waiters && w.ticket == x.ticket :: w == x)
    && (forall w | w in waiters :: w.ticket in l)
    && (forall t | t in l :: t.seqNo < nextSeq)
  }

  lemma InTickets(ws: seq<Waiter>, t: Ticket)
    ensures t in Tickets(ws) <==> exists w :: w in ws && w.ticket == t
  {
    if t in Tickets(ws) {
      var i :| 0 <= i < |ws| && Tickets(ws)[i] == t;
      assert ws[i] in ws;
    }
    if w :| w in ws && w.ticket == t {
      var i :| 0 <= i < |ws| && ws[i] == w;
      assert Tickets(ws)[i] == t;
    }
  }

  lemma RosterEnter(waiters: set<Waiter>, waiting: seq<Waiter>, l: Ledger, nextSeq: nat, w: Waiter)
    requires Roster(waiters, waiting, l, nextSeq) && w.ticket.seqNo == nextSeq
    ensures Roster(waiters + {w}, waiting + [w], l[w.ticket := Waiting], nextSeq + 1)
    ensures Tickets(waiting + [w]) == Tickets(waiting) + [w.ticket]
  {
    assert w.ticket !in l;
    assert Tickets(waiting + [w]) == Tickets(waiting) + [w.ticket];
    InTickets(waiting, w.ticket);
  }

  /** Among waiters told apart by their tickets, removing one removes its ticket. */
  lemma {:induction false} RemoveCommutes(ws: seq<Waiter>, w: Waiter)
    requires forall x | x in ws && x.ticket == w.ticket :: x == w
    ensures Tickets(Remove(ws, w)) == Remove(Tickets(ws), w.ticket)
    ensures forall x | x in Remove(ws, w) :: x in ws
    ensures forall x | x in ws && x != w :: x in Remove(ws, w)
  {
    if ws == [] {
    } else {
      assert ws[0] in ws;
      assert forall x | x in ws[1..] :: x in ws;
      RemoveCommutes(ws[1..], w);
      assert Tickets(ws)[1..] == Tickets(ws[1..]);
      assert Tickets(ws)[0] == ws[0].ticket;
      if ws[0] != w {
        var rest := Remove(ws[1..], w);
        assert Tickets([ws[0]] + rest) == [ws[0].ticket] + Tickets(rest);
      }
    }
  }

  /** Taking a waiter out of the list takes out its ticket, and nobody else's. */
  lemma RemoveOne(waiters: set<Waiter>, waiting: seq<Waiter>, w: Waiter)
    requires NoDup(Tickets(waiting)) && w in waiters && forall x | x in waiting :: x in waiters
    requires forall x | x in waiters && x.ticket == w.ticket :: x == w
    ensures var left := Remove(waiting, w);
      && Tickets(left) == Remove(Tickets(waiting), w.ticket)
      && NoDup(Tickets(left))
      && (forall x | x in left :: x in waiting && x != w)
      && (forall x | x in waiting && x != w :: x in left)
    ensures w in waiting <==> w.ticket in Tickets(waiting)
    ensures w !in waiting ==> Remove(waiting, w) == waiting
  {
    RemoveCommutes(waiting, w);
    InTickets(waiting, w.ticket);
    RemoveKeepsOrder(Tickets(waiting), w.ticket, RankLe);
    RemoveMember(Tickets(waiting), w.ticket);
    InTickets(Remove(waiting, w), w.ticket);
    assert w.ticket !in SetOf(Remove(Tickets(waiting), w.ticket));
    RemoveAbsent(waiting, w);
  }

  lemma RosterRemove(waiters: set<Waiter>, waiting: seq<Waiter>, l: Ledger, nextSeq: nat, w: Waiter, p: Place)
    requires Roster(waiters, waiting, l, nextSeq) && w in waiters && p != Waiting
    ensures Roster(waiters, Remove(waiting, w), l[w.ticket := p], nextSeq)
    ensures Tickets(Remove(waiting, w)) == Remove(Tickets(waiting), w.ticket)
    ensures w in waiting <==> w.ticket in Tickets(waiting)
    ensures w !in waiting ==> Remove(waiting, w) == waiting
  {
    RemoveOne(waiters, waiting, w);
  }

  lemma RosterRelabel(waiters: set<Waiter>, waiting: seq<Waiter>, l: Ledger, nextSeq: nat, t: Ticket, p: Place)
    requires Roster(waiters, waiting, l, nextSeq) && p != Waiting
    requires t in l && l[t] != Waiting
    ensures Roster(waiters, waiting, l[t := p], nextSeq)
  {
  }

  lemma {:induction false} RemoveAbsent<T>(s: seq<T>, x: T)
    ensures x !in s ==> Remove(s, x) == s
  {
    if s != [] {
      RemoveAbsent(s[1..], x);
    }
  }

  lemma RosterPromote(waiters: set<Waiter>, waiting: seq<Waiter>, s: State, waiting': seq<Waiter>)
    requires Roster(waiters, waiting, s.ledger, s.nextSeq) && Tickets(waiting) == s.waiting
    requires Tickets(waiting') == Promote(s).waiting
    requires forall w | w in waiting' :: w in waiting
    ensures Roster(waiters, waiting', Promote(s).ledger, s.nextSeq)
  {
    PromoteMoves(s);
    var l := Promote(s).ledger;
    forall w | w in waiting' ensures At(l, w.ticket, Waiting) {
      InTickets(waiting', w.ticket);
      assert w.ticket in SetOf(Promote(s).waiting);
    }
    forall w | w in waiters && At(l, w.ticket, Waiting) ensures w in waiting' {
      InTickets(waiting, w.ticket);
      assert w.ticket in SetOf(s.waiting);
      InTickets(waiting', w.ticket);
      assert w.ticket in SetOf(Promote(s).waiting);
    }
    forall t | t in l ensures t.seqNo < s.nextSeq {
      if t in Taken(s) {
        assert t in SetOf(s.waiting);
        InTickets(waiting, t);
      }
    }
  }

  // ---------- the promotion loop, one turn at a time ----------

  /** After the first i waiters the scan stands at these slots, having decided these. */
  ghost predicate Reached(queue: seq<Ticket>, s: State, i: nat, done: seq<bool>, slots: Slots)
    requires i <= |queue|
  {
    var rest := ScanQueue(queue[i..], slots, s.limits);
    ScanQueue(queue, s.slots, s.limits) == Scan(rest.slots, done + rest.picked)
  }

  lemma ReachedSkip(queue: seq<Ticket>, s: State, i: nat, done: seq<bool>, slots: Slots)
    requires i < |queue| && Reached(queue, s, i, done, slots)
    requires slots.active < s.limits.ceiling && HeldBy(slots, queue[i].user) >= s.limits.cap
    ensures Reached(queue, s, i + 1, done + [false], Touch(slots, queue[i].user))
  {
    assert queue[i..][1..] == queue[i + 1..];
    var rest := ScanQueue(queue[i + 1..], Touch(slots, queue[i].user), s.limits);
    assert done + ([false] + rest.picked) == (done + [false]) + rest.picked;
  }

  lemma ReachedTake(queue: seq<Ticket>, s: State, i: nat, done: seq<bool>, slots: Slots)
    requires i < |queue| && Reached(queue, s, i, done, slots)
    requires slots.active < s.limits.ceiling && HeldBy(slots, queue[i].user) < s.limits.cap
    ensures Reached(queue, s, i + 1, done + [true], Occupy(slots, queue[i].user))
  {
    assert queue[i..][1..] == queue[i + 1..];
    var rest := ScanQueue(queue[i + 1..], Occupy(slots, queue[i].user), s.limits);
    assert done + ([true] + rest.picked) == (done + [true]) + rest.picked;
  }

  /** Whoever the loop did not reach counts as not picked. */
  function Unreached(n: nat): seq<bool> { seq(n, _ => false) }

  lemma ScanStops(queue: seq<Ticket>, slots: Slots, limits: Limits)
    requires queue == [] || slots.active >= limits.ceiling
    ensures ScanQueue(queue, slots, limits) == Scan(slots, Unreached(|queue|))
  {
  }

  lemma ReachedEnd(queue: seq<Ticket>, s: State, i: nat, done: seq<bool>, slots: Slots)
    requires i <= |queue| && Reached(queue, s, i, done, slots)
    requires i == |queue| || slots.active >= s.limits.ceiling
    ensures ScanQueue(queue, s.slots, s.limits) == Scan(slots, done + Unreached(|queue| - i))
  {
    assert |queue[i..]| == |queue| - i;
    ScanStops(queue[i..], slots, s.limits);
  }

  lemma TouchThenOccupy(slots: Slots, u: User)
    ensures Occupy(Touch(slots, u), u) == Occupy(slots, u)
  {
    assert slots.byUser[u := HeldBy(slots, u)][u := HeldBy(slots, u) + 1] == slots.byUser[u := HeldBy(slots, u) + 1];
  }

  /** What the object's queue and the ledger look like after i turns. */
  function QueueAfter(snapshot: seq<Waiter>, i: nat, done: seq<bool>): seq<Waiter>
    requires |done| == i <= |snapshot|
  {
    Reject(snapshot[..i], done) + snapshot[i..]
  }

  function LedgerAfter(l: Ledger, queue: seq<Ticket>, i: nat, done: seq<bool>): Ledger
    requires |done| == i <= |queue|
  {
    l + Mark(SetOf(Select(queue[..i], done)))
  }

  lemma QueueSkip(snapshot: seq<Waiter>, i: nat, done: seq<bool>)
    requires |done| == i < |snapshot|
    ensures QueueAfter(snapshot, i + 1, done + [false]) == QueueAfter(snapshot, i, done)
  {
    assert snapshot[..i + 1] == snapshot[..i] + [snapshot[i]];
    RejectConcat(snapshot[..i], done, [snapshot[i]], [false]);
    assert Reject([snapshot[i]], [false]) == [snapshot[i]];
    assert snapshot[i..] == [snapshot[i]] + snapshot[i + 1..];
  }

  lemma QueueTake(snapshot: seq<Waiter>, i: nat, done: seq<bool>)
    requires |done| == i < |snapshot| && NoDup(Tickets(snapshot))
    ensures QueueAfter(snapshot, i + 1, done + [true]) == Remove(QueueAfter(snapshot, i, done), snapshot[i])
  {
    var w, kept := snapshot[i], Reject(snapshot[..i], done);
    SelectMember(snapshot[..i], done, w);
    forall k | 0 <= k < i ensures snapshot[k] != w {
      assert Tickets(snapshot)[k] != Tickets(snapshot)[i];
    }
    RemoveAt(kept, w, snapshot[i + 1..]);
    assert QueueAfter(snapshot, i, done) == kept + [w] + snapshot[i + 1..];
    assert snapshot[..i + 1] == snapshot[..i] + [w];
    RejectConcat(snapshot[..i], done, [w], [true]);
    assert Reject([w], [true]) == [];
  }

  lemma LedgerNext(l: Ledger, queue: seq<Ticket>, i: nat, done: seq<bool>, take: bool)
    requires |done| == i < |queue|
    ensures LedgerAfter(l, queue, i + 1, done + [take])
         == if take then LedgerAfter(l, queue, i, done)[queue[i] := Granted] else LedgerAfter(l, queue, i, done)
  {
    assert queue[..i + 1] == queue[..i] + [queue[i]];
    SelectConcat(queue[..i], done, [queue[i]], [take]);
    assert Select([queue[i]], [take]) == if take then [queue[i]] else [];
  }

  /** Everything the loop has done to the object after i turns. */
  ghost predicate Stage(snapshot: seq<Waiter>, s: State, i: nat, done: seq<bool>,
                        waiting: seq<Waiter>, slots: Slots, l: Ledger)
  {
    && |done| == i <= |snapshot|
    && waiting == QueueAfter(snapshot, i, done)
    && l == LedgerAfter(s.ledger, Tickets(snapshot), i, done)
    && Reached(Tickets(snapshot), s, i, done, slots)
  }

  lemma StageStart(snapshot: seq<Waiter>, s: State)
    ensures Stage(snapshot, s, 0, [], snapshot, s.slots, s.ledger)
  {
    var queue := Tickets(snapshot);
    assert snapshot[..0] == [] && snapshot[0..] == snapshot && queue[0..] == queue;
    assert SetOf(Select(queue[..0], [])) == {};
    assert s.ledger + Mark({}) == s.ledger;
  }

  lemma StageSkip(snapshot: seq<Waiter>, s: State, i: nat, done: seq<bool>,
                  waiting: seq<Waiter>, slots: Slots, l: Ledger)
    requires Stage(snapshot, s, i, done, waiting, slots, l) && i < |snapshot|
    requires slots.active < s.limits.ceiling && HeldBy(slots, snapshot[i].ticket.user) >= s.limits.cap
    ensures Stage(snapshot, s, i + 1, done + [false], waiting, Touch(slots, snapshot[i].ticket.user), l)
  {
    ReachedSkip(Tickets(snapshot), s, i, done, slots);
    QueueSkip(snapshot, i, done);
    LedgerNext(s.ledger, Tickets(snapshot), i, done, false);
  }

  lemma StageTake(snapshot: seq<Waiter>, s: State, i: nat, done: seq<bool>,
                  waiting: seq<Waiter>, slots: Slots, l: Ledger)
    requires Stage(snapshot, s, i, done, waiting, slots, l) && i < |snapshot| && NoDup(Tickets(snapshot))
    requires slots.active < s.limits.ceiling && HeldBy(slots, snapshot[i].ticket.user) < s.limits.cap
    ensures var w := snapshot[i];
      Stage(snapshot, s, i + 1, done + [true], Remove(waiting, w), Occupy(slots, w.ticket.user), l[w.ticket := Granted])
  {
    ReachedTake(Tickets(snapshot), s, i, done, slots);
    QueueTake(snapshot, i, done);
    LedgerNext(s.ledger, Tickets(snapshot), i, done, true);
  }

  lemma QueueEnds(snapshot: seq<Waiter>, i: nat, done: seq<bool>)
    requires |done| == i <= |snapshot|
    ensures QueueAfter(snapshot, i, done) == Reject(snapshot, done + Unreached(|snapshot| - i))
  {
    var left := Unreached(|snapshot| - i);
    assert snapshot == snapshot[..i] + snapshot[i..];
    RejectConcat(snapshot[..i], done, snapshot[i..], left);
    RejectNone(snapshot[i..], left);
  }

  lemma LedgerEnds(l: Ledger, queue: seq<Ticket>, i: nat, done: seq<bool>)
    requires |done| == i <= |queue|
    ensures LedgerAfter(l, queue, i, done) == l + Mark(SetOf(Select(queue, done + Unreached(|queue| - i))))
  {
    var left := Unreached(|queue| - i);
    assert queue == queue[..i] + queue[i..];
    SelectConcat(queue[..i], done, queue[i..], left);
    RejectNone(queue[i..], left);
    assert Select(queue[..i], done) + [] == Select(queue[..i], done);
  }

  lemma LoopEnds(snapshot: seq<Waiter>, s: State, i: nat, done: seq<bool>,
                 waiting: seq<Waiter>, slots: Slots, l: Ledger)
    requires Stage(snapshot, s, i, done, waiting, slots, l)
    requires Tickets(snapshot) == Sort(s.waiting, RankLe)
    requires i == |snapshot| || slots.active >= s.limits.ceiling
    ensures Promote(s) == s.(slots := slots, waiting := Tickets(waiting), ledger := l)
    ensures forall w | w in waiting :: w in snapshot
  {
    var picked := done + Unreached(|snapshot| - i);
    ReachedEnd(Tickets(snapshot), s, i, done, slots);
    QueueEnds(snapshot, i, done);
    LedgerEnds(s.ledger, Tickets(snapshot), i, done);
    RejectCommutes(snapshot, picked);
    forall w | w in Reject(snapshot, picked) ensures w in snapshot {
      SelectMember(snapshot, picked, w);
    }
  }

  lemma SortForPromotion(waiting: seq<Waiter>)
    requires NoDup(Tickets(waiting))
    ensures var sorted := Sort(waiting, WaiterLe);
      && Tickets(sorted) == Sort(Tickets(waiting), RankLe)
      && NoDup(Tickets(sorted))
      && (forall w | w in sorted :: w in waiting)
      && |sorted| == |waiting|
  {
    SortCommutes(waiting);
    SortPermutes(waiting, WaiterLe);
    SortPermutes(Tickets(waiting), RankLe);
    NoDupPermutation(Tickets(waiting), Sort(Tickets(waiting), RankLe));
    forall w | w in Sort(waiting, WaiterLe) ensures w in waiting {
      assert w in multiset(Sort(waiting, WaiterLe));
    }
  }

  /** What a finished loop over the sorted queue amounts to: the promotion step, and a roster that
      is still right. */
  lemma LoopPromotes(waiters: set<Waiter>, queued: seq<Waiter>, s: State, i: nat, done: seq<bool>,
                     waiting: seq<Waiter>, slots: Slots, l: Ledger)
    requires Roster(waiters, queued, s.ledger, s.nextSeq) && Tickets(queued) == s.waiting
    requires Stage(Sort(queued, WaiterLe), s, i, done, waiting, slots, l)
    requires i == |queued| || slots.active >= s.limits.ceiling
    ensures Promote(s) == s.(slots := slots, waiting := Tickets(waiting), ledger := l)
    ensures Roster(waiters, waiting, l, s.nextSeq)
  {
    SortForPromotion(queued);
    LoopEnds(Sort(queued, WaiterLe), s, i, done, waiting, slots, l);
    RosterPromote(waiters, queued, s, waiting);
  }

  /** Waiters in a list without repetitions, told apart by their tickets. */
  ghost predicate Distinct(waiters: set<Waiter>, queue: seq<Waiter>) {
    && NoDup(Tickets(queue))
    && (forall w | w in queue :: w in waiters)
    && (forall w, x | w in waiters && x in waiters && w.ticket == x.ticket :: w == x)
  }

  /** The roster as the loop needs it, whatever the order of the queue. */
  lemma SortedRoster(waiters: set<Waiter>, queued: seq<Waiter>, l: Ledger, nextSeq: nat)
    requires Roster(waiters, queued, l, nextSeq)
    ensures Distinct(waiters, Sort(queued, WaiterLe)) && |Sort(queued, WaiterLe)| == |queued|
  {
    SortForPromotion(queued);
  }

  /** The per-user dictionary when a slot is given back. */
  function Lowered(byUser: map<User, int>, u: User): map<User, int> {
    var left := (if u in byUser then byUser[u] else 0) - 1;
    if left <= 0 then byUser[u := left] - {u} else byUser[u := left]
  }

  lemma LoweredVacates(slots: Slots, u: User)
    ensures Vacate(slots, u) == Slots(slots.active - 1, Lowered(slots.byUser, u))
  {
    assert slots.byUser[u := HeldBy(slots, u) - 1] - {u} == slots.byUser - {u};
  }

  datatype Admission = QueueFull | Queued(waiter: Waiter)

  datatype Outcome = GotSlot | QueueTimeout | KeepWaiting

  class Scheduler {
    var maxActiveJobs: int
    var perUserMaxActive: int
    const queueMaxDepth: int
    var activeCount: int
    var activeByUser: map<User, int>
    var waiting: seq<Waiter>
    var nextSeq: nat

    ghost var ledger: Ledger
    ghost var waiters: set<Waiter>  // everybody who got past the queue-full check

    ghost function View(): State
      reads this
    {
      State(Limits(maxActiveJobs, perUserMaxActive), queueMaxDepth, Slots(activeCount, activeByUser),
            Tickets(waiting), nextSeq, ledger)
    }

    ghost predicate Flags()
      reads this, waiters
    {
      forall w | w in waiters :: w.promoted <==> WasPromoted(ledger, w.ticket)
    }

    /** The waiter objects agree with the ledger. What the counters mean is not repeated here:
        it is proved once, for every state that events can lead to. */
    ghost predicate Valid()
      reads this, waiters
    {
      Roster(waiters, waiting, ledger, nextSeq) && Flags()
    }

    constructor (maxActiveJobs: int, perUserMaxActive: int, queueMaxDepth: int)
      ensures Valid() && waiters == {}
      ensures View() == Init(Limits(maxActiveJobs, perUserMaxActive), queueMaxDepth)
    {
      this.maxActiveJobs := maxActiveJobs;
      this.perUserMaxActive := perUserMaxActive;
      this.queueMaxDepth := queueMaxDepth;
      activeCount := 0;
      activeByUser := map[];
      waiting := [];
      nextSeq := 0;
      ledger := map[];
      waiters := {};
    }

    method GrantSlot(w: Waiter)
      requires w in waiters && Flags()
      requires forall x | x in waiters && x.ticket == w.ticket :: x == w
      modifies this`waiting, this`activeCount, this`activeByUser, this`ledger, w
      ensures Flags() && ledger == old(ledger)[w.ticket := Granted] && waiting == Remove(old(waiting), w)
      ensures Slots(activeCount, activeByUser) == Occupy(old(Slots(activeCount, activeByUser)), w.ticket.user)
    {
      var u := w.ticket.user;
      w.promoted := true;
      waiting := Remove(waiting, w);
      activeCount := activeCount + 1;
      activeByUser := activeByUser[u := (if u in activeByUser then activeByUser[u] else 0) + 1];
      ledger := ledger[w.ticket := Granted];
    }

    /** One turn of the promotion loop: pass over a waiter whose user is at its cap, promote any other. */
    method Consider(w: Waiter, ghost snapshot: seq<Waiter>, ghost s: State, ghost k: nat, ghost done: seq<bool>)
      returns (ghost done': seq<bool>)
      requires w in waiters && Flags()
      requires forall x | x in waiters && x.ticket == w.ticket :: x == w
      requires k < |snapshot| && snapshot[k] == w && NoDup(Tickets(snapshot))
      requires Stage(snapshot, s, k, done, waiting, Slots(activeCount, activeByUser), ledger)
      requires s.limits == Limits(maxActiveJobs, perUserMaxActive) && activeCount < maxActiveJobs
      modifies this`waiting, this`activeCount, this`activeByUser, this`ledger, w
      ensures Flags() && Stage(snapshot, s, k + 1, done', waiting, Slots(activeCount, activeByUser), ledger)
    {
      var u := w.ticket.user;
      ghost var slots := Slots(activeCount, activeByUser);
      // reading the defaultdict leaves an entry behind
      activeByUser := activeByUser[u := if u in activeByUser then activeByUser[u] else 0];
      if activeByUser[u] >= perUserMaxActive {
        StageSkip(snapshot, s, k, done, waiting, slots, ledger);
        done' := done + [false];
      } else {
        StageTake(snapshot, s, k, done, waiting, slots, ledger);
        TouchThenOccupy(slots, u);
        GrantSlot(w);
        done' := done + [true];
      }
    }

    /** The promotion loop: how far it got, and what it decided up to there. */
    method PromotionLoop(ghost s: State) returns (ghost i: nat, ghost done: seq<bool>)
      requires Distinct(waiters, waiting) && Flags()
      requires s.slots == Slots(activeCount, activeByUser) && s.ledger == ledger
      requires s.limits == Limits(maxActiveJobs, perUserMaxActive)
      modifies this`waiting, this`activeCount, this`activeByUser, this`ledger, waiters
      ensures Flags() && Stage(old(waiting), s, i, done, waiting, Slots(activeCount, activeByUser), ledger)
      ensures i == |old(waiting)| || activeCount >= maxActiveJobs
    {
      var snapshot := waiting;
      var k := 0;
      done := [];
      StageStart(snapshot, s);
      while k < |snapshot|
        invariant k <= |snapshot| && Flags()
        invariant Stage(snapshot, s, k, done, waiting, Slots(activeCount, activeByUser), ledger)
      {
        if activeCount >= maxActiveJobs {
          break;
        }
        done := Consider(snapshot[k], snapshot, s, k, done);
        k := k + 1;
      }
      i := k;
    }

    method SortQueue()
      modifies this`waiting
      ensures waiting == Sort(old(waiting), WaiterLe)
    {
      waiting := Sort(waiting, WaiterLe);
    }

    method TryPromote()
      requires Valid()
      modifies this, waiters
      ensures Valid() && waiters == old(waiters)
      ensures View() == Promote(old(View()))
    {
      ghost var s, queued := View(), waiting;
      SortedRoster(waiters, queued, ledger, nextSeq);
      SortQueue();
      ghost var i, done := PromotionLoop(s);
      LoopPromotes(waiters, queued, s, i, done, waiting, Slots(activeCount, activeByUser), ledger);
    }

    method Join(w: Waiter)
      requires Valid() && w.ticket.seqNo == nextSeq && !w.promoted
      modifies this
      ensures Valid() && waiters == old(waiters) + {w}
      ensures View() == Enqueued(old(View()), w.ticket)
    {
      RosterEnter(waiters, waiting, ledger, nextSeq, w);
      nextSeq := nextSeq + 1;
      waiting := waiting + [w];
      ledger := ledger[w.ticket := Waiting];
      waiters := waiters + {w};
    }

    /** The first section of an admission: join the queue unless it is full. */
    method Enter(user: User, priority: int) returns (r: Admission)
      requires Valid()
      modifies this, waiters
      ensures Valid() && View() == Apply(old(View()), Admit(user, priority))
      ensures Enabled(old(View()), Admit(user, priority))
      ensures r.QueueFull? <==> old(|waiting|) >= queueMaxDepth
      ensures r.QueueFull? ==> waiters == old(waiters)
      ensures r.Queued? ==> fresh(r.waiter) && waiters == old(waiters) + {r.waiter}
      ensures r.Queued? ==> r.waiter.ticket == Ticket(user, priority, old(nextSeq))
    {
      var w := new Waiter(Ticket(user, priority, nextSeq));
      if |waiting| >= queueMaxDepth {
        nextSeq := nextSeq + 1;
        return QueueFull;
      }
      Join(w);
      TryPromote();
      return Queued(w);
    }

    /** A waiter whose task is still inside the admission loop. */
    ghost predicate InAdmission(w: Waiter)
      reads this
    {
      w in waiters && (At(ledger, w.ticket, Waiting) || At(ledger, w.ticket, Granted))
    }

    method GiveUp(w: Waiter)
      requires Valid() && w in waiters && At(ledger, w.ticket, Waiting)
      modifies this
      ensures Valid() && waiters == old(waiters)
      ensures View() == Dequeued(old(View()), w.ticket, TimedOut)
    {
      RosterRemove(waiters, waiting, ledger, nextSeq, w, TimedOut);
      if w in waiting {
        waiting := Remove(waiting, w);
      }
      ledger := ledger[w.ticket := TimedOut];
    }

    /** One turn of the loop in which a waiter sleeps. A promoted waiter leaves with its
        slot even when its deadline has passed. */
    method Turn(w: Waiter, deadlinePassed: bool) returns (o: Outcome)
      requires Valid() && InAdmission(w)
      modifies this
      ensures Valid() && waiters == old(waiters)
      ensures o == if old(At(ledger, w.ticket, Granted)) then GotSlot
                   else if deadlinePassed then QueueTimeout else KeepWaiting
      ensures View() == match o
                        case GotSlot => Apply(old(View()), Wake(w.ticket))
                        case QueueTimeout => Apply(old(View()), Timeout(w.ticket))
                        case KeepWaiting => old(View())
      ensures o.GotSlot? ==> Enabled(old(View()), Wake(w.ticket))
      ensures o.QueueTimeout? ==> Enabled(old(View()), Timeout(w.ticket))
    {
      InTickets(waiting, w.ticket);
      if w.promoted {
        ledger := ledger[w.ticket := Holding];
        return GotSlot;
      }
      if deadlinePassed {
        GiveUp(w);
        return QueueTimeout;
      }
      return KeepWaiting;
    }

    method Withdraw(w: Waiter)
      requires Valid() && w in waiters && w in waiting
      modifies this
      ensures Valid() && waiters == old(waiters)
      ensures View() == Dequeued(old(View()), w.ticket, Cancelled)
    {
      RosterRemove(waiters, waiting, ledger, nextSeq, w, Cancelled);
      waiting := Remove(waiting, w);
      ledger := ledger[w.ticket := Cancelled];
    }

    method CancelQueued(w: Waiter)
      requires Valid() && w in waiters && w in waiting
      modifies this, waiters
      ensures Valid() && waiters == old(waiters)
      ensures View() == Promote(Dequeued(old(View()), w.ticket, Cancelled))
    {
      Withdraw(w);
      TryPromote();
    }

    /** The coroutine of a waiter is cancelled before it gets out of that loop. A waiter that
        was promoted in the meantime is no longer queued, and nothing is undone. */
    method CancelWait(w: Waiter)
      requires Valid() && InAdmission(w)
      modifies this, waiters
      ensures Valid() && waiters == old(waiters)
      ensures View() == Apply(old(View()), Cancel(w.ticket)) && Enabled(old(View()), Cancel(w.ticket))
      ensures old(w.promoted) ==> activeCount == old(activeCount) && activeByUser == old(activeByUser)
    {
      InTickets(waiting, w.ticket);
      if w in waiting {
        CancelQueued(w);
      } else {
        Abandon(w);
      }
    }

    /** Nothing is done about a waiter that was promoted already. */
    method Abandon(w: Waiter)
      requires Valid() && w in waiters && At(ledger, w.ticket, Granted)
      modifies this`ledger
      ensures Valid() && View() == old(View()).(ledger := old(ledger)[w.ticket := Abandoned])
    {
      RosterRelabel(waiters, waiting, ledger, nextSeq, w.ticket, Abandoned);
      ledger := ledger[w.ticket := Abandoned];
    }

    method LowerCounts(u: User)
      modifies this`activeCount, this`activeByUser
      ensures Slots(activeCount, activeByUser) == Vacate(old(Slots(activeCount, activeByUser)), u)
    {
      LoweredVacates(Slots(activeCount, activeByUser), u);
      activeCount := activeCount - 1;
      activeByUser := activeByUser[u := (if u in activeByUser then activeByUser[u] else 0) - 1];
      if activeByUser[u] <= 0 {
        activeByUser := activeByUser - {u};
      }
    }

    method GiveBack(w: Waiter)
      requires Valid() && w in waiters && At(ledger, w.ticket, Holding)
      modifies this
      ensures Valid() && waiters == old(waiters)
      ensures View() == Freed(old(View()), w.ticket)
    {
      LowerCounts(w.ticket.user);
      RosterRelabel(waiters, waiting, ledger, nextSeq, w.ticket, Released);
      ledger := ledger[w.ticket := Released];
    }

    /** The last section of an admission: give the slot back. */
    method Leave(w: Waiter)
      requires Valid() && w in waiters && At(ledger, w.ticket, Holding)
      modifies this, waiters
      ensures Valid() && waiters == old(waiters)
      ensures View() == Apply(old(View()), Release(w.ticket)) && Enabled(old(View()), Release(w.ticket))
    {
      GiveBack(w);
      TryPromote();
    }

    /** What applying an effective policy does to the scheduler. */
    method SetLimits(ceiling: int, cap: int)
      requires Valid()
      modifies this
      ensures Valid() && waiters == old(waiters)
      ensures View() == Apply(old(View()), SetPolicy(Limits(ceiling, cap)))
      ensures Enabled(old(View()), SetPolicy(Limits(ceiling, cap)))
    {
      maxActiveJobs := ceiling;
      perUserMaxActive := cap;
    }
  }
}
