/** The admission scheduler as a transition system on values.

    Every critical section of the scheduler runs without giving up its lock, so each is one
    atomic event. `State` holds what the scheduler object holds, with the same dictionary
    semantics for the per-user counts; `Ledger` is the history the proofs speak about. */
module SchedulerModel {
  import opened Ordering
  import opened Selections

  type User = string

  /** What a waiter is ranked by. Sequence numbers are drawn from one process-wide counter. */
  datatype Ticket = Ticket(user: User, priority: int, seqNo: nat)

  /** Higher priority first, then first come first served. */
  predicate Outranks(a: Ticket, b: Ticket) {
    a.priority > b.priority || (a.priority == b.priority && a.seqNo < b.seqNo)
  }

  predicate RankLe(a: Ticket, b: Ticket) {
    a.priority > b.priority || (a.priority == b.priority && a.seqNo <= b.seqNo)
  }

  datatype Limits = Limits(ceiling: int, cap: int)

  datatype Slots = Slots(active: int, byUser: map<User, int>)

  /** Reading a missing key of the per-user dictionary gives zero. */
  function HeldBy(slots: Slots, u: User): int {
    if u in slots.byUser then slots.byUser[u] else 0
  }

  /** ... and leaves that zero behind in the dictionary. */
  function Touch(slots: Slots, u: User): Slots {
    slots.(byUser := slots.byUser[u := HeldBy(slots, u)])
  }

  function Occupy(slots: Slots, u: User): Slots {
    Slots(slots.active + 1, slots.byUser[u := HeldBy(slots, u) + 1])
  }

  function Vacate(slots: Slots, u: User): Slots {
    var left := HeldBy(slots, u) - 1;
    Slots(slots.active - 1, if left <= 0 then slots.byUser - {u} else slots.byUser[u := left])
  }

  datatype Scan = Scan(slots: Slots, picked: seq<bool>)

  /** One pass of the promotion loop over a sorted queue: stop once the ceiling is reached,
      pass over a waiter whose user is at its cap, promote everybody else. */
  function ScanQueue(queue: seq<Ticket>, slots: Slots, limits: Limits): (scan: Scan)
    ensures |scan.picked| == |queue|
  {
    if queue == [] then Scan(slots, [])
    else if slots.active >= limits.ceiling then Scan(slots, seq(|queue|, _ => false))
    else
      var u := queue[0].user;
      if HeldBy(slots, u) >= limits.cap then
        var rest := ScanQueue(queue[1..], Touch(slots, u), limits);
        Scan(rest.slots, [false] + rest.picked)
      else
        var rest := ScanQueue(queue[1..], Occupy(slots, u), limits);
        Scan(rest.slots, [true] + rest.picked)
  }

  /** Where a waiter that got past the queue-full check is. */
  datatype Place =
    | Waiting
    | Granted    // promoted, its task has not woken yet
    | Holding    // running inside the admitted block
    | Released
    | TimedOut
    | Cancelled  // cancelled while still queued
    | Abandoned  // cancelled after promotion: its slot is never given back

  type Ledger = map<Ticket, Place>

  datatype State = State(
    limits: Limits,
    maxDepth: int,
    slots: Slots,
    waiting: seq<Ticket>,
    nextSeq: nat,
    ledger: Ledger
  )

  function Init(limits: Limits, maxDepth: int): State {
    State(limits, maxDepth, Slots(0, map[]), [], 0, map[])
  }

  function Promote(s: State): State {
    var queue := Sort(s.waiting, RankLe);
    var scan := ScanQueue(queue, s.slots, s.limits);
    SortKeepsLength(s.waiting);
    s.(slots := scan.slots,
       waiting := Reject(queue, scan.picked),
       ledger := s.ledger + Mark(SetOf(Select(queue, scan.picked))))
  }

  function Mark(taken: set<Ticket>): Ledger {
    map t | t in taken :: Granted
  }

  lemma RankIsTotal()
    ensures TotalPreorder(RankLe)
  {
  }

  lemma SortKeepsLength(ws: seq<Ticket>)
    ensures |Sort(ws, RankLe)| == |ws|
  {
    RankIsTotal();
    SortSorts(ws, RankLe);
  }

  datatype Event =
    | Admit(user: User, priority: int)
    | Wake(t: Ticket)
    | Timeout(t: Ticket)
    | Cancel(t: Ticket)
    | Release(t: Ticket)
    | SetPolicy(limits: Limits)

  predicate At(l: Ledger, t: Ticket, p: Place) {
    t in l && l[t] == p
  }

  /** Which events are possible. Cancelling a promoted waiter is allowed a little too often: one
      that was promoted within its own admission reaches its slot without suspending, so only a
      waiter that slept in the queue can really be cancelled between promotion and waking. The
      extra runs make the theorems over all runs stronger; counterexamples do without them. */
  predicate Enabled(s: State, e: Event) {
    match e
    case Admit(_, _) => true
    case Wake(t) => At(s.ledger, t, Granted)
    case Timeout(t) => t in s.waiting
    case Cancel(t) => t in s.waiting || At(s.ledger, t, Granted)
    case Release(t) => At(s.ledger, t, Holding)
    case SetPolicy(_) => true
  }

  /** The state in which a new waiter has joined the queue, before promotion. */
  function Enqueued(s: State, t: Ticket): State {
    s.(waiting := s.waiting + [t], nextSeq := s.nextSeq + 1, ledger := s.ledger[t := Waiting])
  }

  function Dequeued(s: State, t: Ticket, p: Place): State {
    s.(waiting := Remove(s.waiting, t), ledger := s.ledger[t := p])
  }

  function Freed(s: State, t: Ticket): State {
    s.(slots := Vacate(s.slots, t.user), ledger := s.ledger[t := Released])
  }

  /** The state after an event. An admission that finds the queue full still uses up a
      sequence number. Cancelling a waiter that was promoted but has not woken changes no
      counter. Rewriting the limits promotes nobody. */
  function Apply(s: State, e: Event): State {
    match e
    case Admit(u, p) =>
      if |s.waiting| >= s.maxDepth then s.(nextSeq := s.nextSeq + 1)
      else Promote(Enqueued(s, Ticket(u, p, s.nextSeq)))
    case Wake(t) => s.(ledger := s.ledger[t := Holding])
    case Timeout(t) => Dequeued(s, t, TimedOut)
    case Cancel(t) =>
      if t in s.waiting then Promote(Dequeued(s, t, Cancelled))
      else s.(ledger := s.ledger[t := Abandoned])
    case Release(t) => Promote(Freed(s, t))
    case SetPolicy(limits) => s.(limits := limits)
  }

  predicate Occupies(p: Place) {
    p == Granted || p == Holding || p == Abandoned
  }

  /** Everybody counted as occupying a slot. */
  function Occupants(l: Ledger): set<Ticket> {
    set t | t in l && Occupies(l[t])
  }

  function AllAt(l: Ledger, p: Place): set<Ticket> {
    set t | t in l && l[t] == p
  }

  predicate WasPromoted(l: Ledger, t: Ticket) {
    t in l && (Occupies(l[t]) || l[t] == Released)
  }

  function OfUser(ts: set<Ticket>, u: User): set<Ticket> {
    set t | t in ts && t.user == u
  }

  /** A run: consecutive states linked by enabled events. */
  datatype Run = Run(states: seq<State>, events: seq<Event>)

  ghost predicate ValidRun(r: Run) {
    && |r.states| == |r.events| + 1
    && forall i | 0 <= i < |r.events| ::
      Enabled(r.states[i], r.events[i]) && r.states[i + 1] == Apply(r.states[i], r.events[i])
  }
}
