/** What one pass of the promotion loop achieves: exactly how many of every prefix it takes,
    that no selection respecting the same limits takes more of any prefix, and whom it may
    pass over. */
module GreedyPromotion {
  import opened MapSums
  import opened Ordering
  import opened Selections
  import opened SchedulerModel

  function Min(a: int, b: int): int { if a <= b then a else b }

  function Max(a: int, b: int): int { if a >= b then a else b }

  /** Free slots, over all users and for one user. */
  function Room(slots: Slots, limits: Limits): int {
    Max(0, limits.ceiling - slots.active)
  }

  function RoomOf(slots: Slots, limits: Limits, u: User): int {
    Max(0, limits.cap - HeldBy(slots, u))
  }

  function InQueue(queue: seq<Ticket>, u: User): nat {
    if queue == [] then 0 else (if queue[0].user == u then 1 else 0) + InQueue(queue[1..], u)
  }

  function TakenOf(queue: seq<Ticket>, mask: seq<bool>, u: User): nat
    requires |queue| == |mask|
  {
    if queue == [] then 0
    else (if mask[0] && queue[0].user == u then 1 else 0) + TakenOf(queue[1..], mask[1..], u)
  }

  function UsersIn(queue: seq<Ticket>): set<User> {
    set w | w in queue :: w.user
  }

  function Shares(users: set<User>, queue: seq<Ticket>, slots: Slots, limits: Limits): map<User, int> {
    map u | u in users :: Min(RoomOf(slots, limits, u), InQueue(queue, u))
  }

  /** The per-user limits alone would let this many waiters of the list through. */
  ghost function Quota(users: set<User>, queue: seq<Ticket>, slots: Slots, limits: Limits): int {
    MapSum(Shares(users, queue, slots, limits))
  }

  lemma SharesAreCounts(users: set<User>, queue: seq<Ticket>, slots: Slots, limits: Limits)
    ensures Quota(users, queue, slots, limits) >= 0
    ensures queue == [] ==> Quota(users, queue, slots, limits) == 0
  {
    MapSumNonNegative(Shares(users, queue, slots, limits));
    if queue == [] {
      MapSumZero(Shares(users, queue, slots, limits));
    }
  }

  /** Passing over a waiter at its cap leaves the quota of the rest what it was. */
  lemma QuotaSkip(users: set<User>, queue: seq<Ticket>, slots: Slots, limits: Limits)
    requires queue != [] && HeldBy(slots, queue[0].user) >= limits.cap
    ensures Quota(users, queue, slots, limits) == Quota(users, queue[1..], Touch(slots, queue[0].user), limits)
  {
    assert Shares(users, queue, slots, limits)
        == Shares(users, queue[1..], Touch(slots, queue[0].user), limits);
  }

  /** Promoting a waiter takes one from the quota. */
  lemma QuotaTake(users: set<User>, queue: seq<Ticket>, slots: Slots, limits: Limits)
    requires queue != [] && queue[0].user in users && HeldBy(slots, queue[0].user) < limits.cap
    ensures Quota(users, queue, slots, limits)
         == 1 + Quota(users, queue[1..], Occupy(slots, queue[0].user), limits)
  {
    var u := queue[0].user;
    var after := Shares(users, queue[1..], Occupy(slots, u), limits);
    MapSumBump(after, Shares(users, queue, slots, limits), u, 1);
  }

  lemma {:induction false} NonePicked(n: nat, k: nat)
    requires k <= n
    ensures Picked(seq(n, _ => false)[..k]) == 0
  {
    if k > 0 {
      NonePicked(n - 1, k - 1);
      assert seq(n, _ => false)[..k][1..] == seq(n - 1, _ => false)[..k - 1];
    }
  }

  /** What the loop leaves for the waiters behind the first one. */
  function AfterHead(queue: seq<Ticket>, slots: Slots, limits: Limits): Slots
    requires queue != []
  {
    var u := queue[0].user;
    if HeldBy(slots, u) >= limits.cap then Touch(slots, u) else Occupy(slots, u)
  }

  lemma ScanHead(queue: seq<Ticket>, slots: Slots, limits: Limits)
    requires queue != [] && slots.active < limits.ceiling
    ensures ScanQueue(queue, slots, limits).picked
         == [HeldBy(slots, queue[0].user) < limits.cap]
          + ScanQueue(queue[1..], AfterHead(queue, slots, limits), limits).picked
  {
  }

  lemma PickedHead(first: bool, rest: seq<bool>, k: nat)
    requires 0 < k <= |rest| + 1
    ensures Picked(([first] + rest)[..k]) == (if first then 1 else 0) + Picked(rest[..k - 1])
  {
    assert ([first] + rest)[..k] == [first] + rest[..k - 1];
  }

  lemma QuotaHead(users: set<User>, queue: seq<Ticket>, slots: Slots, limits: Limits)
    requires queue != [] && queue[0].user in users
    ensures var rest := Quota(users, queue[1..], AfterHead(queue, slots, limits), limits);
      && rest >= 0
      && Quota(users, queue, slots, limits) == (if HeldBy(slots, queue[0].user) < limits.cap then 1 else 0) + rest
  {
    SharesAreCounts(users, queue[1..], AfterHead(queue, slots, limits), limits);
    if HeldBy(slots, queue[0].user) >= limits.cap {
      QuotaSkip(users, queue, slots, limits);
    } else {
      QuotaTake(users, queue, slots, limits);
    }
  }

  lemma RoomHead(queue: seq<Ticket>, slots: Slots, limits: Limits)
    requires queue != [] && slots.active < limits.ceiling
    ensures Room(slots, limits) >= 1
    ensures Room(AfterHead(queue, slots, limits), limits)
         == Room(slots, limits) - (if HeldBy(slots, queue[0].user) < limits.cap then 1 else 0)
  {
  }

  lemma PrefixStep(users: set<User>, queue: seq<Ticket>, slots: Slots, limits: Limits, k: nat)
    requires 0 < k <= |queue| && queue[0].user in users && slots.active < limits.ceiling
    requires var next := AfterHead(queue, slots, limits);
      Picked(ScanQueue(queue[1..], next, limits).picked[..k - 1])
      == Min(Room(next, limits), Quota(users, queue[..k][1..], next, limits))
    ensures Picked(ScanQueue(queue, slots, limits).picked[..k])
         == Min(Room(slots, limits), Quota(users, queue[..k], slots, limits))
  {
    var next := AfterHead(queue, slots, limits);
    ScanHead(queue, slots, limits);
    PickedHead(HeldBy(slots, queue[0].user) < limits.cap, ScanQueue(queue[1..], next, limits).picked, k);
    QuotaHead(users, queue[..k], slots, limits);
    RoomHead(queue, slots, limits);
    assert AfterHead(queue[..k], slots, limits) == AfterHead(queue, slots, limits);
  }

  lemma {:induction false} PrefixExactOver(users: set<User>, queue: seq<Ticket>, slots: Slots, limits: Limits, k: nat)
    requires k <= |queue| && forall i | 0 <= i < |queue| :: queue[i].user in users
    ensures Picked(ScanQueue(queue, slots, limits).picked[..k])
         == Min(Room(slots, limits), Quota(users, queue[..k], slots, limits))
  {
    SharesAreCounts(users, queue[..k], slots, limits);
    if k == 0 {
    } else if slots.active >= limits.ceiling {
      NonePicked(|queue|, k);
    } else {
      PrefixExactOver(users, queue[1..], AfterHead(queue, slots, limits), limits, k - 1);
      assert queue[..k][1..] == queue[1..][..k - 1];
      PrefixStep(users, queue, slots, limits, k);
    }
  }

  /** Of every prefix of the sorted queue the loop promotes exactly the smaller of the free
      slots and what the per-user caps allow. */
  lemma PrefixExact(queue: seq<Ticket>, slots: Slots, limits: Limits, k: nat)
    requires k <= |queue|
    ensures Picked(ScanQueue(queue, slots, limits).picked[..k])
         == Min(Room(slots, limits), Quota(UsersIn(queue), queue[..k], slots, limits))
  {
    PrefixExactOver(UsersIn(queue), queue, slots, limits, k);
  }

  /** A choice of waiters that the ceiling and every per-user cap have room for. */
  ghost predicate Feasible(queue: seq<Ticket>, mask: seq<bool>, slots: Slots, limits: Limits) {
    && |mask| == |queue|
    && Picked(mask) <= Room(slots, limits)
    && forall u: User :: TakenOf(queue, mask, u) <= RoomOf(slots, limits, u)
  }

  /** The scan adds to the counters exactly what it picked. */
  lemma {:induction false} ScanAccounts(queue: seq<Ticket>, slots: Slots, limits: Limits, u: User)
    ensures var scan := ScanQueue(queue, slots, limits);
      && scan.slots.active == slots.active + Picked(scan.picked)
      && HeldBy(scan.slots, u) == HeldBy(slots, u) + TakenOf(queue, scan.picked, u)
  {
    if queue == [] {
    } else if slots.active >= limits.ceiling {
      NonePicked(|queue|, |queue|);
      var none := seq(|queue|, _ => false);
      assert none[..|queue|] == none;
      NoneTaken(queue, none, u);
    } else {
      var v := queue[0].user;
      if HeldBy(slots, v) >= limits.cap {
        ScanAccounts(queue[1..], Touch(slots, v), limits, u);
      } else {
        ScanAccounts(queue[1..], Occupy(slots, v), limits, u);
      }
    }
  }

  lemma {:induction false} NoneTaken(queue: seq<Ticket>, mask: seq<bool>, u: User)
    requires |queue| == |mask| && forall i :: 0 <= i < |mask| ==> !mask[i]
    ensures TakenOf(queue, mask, u) == 0
  {
    if queue != [] {
      NoneTaken(queue[1..], mask[1..], u);
    }
  }

  lemma {:induction false} ScanWithinCap(queue: seq<Ticket>, slots: Slots, limits: Limits, u: User)
    ensures var scan := ScanQueue(queue, slots, limits);
      && scan.slots.active <= Max(slots.active, limits.ceiling)
      && HeldBy(scan.slots, u) <= Max(HeldBy(slots, u), limits.cap)
  {
    if queue != [] && slots.active < limits.ceiling {
      var v := queue[0].user;
      if HeldBy(slots, v) >= limits.cap {
        ScanWithinCap(queue[1..], Touch(slots, v), limits, u);
      } else {
        ScanWithinCap(queue[1..], Occupy(slots, v), limits, u);
      }
    }
  }

  lemma GreedyFeasible(queue: seq<Ticket>, slots: Slots, limits: Limits)
    ensures Feasible(queue, ScanQueue(queue, slots, limits).picked, slots, limits)
  {
    var scan := ScanQueue(queue, slots, limits);
    forall u: User ensures TakenOf(queue, scan.picked, u) <= RoomOf(slots, limits, u)
                   ensures Picked(scan.picked) <= Room(slots, limits)
    {
      ScanAccounts(queue, slots, limits, u);
      ScanWithinCap(queue, slots, limits, u);
    }
    assert TakenOf(queue, scan.picked, "") <= RoomOf(slots, limits, "");
  }

  function TakenShares(users: set<User>, queue: seq<Ticket>, mask: seq<bool>): map<User, int>
    requires |queue| == |mask|
  {
    map u | u in users :: TakenOf(queue, mask, u)
  }

  lemma {:induction false} PickedByUser(users: set<User>, queue: seq<Ticket>, mask: seq<bool>)
    requires |queue| == |mask| && UsersIn(queue) <= users
    ensures Picked(mask) == MapSum(TakenShares(users, queue, mask))
  {
    if queue == [] {
      MapSumZero(TakenShares(users, queue, mask));
    } else {
      var u := queue[0].user;
      assert u in UsersIn(queue) && UsersIn(queue[1..]) <= users;
      PickedByUser(users, queue[1..], mask[1..]);
      var rest := TakenShares(users, queue[1..], mask[1..]);
      var v := rest[u] + if mask[0] then 1 else 0;
      MapSumUpdate(rest, u, v);
      assert TakenShares(users, queue, mask) == rest[u := v];
    }
  }

  lemma {:induction false} TakenOfPrefix(queue: seq<Ticket>, mask: seq<bool>, u: User, k: nat)
    requires k <= |queue| == |mask|
    ensures TakenOf(queue[..k], mask[..k], u) <= InQueue(queue[..k], u)
    ensures TakenOf(queue[..k], mask[..k], u) <= TakenOf(queue, mask, u)
    ensures Picked(mask[..k]) <= Picked(mask)
  {
    if k > 0 {
      TakenOfPrefix(queue[1..], mask[1..], u, k - 1);
      assert queue[..k][1..] == queue[1..][..k - 1] && mask[..k][1..] == mask[1..][..k - 1];
    }
  }

  /** No feasible choice takes more of any prefix than the loop does: it promotes as many as
      possible, and as highly ranked as possible. */
  lemma GreedyDominates(queue: seq<Ticket>, slots: Slots, limits: Limits, mask: seq<bool>, k: nat)
    requires Feasible(queue, mask, slots, limits) && k <= |queue|
    ensures Picked(mask[..k]) <= Picked(ScanQueue(queue, slots, limits).picked[..k])
  {
    var users := UsersIn(queue);
    assert UsersIn(queue[..k]) <= users;
    PickedByUser(users, queue[..k], mask[..k]);
    var taken := TakenShares(users, queue[..k], mask[..k]);
    var shares := Shares(users, queue[..k], slots, limits);
    forall u | u in users ensures taken[u] <= shares[u] {
      TakenOfPrefix(queue, mask, u, k);
    }
    MapSumMonotone(taken, shares);
    TakenOfPrefix(queue, mask, "", k);
    PrefixExact(queue, slots, limits, k);
  }

  lemma {:induction false} PrefixCountsDetermine(m: seq<bool>, n: seq<bool>)
    requires |m| == |n|
    requires forall k :: 0 <= k <= |m| ==> Picked(m[..k]) == Picked(n[..k])
    ensures m == n
  {
    forall k | 0 <= k < |m| ensures m[k] == n[k] {
      assert m[..k + 1] == m[..k] + [m[k]] && n[..k + 1] == n[..k] + [n[k]];
      PickedConcat(m[..k], [m[k]]);
      PickedConcat(n[..k], [n[k]]);
      assert Picked(m[..k + 1]) == Picked(n[..k + 1]) && Picked(m[..k]) == Picked(n[..k]);
    }
  }

  /** The loop's choice is the only feasible one that takes at least as much of every prefix
      as every feasible choice. */
  lemma GreedyIsTheOptimum(queue: seq<Ticket>, slots: Slots, limits: Limits, best: seq<bool>)
    ensures best == ScanQueue(queue, slots, limits).picked
      <==> (&& Feasible(queue, best, slots, limits)
            && forall mask, k | Feasible(queue, mask, slots, limits) && 0 <= k <= |queue| ::
                 Picked(mask[..k]) <= Picked(best[..k]))
  {
    var greedy := ScanQueue(queue, slots, limits).picked;
    GreedyFeasible(queue, slots, limits);
    forall mask, k | Feasible(queue, mask, slots, limits) && 0 <= k <= |queue|
      ensures Picked(mask[..k]) <= Picked(greedy[..k])
    {
      GreedyDominates(queue, slots, limits, mask, k);
    }
    if Feasible(queue, best, slots, limits)
       && forall mask, k | Feasible(queue, mask, slots, limits) && 0 <= k <= |queue| ::
            Picked(mask[..k]) <= Picked(best[..k])
    {
      PrefixCountsDetermine(best, greedy);
    }
  }

  lemma TakenHead(queue: seq<Ticket>, mask: seq<bool>, k: nat, u: User)
    requires 0 < k <= |queue| == |mask|
    ensures TakenOf(queue[..k], mask[..k], u)
         == (if mask[0] && queue[0].user == u then 1 else 0) + TakenOf(queue[1..][..k - 1], mask[1..][..k - 1], u)
  {
    assert queue[..k][1..] == queue[1..][..k - 1] && mask[..k][1..] == mask[1..][..k - 1];
  }

  lemma BypassedHead(queue: seq<Ticket>, slots: Slots, limits: Limits, j: nat)
    requires 0 < j < |queue|
    requires var p := ScanQueue(queue, slots, limits).picked; !p[0] && p[j]
    ensures HeldBy(slots, queue[0].user) >= limits.cap && queue[j].user != queue[0].user
  {
    ScanHead(queue, slots, limits);
    if queue[j].user == queue[0].user {
      SameUserStaysOut(queue[1..], AfterHead(queue, slots, limits), limits, queue[0].user, j - 1);
    }
  }

  /** What the head adds to the count of a user, in the counters or among those taken. */
  lemma HeadCounts(queue: seq<Ticket>, mask: seq<bool>, slots: Slots, limits: Limits, k: nat, u: User)
    requires 0 < k <= |queue| == |mask| && mask[0] == (HeldBy(slots, queue[0].user) < limits.cap)
    ensures HeldBy(slots, u) + TakenOf(queue[..k], mask[..k], u)
         == HeldBy(AfterHead(queue, slots, limits), u) + TakenOf(queue[1..][..k - 1], mask[1..][..k - 1], u)
  {
    TakenHead(queue, mask, k, u);
  }

  lemma BelowCeiling(queue: seq<Ticket>, slots: Slots, limits: Limits, j: nat)
    requires j < |queue| && ScanQueue(queue, slots, limits).picked[j]
    ensures slots.active < limits.ceiling
  {
  }

  /** With p the picks for a queue, was the i-th waiter's user at its cap when the loop got there? */
  predicate AtCapWhenReached(queue: seq<Ticket>, p: seq<bool>, slots: Slots, limits: Limits, i: nat)
    requires i < |queue| == |p|
  {
    HeldBy(slots, queue[i].user) + TakenOf(queue[..i], p[..i], queue[i].user) >= limits.cap
  }

  lemma PickedBehindHead(queue: seq<Ticket>, slots: Slots, limits: Limits, k: nat)
    requires 0 < k < |queue| && slots.active < limits.ceiling
    ensures ScanQueue(queue, slots, limits).picked[k]
         == ScanQueue(queue[1..], AfterHead(queue, slots, limits), limits).picked[k - 1]
  {
    ScanHead(queue, slots, limits);
  }

  lemma AtCapBehindHead(queue: seq<Ticket>, slots: Slots, limits: Limits, i: nat)
    requires 0 < i < |queue| && slots.active < limits.ceiling
    ensures var next := AfterHead(queue, slots, limits);
      AtCapWhenReached(queue, ScanQueue(queue, slots, limits).picked, slots, limits, i)
      <==> AtCapWhenReached(queue[1..], ScanQueue(queue[1..], next, limits).picked, next, limits, i - 1)
  {
    var p := ScanQueue(queue, slots, limits).picked;
    ScanHead(queue, slots, limits);
    assert p[1..] == ScanQueue(queue[1..], AfterHead(queue, slots, limits), limits).picked;
    HeadCounts(queue, p, slots, limits, i, queue[i].user);
  }

  /** A waiter is passed over in favour of a later one only when its own user was at the cap
      at the moment the loop reached it. */
  lemma {:induction false} BypassOnlyAtCap(queue: seq<Ticket>, slots: Slots, limits: Limits, i: nat, j: nat)
    requires i < j < |queue|
    requires var p := ScanQueue(queue, slots, limits).picked; !p[i] && p[j]
    ensures AtCapWhenReached(queue, ScanQueue(queue, slots, limits).picked, slots, limits, i)
    ensures queue[j].user != queue[i].user
  {
    BelowCeiling(queue, slots, limits, j);
    if i == 0 {
      BypassedHead(queue, slots, limits, j);
    } else {
      PickedBehindHead(queue, slots, limits, i);
      PickedBehindHead(queue, slots, limits, j);
      BypassOnlyAtCap(queue[1..], AfterHead(queue, slots, limits), limits, i - 1, j - 1);
      AtCapBehindHead(queue, slots, limits, i);
    }
  }

  lemma {:induction false} SameUserStaysOut(queue: seq<Ticket>, slots: Slots, limits: Limits, u: User, j: nat)
    requires j < |queue| && HeldBy(slots, u) >= limits.cap && queue[j].user == u
    ensures !ScanQueue(queue, slots, limits).picked[j]
  {
    if j > 0 && slots.active < limits.ceiling {
      SameUserStaysOut(queue[1..], AfterHead(queue, slots, limits), limits, u, j - 1);
    }
  }

  /** Nothing more can be promoted: the ceiling is reached, or every waiter's user is at its cap. */
  ghost predicate Saturated(slots: Slots, waiting: seq<Ticket>, limits: Limits) {
    slots.active >= limits.ceiling || forall w | w in waiting :: HeldBy(slots, w.user) >= limits.cap
  }

  /** Counters only grow during a scan. */
  lemma {:induction false} ScanKeepsKeys(queue: seq<Ticket>, slots: Slots, limits: Limits, u: User)
    ensures var scan := ScanQueue(queue, slots, limits);
      && HeldBy(scan.slots, u) >= HeldBy(slots, u)
      && (u in slots.byUser ==> u in scan.slots.byUser)
  {
    if queue != [] && slots.active < limits.ceiling {
      ScanKeepsKeys(queue[1..], AfterHead(queue, slots, limits), limits, u);
    }
  }

  lemma {:induction false} ScanSaturates(queue: seq<Ticket>, slots: Slots, limits: Limits)
    ensures var scan := ScanQueue(queue, slots, limits);
      && Saturated(scan.slots, Reject(queue, scan.picked), limits)
      && (scan.slots.active < limits.ceiling ==>
            forall w | w in Reject(queue, scan.picked) :: w.user in scan.slots.byUser)
  {
    if queue != [] && slots.active < limits.ceiling {
      var v := queue[0].user;
      if HeldBy(slots, v) >= limits.cap {
        ScanSaturates(queue[1..], Touch(slots, v), limits);
        ScanKeepsKeys(queue[1..], Touch(slots, v), limits, v);
      } else {
        ScanSaturates(queue[1..], Occupy(slots, v), limits);
      }
    }
  }

  /** A scan of a saturated queue picks nobody. */
  lemma {:induction false} SaturatedScan(queue: seq<Ticket>, slots: Slots, limits: Limits)
    requires Saturated(slots, queue, limits)
    ensures var scan := ScanQueue(queue, slots, limits);
      && scan.picked == seq(|queue|, _ => false)
      && scan.slots.active == slots.active
      && ((slots.active < limits.ceiling ==> forall w | w in queue :: w.user in slots.byUser) ==> scan.slots == slots)
  {
    if queue != [] && slots.active < limits.ceiling {
      var u := queue[0].user;
      assert queue[0] in queue;
      assert forall w | w in queue[1..] :: w in queue;
      SaturatedScan(queue[1..], Touch(slots, u), limits);
      assert u in slots.byUser ==> Touch(slots, u) == slots;
    }
  }

  /** When the per-user cap can never bind, the scan is a plain priority queue: it takes the
      first free-slots many and nobody else. */
  lemma {:induction false} StrictPriority(queue: seq<Ticket>, slots: Slots, limits: Limits, i: nat)
    requires limits.cap >= limits.ceiling
    requires forall u: User :: HeldBy(slots, u) <= slots.active
    requires i < |queue|
    ensures ScanQueue(queue, slots, limits).picked[i] <==> i < Room(slots, limits)
  {
    if slots.active < limits.ceiling && i > 0 {
      var next := Occupy(slots, queue[0].user);
      forall u: User ensures HeldBy(next, u) <= next.active {
        assert HeldBy(slots, u) <= slots.active;
      }
      assert HeldBy(slots, queue[0].user) <= slots.active;
      StrictPriority(queue[1..], next, limits, i - 1);
    }
  }
}
