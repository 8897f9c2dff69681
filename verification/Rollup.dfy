/** The daily usage rollup: grouping a day's jobs, summing them up and rewriting that day's rows. */
module Rollup {
  import opened Lists
  import opened MapSums
  import opened Options
  import opened Ordering
  import opened Rounding
  import opened JobLifecycle
  import opened Sessions

  // ---------- percentiles ----------

  function AtMost(v: int): int -> bool { x => x <= v }

  function PercentileIndex(n: nat, pct: nat): (i: nat)
    requires n >= 1
    ensures i < n
  {
    var idx := n * pct / 100;
    if idx < n - 1 then idx else n - 1
  }

  lemma SortLength(values: seq<int>)
    ensures |Sort(values, IntLe)| == |values|
  {
    SortPermutes(values, IntLe);
  }

  /** The value at a percentage of the sorted list, in exact arithmetic. */
  function Percentile(values: seq<int>, pct: nat): Option<int> {
    if values == [] then None
    else
      SortLength(values);
      Some(Sort(values, IntLe)[PercentileIndex(|values|, pct)])
  }

  /** A percentile below 100 is one of the values, and it is the least number with more than
      that share of the values at or below it. */
  lemma PercentileIsLeast(values: seq<int>, pct: nat, v: int)
    requires values != [] && pct < 100
    ensures var r := Percentile(values, pct).value;
      && r in values
      && (r <= v <==> 100 * CountWhere(values, AtMost(v)) > pct * |values|)
  {
    var c, idx := CountWhere(values, AtMost(v)), PercentileIndex(|values|, pct);
    ShareAboveIndex(|values|, pct, c);
    OrderStatistic(values, IntLe, AtMost(v), idx);
    SortMembers(values, IntLe, Sort(values, IntLe)[idx]);
  }

  lemma ShareAboveIndex(n: nat, pct: nat, c: nat)
    requires n >= 1 && pct < 100
    ensures c > PercentileIndex(n, pct) <==> 100 * c > pct * n
  {
    assert n * pct == n * 99 - n * (99 - pct);
    assert n * (99 - pct) >= 0;
  }

  function Itself(): int -> int { x => x }

  /** The mean of the values, rounded to the nearest integer. */
  function RoundedMean(values: seq<int>): Option<int> {
    if values == [] then None else Some(RoundDiv(SumOf(values, Itself()), |values|))
  }

  /** The mean is off by at most half a unit. */
  lemma MeanIsNear(values: seq<int>)
    requires values != []
    ensures -|values| <= 2 * (|values| * RoundedMean(values).value - SumOf(values, Itself())) <= |values|
  {
    RoundDivNear(SumOf(values, Itself()), |values|);
  }

  // ---------- days ----------

  const DAY := 86_400_000_000

  function DayStart(day: int): int { day * DAY }

  /** The last microsecond of the day. */
  function DayEnd(day: int): int { day * DAY + DAY - 1 }

  predicate InDay(t: int, day: int) { DayStart(day) <= t <= DayEnd(day) }

  /** The days tile time: every microsecond is in exactly one. */
  lemma DaysTileTime(t: int, day: int)
    ensures InDay(t, day) <==> day == t / DAY
  {
  }

  // ---------- grouping ----------

  datatype Entry = Entry(user: nat, model: string, row: Row)

  datatype Group = Group(user: nat, model: string)

  datatype UsageKey = UsageKey(day: int, group: Group)

  datatype Usage = Usage(
    requests: int, completed: int, failed: int, cancelled: int, rejected: int,
    inputTokens: int, outputTokens: int, generationMsTotal: int,
    queueWaitMsMean: Option<int>, queueWaitMsP95: Option<int>,
    ttftMsMean: Option<int>, ttftMsP95: Option<int>,
    agentSessions: nat)

  type Table = map<UsageKey, Usage>

  function GroupOf(e: Entry): Group { Group(e.user, e.model) }

  function OnDay(day: int): Entry -> bool { (e: Entry) => InDay(e.row.receivedAt, day) }

  function InGroup(g: Group): Entry -> bool { (e: Entry) => GroupOf(e) == g }

  function DayJobs(jobs: seq<Entry>, day: int): seq<Entry> { Where(jobs, OnDay(day)) }

  /** The jobs of one group, in order. */
  function Members(jobs: seq<Entry>, g: Group): seq<Entry> { Where(jobs, InGroup(g)) }

  function GroupsIn(jobs: seq<Entry>): set<Group> {
    set e | e in jobs :: GroupOf(e)
  }

  function OrZero(o: Option<int>): int { if o.Some? then o.value else 0 }

  /** The figures that a rollup adds up over jobs. */
  datatype Figure =
    Requests | WithStatus(status: Status) | Unfinished | InputTokens | OutputTokens | GenerationMs

  function Worth(f: Figure, e: Entry): int {
    match f
    case Requests => 1
    case WithStatus(s) => if e.row.status == s then 1 else 0
    case Unfinished => if Terminal(e.row.status) then 0 else 1
    case InputTokens => OrZero(e.row.inputTokens)
    case OutputTokens => OrZero(e.row.outputTokens)
    case GenerationMs => OrZero(e.row.generationMs)
  }

  function WorthOf(f: Figure): Entry -> int { (e: Entry) => Worth(f, e) }

  function Total(f: Figure, jobs: seq<Entry>): int { SumOf(jobs, WorthOf(f)) }

  function WaitOf(): Entry -> Option<int> { (e: Entry) => e.row.queueWaitMs }

  function TtftOf(): Entry -> Option<int> { (e: Entry) => e.row.ttftMs }

  function Waits(jobs: seq<Entry>): seq<int> { Present(jobs, WaitOf()) }

  function Ttfts(jobs: seq<Entry>): seq<int> { Present(jobs, TtftOf()) }

  function Arrivals(jobs: seq<Entry>): seq<int> {
    seq(|jobs|, i requires 0 <= i < |jobs| => jobs[i].row.receivedAt)
  }

  ghost function Summary(members: seq<Entry>): Usage {
    Usage(|members|,
          Total(WithStatus(COMPLETED), members), Total(WithStatus(FAILED), members),
          Total(WithStatus(CANCELLED), members), Total(WithStatus(REJECTED), members),
          Total(InputTokens, members), Total(OutputTokens, members), Total(GenerationMs, members),
          RoundedMean(Waits(members)), Percentile(Waits(members), 95),
          RoundedMean(Ttfts(members)), Percentile(Ttfts(members), 95),
          |Starts(Times(Arrivals(members)))|)
  }

  /** The table after rolling up one day: that day's rows are exactly the summaries of its
      groups, every other day's rows are what they were. */
  ghost function RolledUp(jobs: seq<Entry>, table: Table, day: int): Table {
    var today := DayJobs(jobs, day);
    OtherDays(table, day) + DayRows(Summaries(today, GroupsIn(today)), day)
  }

  ghost function OtherDays(table: Table, day: int): Table {
    map k | k in table && k.day != day :: table[k]
  }

  ghost function Summaries(today: seq<Entry>, groups: set<Group>): map<Group, Usage> {
    map g | g in groups :: Summary(Members(today, g))
  }

  function DayRows(rows: map<Group, Usage>, day: int): Table {
    map k | k in DayKeys(rows.Keys, day) :: rows[k.group]
  }

  function DayKeys(groups: set<Group>, day: int): (keys: set<UsageKey>)
    ensures forall k :: k in keys <==> k.day == day && k.group in groups
  {
    var keys := set g | g in groups :: UsageKey(day, g);
    assert forall k: UsageKey | k.day == day && k.group in groups :: k == UsageKey(day, k.group);
    keys
  }

  /** The table after a rollup, row by row. */
  lemma RolledUpAt(jobs: seq<Entry>, table: Table, day: int, k: UsageKey)
    ensures var after := RolledUp(jobs, table, day);
      var today := DayJobs(jobs, day);
      if k.day == day then
        (k in after <==> k.group in GroupsIn(today))
        && (k in after ==> after[k] == Summary(Members(today, k.group)))
      else
        (k in after <==> k in table) && (k in after ==> after[k] == table[k])
  {
  }

  // ---------- one more job ----------

  lemma MembersSnoc(jobs: seq<Entry>, e: Entry, g: Group)
    ensures Members(jobs + [e], g) == Members(jobs, g) + (if GroupOf(e) == g then [e] else [])
  {
    WhereSnoc(jobs, e, InGroup(g));
  }

  lemma TotalSnoc(f: Figure, jobs: seq<Entry>, e: Entry)
    ensures Total(f, jobs + [e]) == Total(f, jobs) + Worth(f, e)
  {
    SumSnoc(jobs, e, WorthOf(f));
  }

  lemma GroupsSnoc(jobs: seq<Entry>, e: Entry)
    ensures GroupsIn(jobs + [e]) == GroupsIn(jobs) + {GroupOf(e)}
  {
    assert forall x :: x in jobs + [e] <==> x in jobs || x == e;
  }

  lemma NoMembers(jobs: seq<Entry>, g: Group)
    requires g !in GroupsIn(jobs)
    ensures Members(jobs, g) == []
  {
    if Members(jobs, g) != [] {
      WhereMember(jobs, InGroup(g), Members(jobs, g)[0]);
    }
  }

  // ---------- the operation ----------

  method CountStatus(members: seq<Entry>, status: Status) returns (n: nat)
    ensures n == Total(WithStatus(status), members)
  {
    n := 0;
    for i := 0 to |members|
      invariant n == Total(WithStatus(status), members[..i])
    {
      assert members[..i + 1] == members[..i] + [members[i]];
      TotalSnoc(WithStatus(status), members[..i], members[i]);
      if members[i].row.status == status {
        n := n + 1;
      }
    }
    assert members[..|members|] == members;
  }

  method Summarise(members: seq<Entry>) returns (u: Usage)
    ensures u == Summary(members)
  {
    var completed := CountStatus(members, COMPLETED);
    var failed := CountStatus(members, FAILED);
    var cancelled := CountStatus(members, CANCELLED);
    var rejected := CountStatus(members, REJECTED);
    var waits, ttfts := Waits(members), Ttfts(members);
    var sessions := CountSessions(Arrivals(members));
    u := Usage(|members|, completed, failed, cancelled, rejected,
               Total(InputTokens, members), Total(OutputTokens, members), Total(GenerationMs, members),
               RoundedMean(waits), Percentile(waits, 95), RoundedMean(ttfts), Percentile(ttfts, 95), sessions);
  }

  ghost predicate Grouped(groups: map<Group, seq<Entry>>, jobs: seq<Entry>) {
    groups.Keys == GroupsIn(jobs) && forall g | g in groups :: groups[g] == Members(jobs, g)
  }

  lemma GroupOneMore(groups: map<Group, seq<Entry>>, jobs: seq<Entry>, e: Entry)
    requires Grouped(groups, jobs)
    ensures var g := GroupOf(e);
      Grouped(groups[g := (if g in groups then groups[g] else []) + [e]], jobs + [e])
  {
    var g := GroupOf(e);
    GroupsSnoc(jobs, e);
    if g !in groups {
      NoMembers(jobs, g);
    }
    forall h | h in GroupsIn(jobs + [e])
      ensures Members(jobs + [e], h)
           == groups[g := (if g in groups then groups[g] else []) + [e]][h]
    {
      MembersSnoc(jobs, e, h);
    }
  }

  /** The groups as the loop over the day's jobs builds them, setdefault and append. */
  method GroupJobs(today: seq<Entry>) returns (groups: map<Group, seq<Entry>>)
    ensures Grouped(groups, today)
  {
    groups := map[];
    for i := 0 to |today|
      invariant Grouped(groups, today[..i])
    {
      var e := today[i];
      var g := GroupOf(e);
      GroupOneMore(groups, today[..i], e);
      assert today[..i + 1] == today[..i] + [e];
      groups := groups[g := (if g in groups then groups[g] else []) + [e]];
    }
    assert today[..|today|] == today;
  }

  lemma NoRows(rest: Table, rows: map<Group, Usage>, day: int)
    ensures rest + DayRows(rows - rows.Keys, day) == rest
  {
  }

  lemma RowAdded(rest: Table, rows: map<Group, Usage>, todo: set<Group>, g: Group, day: int)
    requires g in rows
    ensures (rest + DayRows(rows - todo, day))[UsageKey(day, g) := rows[g]] == rest + DayRows(rows - (todo - {g}), day)
  {
  }

  method SummariseOne(groups: map<Group, seq<Entry>>, g: Group) returns (u: Usage)
    requires g in groups
    ensures u == SummariesOf(groups)[g]
  {
    u := Summarise(groups[g]);
  }

  class UsageStore {
    var table: Table

    constructor ()
      ensures table == map[]
    {
      table := map[];
    }

    /** The loop that inserts one row for every group; the order of the groups does not matter. */
    method AddRows(groups: map<Group, seq<Entry>>, day: int)
      modifies this
      ensures table == old(table) + DayRows(SummariesOf(groups), day)
    {
      ghost var rest, rows := table, SummariesOf(groups);
      var todo := groups.Keys;
      NoRows(rest, rows, day);
      while todo != {}
        invariant todo <= groups.Keys
        invariant table == rest + DayRows(rows - todo, day)
        decreases todo
      {
        var g :| g in todo;
        var u := SummariseOne(groups, g);
        RowAdded(rest, rows, todo, g, day);
        table := table[UsageKey(day, g) := u];
        todo := todo - {g};
      }
      assert rows - {} == rows;
    }

    method RollupDay(jobs: seq<Entry>, day: int) returns (groupCount: nat)
      modifies this
      ensures table == RolledUp(jobs, old(table), day)
      ensures groupCount == |GroupsIn(DayJobs(jobs, day))|
    {
      var today := DayJobs(jobs, day);
      var groups := GroupJobs(today);
      table := map k | k in table && k.day != day :: table[k];
      AddRows(groups, day);
      SameSummaries(groups, today);
      return |groups|;
    }
  }

  ghost function SummariesOf(groups: map<Group, seq<Entry>>): map<Group, Usage> {
    map g | g in groups :: Summary(groups[g])
  }

  lemma SameSummaries(groups: map<Group, seq<Entry>>, today: seq<Entry>)
    requires Grouped(groups, today)
    ensures SummariesOf(groups) == Summaries(today, GroupsIn(today))
    ensures |groups| == |GroupsIn(today)|
  {
    assert |groups| == |groups.Keys|;
  }

  // ---------- conservation ----------

  function GroupTotals(f: Figure, jobs: seq<Entry>, groups: set<Group>): map<Group, int> {
    map g | g in groups :: Total(f, Members(jobs, g))
  }

  lemma GroupTotalSnoc(f: Figure, jobs: seq<Entry>, e: Entry, g: Group)
    ensures Total(f, Members(jobs + [e], g))
         == Total(f, Members(jobs, g)) + (if g == GroupOf(e) then Worth(f, e) else 0)
  {
    MembersSnoc(jobs, e, g);
    if g == GroupOf(e) {
      TotalSnoc(f, Members(jobs, g), e);
    } else {
      assert Members(jobs, g) + [] == Members(jobs, g);
    }
  }

  lemma OneMoreInTotals(f: Figure, jobs: seq<Entry>, e: Entry, groups: set<Group>)
    requires GroupOf(e) in groups
    ensures MapSum(GroupTotals(f, jobs + [e], groups)) == MapSum(GroupTotals(f, jobs, groups)) + Worth(f, e)
  {
    forall g | g in groups {
      GroupTotalSnoc(f, jobs, e, g);
    }
    MapSumBump(GroupTotals(f, jobs, groups), GroupTotals(f, jobs + [e], groups), GroupOf(e), Worth(f, e));
  }

  /** Whatever is added up over jobs is the same in total, group by group. */
  lemma {:induction false} GroupsConserve(f: Figure, jobs: seq<Entry>, groups: set<Group>)
    requires GroupsIn(jobs) <= groups
    ensures MapSum(GroupTotals(f, jobs, groups)) == Total(f, jobs)
  {
    if jobs == [] {
      MapSumZero(GroupTotals(f, jobs, groups));
    } else {
      var before, e := jobs[..|jobs| - 1], jobs[|jobs| - 1];
      assert jobs == before + [e];
      GroupsSnoc(before, e);
      GroupsConserve(f, before, groups);
      OneMoreInTotals(f, before, e, groups);
    }
  }

  /** The figures a usage row reports: of the statuses only the terminal ones have a column, and
      the jobs still unfinished are the requests that no column accounts for. */
  predicate HasColumn(f: Figure) {
    f.WithStatus? ==> Terminal(f.status)
  }

  function Reported(f: Figure, u: Usage): int
    requires HasColumn(f)
  {
    match f
    case Requests => u.requests
    case WithStatus(COMPLETED) => u.completed
    case WithStatus(FAILED) => u.failed
    case WithStatus(CANCELLED) => u.cancelled
    case WithStatus(REJECTED) => u.rejected
    case Unfinished => u.requests - u.completed - u.failed - u.cancelled - u.rejected
    case InputTokens => u.inputTokens
    case OutputTokens => u.outputTokens
    case GenerationMs => u.generationMsTotal
  }

  /** A figure as the table reports it for one day, group by group. */
  function DayReport(f: Figure, table: Table, day: int, groups: set<Group>): map<Group, int>
    requires HasColumn(f) && DayKeys(groups, day) <= table.Keys
  {
    map g | g in groups :: Reported(f, table[UsageKey(day, g)])
  }

  /** The terminal counts and the jobs in no terminal state partition the requests of a group. */
  lemma {:induction false} StatusesPartition(members: seq<Entry>)
    ensures Total(WithStatus(COMPLETED), members) + Total(WithStatus(FAILED), members)
          + Total(WithStatus(CANCELLED), members) + Total(WithStatus(REJECTED), members)
          + Total(Unfinished, members) == Total(Requests, members) == |members|
  {
    if members != [] {
      StatusesPartition(members[..|members| - 1]);
    }
  }

  lemma WaitsOfJobs(members: seq<Entry>, v: int)
    ensures v in Waits(members) <==> exists e :: e in members && e.row.queueWaitMs == Some(v)
  {
    PresentMember(members, WaitOf(), v);
    forall e: Entry ensures WaitOf()(e) == e.row.queueWaitMs {
    }
  }

  lemma TtftsOfJobs(members: seq<Entry>, v: int)
    ensures v in Ttfts(members) <==> exists e :: e in members && e.row.ttftMs == Some(v)
  {
    PresentMember(members, TtftOf(), v);
    forall e: Entry ensures TtftOf()(e) == e.row.ttftMs {
    }
  }

  /** A reported 95th percentile is the figure of some job of the group; it is missing exactly
      when no job has the figure. */
  lemma PercentilesComeFromJobs(members: seq<Entry>)
    ensures var u := Summary(members);
      && (u.queueWaitMsP95.Some? <==> exists e :: e in members && e.row.queueWaitMs.Some?)
      && (u.queueWaitMsP95.Some? ==> exists e :: e in members && e.row.queueWaitMs == u.queueWaitMsP95)
      && (u.ttftMsP95.Some? <==> exists e :: e in members && e.row.ttftMs.Some?)
      && (u.ttftMsP95.Some? ==> exists e :: e in members && e.row.ttftMs == u.ttftMsP95)
  {
    WaitPercentile(members);
    TtftPercentile(members);
  }

  lemma WaitPercentile(members: seq<Entry>)
    ensures var p := Percentile(Waits(members), 95);
      && (p.Some? <==> exists e :: e in members && e.row.queueWaitMs.Some?)
      && (p.Some? ==> exists e :: e in members && e.row.queueWaitMs == p)
  {
    if Waits(members) != [] {
      PercentileIsLeast(Waits(members), 95, 0);
      WaitsOfJobs(members, Percentile(Waits(members), 95).value);
    } else if e :| e in members && e.row.queueWaitMs.Some? {
      WaitsOfJobs(members, e.row.queueWaitMs.value);
    }
  }

  lemma TtftPercentile(members: seq<Entry>)
    ensures var p := Percentile(Ttfts(members), 95);
      && (p.Some? <==> exists e :: e in members && e.row.ttftMs.Some?)
      && (p.Some? ==> exists e :: e in members && e.row.ttftMs == p)
  {
    if Ttfts(members) != [] {
      PercentileIsLeast(Ttfts(members), 95, 0);
      TtftsOfJobs(members, Percentile(Ttfts(members), 95).value);
    } else if e :| e in members && e.row.ttftMs.Some? {
      TtftsOfJobs(members, e.row.ttftMs.value);
    }
  }

  lemma SummaryReports(f: Figure, members: seq<Entry>)
    requires HasColumn(f)
    ensures Reported(f, Summary(members)) == Total(f, members)
  {
    StatusesPartition(members);
  }

  lemma RowReports(f: Figure, jobs: seq<Entry>, table: Table, day: int, g: Group)
    requires HasColumn(f) && g in GroupsIn(DayJobs(jobs, day))
    ensures var after, key := RolledUp(jobs, table, day), UsageKey(day, g);
      key in after && Reported(f, after[key]) == Total(f, Members(DayJobs(jobs, day), g))
  {
    RolledUpAt(jobs, table, day, UsageKey(day, g));
    SummaryReports(f, Members(DayJobs(jobs, day), g));
  }

  /** After a rollup the rows of the day report, in total, exactly the day's jobs: their number,
      their outcomes, those unfinished, their tokens and their generation time. */
  lemma RollupConserves(f: Figure, jobs: seq<Entry>, table: Table, day: int)
    requires HasColumn(f)
    ensures var after := RolledUp(jobs, table, day);
      var groups := GroupsIn(DayJobs(jobs, day));
      && DayKeys(groups, day) <= after.Keys
      && MapSum(DayReport(f, after, day, groups)) == Total(f, DayJobs(jobs, day))
  {
    var groups := GroupsIn(DayJobs(jobs, day));
    forall g | g in groups
      ensures var after, key := RolledUp(jobs, table, day), UsageKey(day, g);
        key in after && Reported(f, after[key]) == Total(f, Members(DayJobs(jobs, day), g))
    {
      RowReports(f, jobs, table, day, g);
    }
    ReportIsGroupTotals(f, DayJobs(jobs, day), RolledUp(jobs, table, day), day, groups);
    GroupsConserve(f, DayJobs(jobs, day), groups);
  }

  lemma ReportIsGroupTotals(f: Figure, today: seq<Entry>, table: Table, day: int, groups: set<Group>)
    requires HasColumn(f)
    requires forall g | g in groups ::
      UsageKey(day, g) in table && Reported(f, table[UsageKey(day, g)]) == Total(f, Members(today, g))
    ensures DayKeys(groups, day) <= table.Keys
    ensures DayReport(f, table, day, groups) == GroupTotals(f, today, groups)
  {
    forall k | k in DayKeys(groups, day) ensures k in table {
      assert k == UsageKey(day, k.group);
    }
  }

  /** No row of the day is left for a group without jobs that day, and no group with jobs is
      without a row. */
  lemma RowsMatchGroups(jobs: seq<Entry>, table: Table, day: int, g: Group)
    ensures UsageKey(day, g) in RolledUp(jobs, table, day)
       <==> exists e :: e in jobs && InDay(e.row.receivedAt, day) && GroupOf(e) == g
  {
    RolledUpAt(jobs, table, day, UsageKey(day, g));
    forall e ensures e in DayJobs(jobs, day) <==> e in jobs && InDay(e.row.receivedAt, day) {
      InDayJobs(jobs, day, e);
    }
  }

  lemma InDayJobs(jobs: seq<Entry>, day: int, e: Entry)
    ensures e in DayJobs(jobs, day) <==> e in jobs && InDay(e.row.receivedAt, day)
  {
    WhereMember(jobs, OnDay(day), e);
  }

  lemma SameTable(a: Table, b: Table)
    requires forall k :: (k in a <==> k in b) && (k in a ==> a[k] == b[k])
    ensures a == b
  {
    assert a.Keys == b.Keys;
  }

  /** A later rollup of the same day overwrites all that an earlier one wrote, whatever the jobs
      were then; with the same jobs it gives the same table again. */
  lemma RollupOverwrites(earlier: seq<Entry>, now: seq<Entry>, table: Table, day: int)
    ensures RolledUp(now, RolledUp(earlier, table, day), day) == RolledUp(now, table, day)
  {
    var once := RolledUp(earlier, table, day);
    forall k
      ensures var a, b := RolledUp(now, once, day), RolledUp(now, table, day);
        (k in a <==> k in b) && (k in a ==> a[k] == b[k])
    {
      RolledUpAt(earlier, table, day, k);
      RolledUpAt(now, once, day, k);
      RolledUpAt(now, table, day, k);
    }
    SameTable(RolledUp(now, once, day), RolledUp(now, table, day));
  }

  /** Rollups of different days do not touch each other, so their order does not matter. */
  lemma RollupsCommute(jobs: seq<Entry>, later: seq<Entry>, table: Table, day: int, other: int)
    requires day != other
    ensures RolledUp(later, RolledUp(jobs, table, day), other)
         == RolledUp(jobs, RolledUp(later, table, other), day)
  {
    var first, second := RolledUp(jobs, table, day), RolledUp(later, table, other);
    forall k
      ensures var a, b := RolledUp(later, first, other), RolledUp(jobs, second, day);
        (k in a <==> k in b) && (k in a ==> a[k] == b[k])
    {
      RolledUpAt(jobs, table, day, k);
      RolledUpAt(later, table, other, k);
      RolledUpAt(later, first, other, k);
      RolledUpAt(jobs, second, day, k);
    }
    SameTable(RolledUp(later, first, other), RolledUp(jobs, second, day));
  }
}
