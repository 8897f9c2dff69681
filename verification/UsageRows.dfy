/** What the usage table says after a rollup, in terms of the jobs' own fields: one row for each user
    and model with a job that day, and each column of it worked out from exactly those jobs. */
module UsageRows {
  import opened Options
  import opened Ordering
  import opened Lists
  import opened JobLifecycle
  import opened Sessions
  import opened Rollup

  /** Jobs of a user and model that arrived on a day; times are microseconds. */
  function MadeBy(user: nat, model: string, day: int): Entry -> bool {
    (e: Entry) =>
      && e.user == user && e.model == model
      && day * 24 * 3600 * 1_000_000 <= e.row.receivedAt < (day + 1) * 24 * 3600 * 1_000_000
  }

  function Ended(status: Status): Entry -> bool { (e: Entry) => e.row.status == status }

  function InputOf(): Entry -> int {
    (e: Entry) => if e.row.inputTokens.Some? then e.row.inputTokens.value else 0
  }

  function OutputOf(): Entry -> int {
    (e: Entry) => if e.row.outputTokens.Some? then e.row.outputTokens.value else 0
  }

  function GenerationOf(): Entry -> int {
    (e: Entry) => if e.row.generationMs.Some? then e.row.generationMs.value else 0
  }

  lemma RowMembers(jobs: seq<Entry>, day: int, user: nat, model: string)
    ensures Members(DayJobs(jobs, day), Group(user, model)) == Where(jobs, MadeBy(user, model, day))
  {
    WhereTwice(jobs, OnDay(day), InGroup(Group(user, model)), MadeBy(user, model, day));
  }

  /** There is a row exactly for each user and model with a job that day, and it summarises their jobs. */
  lemma RowIffJobs(jobs: seq<Entry>, table: Table, day: int, user: nat, model: string)
    ensures var after, key := RolledUp(jobs, table, day), UsageKey(day, Group(user, model));
      && (key in after <==> exists e :: e in jobs && MadeBy(user, model, day)(e))
      && (key in after ==> after[key] == Summary(Where(jobs, MadeBy(user, model, day))))
  {
    var key := UsageKey(day, Group(user, model));
    RowMembers(jobs, day, user, model);
    RolledUpAt(jobs, table, day, key);
    RowsMatchGroups(jobs, table, day, key.group);
    forall e: Entry
      ensures MadeBy(user, model, day)(e) <==> InDay(e.row.receivedAt, day) && GroupOf(e) == key.group
    {
    }
  }

  /** A rollup reports as many groups as there are pairs of user and model with a job that day. */
  lemma GroupsAreUsersAndModels(jobs: seq<Entry>, day: int, g: Group)
    ensures g in GroupsIn(DayJobs(jobs, day)) <==> exists e :: e in jobs && MadeBy(g.user, g.model, day)(e)
  {
    RowIffJobs(jobs, map[], day, g.user, g.model);
    RolledUpAt(jobs, map[], day, UsageKey(day, g));
  }

  lemma {:induction false} TotalIsCount(members: seq<Entry>, status: Status)
    ensures Total(WithStatus(status), members) == |Where(members, Ended(status))|
  {
    if members != [] {
      TotalIsCount(members[..|members| - 1], status);
    }
  }

  lemma {:induction false} TotalIsSum(f: Figure, members: seq<Entry>, value: Entry -> int)
    requires forall e :: Worth(f, e) == value(e)
    ensures Total(f, members) == SumOf(members, value)
  {
    if members != [] {
      TotalIsSum(f, members[..|members| - 1], value);
    }
  }

  /** The counting columns: how many jobs, and how many of each outcome. */
  ghost predicate CountsOf(u: Usage, mine: seq<Entry>) {
    && u.requests == |mine|
    && u.completed == |Where(mine, Ended(COMPLETED))| && u.failed == |Where(mine, Ended(FAILED))|
    && u.cancelled == |Where(mine, Ended(CANCELLED))| && u.rejected == |Where(mine, Ended(REJECTED))|
  }

  /** The summed columns. */
  ghost predicate SumsOf(u: Usage, mine: seq<Entry>) {
    && u.inputTokens == SumOf(mine, InputOf()) && u.outputTokens == SumOf(mine, OutputOf())
    && u.generationMsTotal == SumOf(mine, GenerationOf())
  }

  lemma SummaryCounts(mine: seq<Entry>)
    ensures CountsOf(Summary(mine), mine)
  {
    TotalIsCount(mine, COMPLETED);
    TotalIsCount(mine, FAILED);
    TotalIsCount(mine, CANCELLED);
    TotalIsCount(mine, REJECTED);
  }

  lemma SummarySums(mine: seq<Entry>)
    ensures SumsOf(Summary(mine), mine)
  {
    TotalIsSum(Rollup.InputTokens, mine, InputOf());
    TotalIsSum(Rollup.OutputTokens, mine, OutputOf());
    TotalIsSum(GenerationMs, mine, GenerationOf());
  }

  /** Mean and 95th percentile of a list of figures: both missing exactly if it is empty; the mean off
      by at most half a unit, the percentile the least of the figures with more than 95 of 100 at or
      below it. */
  ghost predicate MeanAndP95(mean: Option<int>, p95: Option<int>, xs: seq<int>) {
    && (xs == [] <==> mean.None?) && (xs == [] <==> p95.None?)
    && (mean.Some? ==> -|xs| <= 2 * (|xs| * mean.value - SumOf(xs, (x: int) => x)) <= |xs|)
    && (p95.Some? ==> p95.value in xs)
    && (p95.Some? ==> forall v :: p95.value <= v <==> 100 * CountWhere(xs, AtMost(v)) > 95 * |xs|)
  }

  lemma {:induction false} SameSum(xs: seq<int>, f: int -> int, g: int -> int)
    requires forall x :: f(x) == g(x)
    ensures SumOf(xs, f) == SumOf(xs, g)
  {
    if xs != [] {
      SameSum(xs[..|xs| - 1], f, g);
    }
  }

  lemma MeanAndP95Hold(xs: seq<int>)
    ensures MeanAndP95(RoundedMean(xs), Percentile(xs, 95), xs)
  {
    if xs != [] {
      MeanIsNear(xs);
      SameSum(xs, Itself(), (x: int) => x);
      forall v: int
        ensures var r := Percentile(xs, 95).value;
          r in xs && (r <= v <==> 100 * CountWhere(xs, AtMost(v)) > 95 * |xs|)
      {
        PercentileIsLeast(xs, 95, v);
      }
      PercentileIsLeast(xs, 95, 0);
    }
  }

  /** The measured columns, from the jobs that have the figure. */
  ghost predicate MeasuresOf(u: Usage, mine: seq<Entry>) {
    && MeanAndP95(u.queueWaitMsMean, u.queueWaitMsP95, Present(mine, (e: Entry) => e.row.queueWaitMs))
    && MeanAndP95(u.ttftMsMean, u.ttftMsP95, Present(mine, (e: Entry) => e.row.ttftMs))
    && u.agentSessions == |Starts(set e | e in mine :: e.row.receivedAt)|
  }

  lemma {:induction false} SamePresent(s: seq<Entry>, f: Entry -> Option<int>, g: Entry -> Option<int>)
    requires forall e :: f(e) == g(e)
    ensures Present(s, f) == Present(s, g)
  {
    if s != [] {
      SamePresent(s[..|s| - 1], f, g);
    }
  }

  lemma ArrivalTimes(mine: seq<Entry>)
    ensures Times(Arrivals(mine)) == set e | e in mine :: e.row.receivedAt
  {
    var ts := Arrivals(mine);
    forall t | t in ts ensures t in set e | e in mine :: e.row.receivedAt {
      var i :| 0 <= i < |ts| && ts[i] == t;
      assert mine[i] in mine;
    }
    forall e | e in mine ensures e.row.receivedAt in ts {
      var i :| 0 <= i < |mine| && mine[i] == e;
      assert ts[i] == e.row.receivedAt;
    }
  }

  lemma SummaryMeasures(mine: seq<Entry>)
    ensures MeasuresOf(Summary(mine), mine)
  {
    SamePresent(mine, WaitOf(), (e: Entry) => e.row.queueWaitMs);
    SamePresent(mine, TtftOf(), (e: Entry) => e.row.ttftMs);
    MeanAndP95Hold(Waits(mine));
    MeanAndP95Hold(Ttfts(mine));
    ArrivalTimes(mine);
  }

  /** A user and model with a job that day have a row, and each of its columns is worked out from their
      jobs of that day. */
  lemma RowIsWorkedOut(jobs: seq<Entry>, table: Table, day: int, user: nat, model: string, job: Entry)
    requires job in jobs && MadeBy(user, model, day)(job)
    ensures var after, key := RolledUp(jobs, table, day), UsageKey(day, Group(user, model));
      var mine := Where(jobs, MadeBy(user, model, day));
      key in after && CountsOf(after[key], mine) && SumsOf(after[key], mine) && MeasuresOf(after[key], mine)
  {
    var mine := Where(jobs, MadeBy(user, model, day));
    RowIffJobs(jobs, table, day, user, model);
    SummaryCounts(mine);
    SummarySums(mine);
    SummaryMeasures(mine);
  }
}
