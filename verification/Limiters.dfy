/** The two in-process abuse counters. Both keep pruned queues of times; both are proved to
    answer as if they kept everything ever recorded. */
module Limiters {

  /** A history, oldest first. */
  datatype Log<T> = Start | Then(past: Log<T>, last: T)

  function Size<T>(log: Log<T>): nat {
    match log
    case Start => 0
    case Then(past, _) => Size(past) + 1
  }

  function Get(m: map<string, seq<real>>, k: string): seq<real> {
    if k in m then m[k] else []
  }

  ghost predicate Ascending(ts: seq<real>) {
    forall i, j | 0 <= i < j < |ts| :: ts[i] <= ts[j]
  }

  lemma AscendingAppend(ts: seq<real>, t: real)
    requires Ascending(ts) && forall x | x in ts :: x <= t
    ensures Ascending(ts + [t])
  {
    forall i, j | 0 <= i < j < |ts| + 1 ensures (ts + [t])[i] <= (ts + [t])[j] {
      assert ts[i] in ts;
    }
  }

  /** How many of the times lie within the window that ends now. */
  function Within(ts: seq<real>, now: real, window: real): nat {
    if ts == [] then 0
    else Within(ts[..|ts| - 1], now, window) + (if now - ts[|ts| - 1] <= window then 1 else 0)
  }

  lemma WithinAppend(ts: seq<real>, t: real, now: real, window: real)
    ensures Within(ts + [t], now, window) == Within(ts, now, window) + if now - t <= window then 1 else 0
  {
    assert (ts + [t])[..|ts|] == ts;
  }

  /** The last |tail| elements of all, position by position. */
  ghost predicate TailOf(tail: seq<real>, all: seq<real>) {
    |tail| <= |all| && forall i | 0 <= i < |tail| :: tail[i] == all[|all| - |tail| + i]
  }

  /** What is left of a queue after dropping expired times from its front. */
  ghost predicate KeptOf(kept: seq<real>, queue: seq<real>, now: real, window: real) {
    && TailOf(kept, queue)
    && (forall i | 0 <= i < |queue| - |kept| :: now - queue[i] > window)
    && (kept != [] ==> now - kept[0] <= window)
  }

  /** The loop that drops them. */
  method Prune(queue: seq<real>, now: real, window: real) returns (kept: seq<real>)
    ensures KeptOf(kept, queue, now, window)
  {
    kept := queue;
    while kept != [] && now - kept[0] > window
      invariant TailOf(kept, queue)
      invariant forall i | 0 <= i < |queue| - |kept| :: now - queue[i] > window
    {
      kept := kept[1..];
    }
  }

  lemma {:induction false} WithinSuffix(ts: seq<real>, k: nat, now: real, window: real)
    requires k <= |ts|
    requires forall i | 0 <= i < k :: now - ts[i] > window
    requires forall i | k <= i < |ts| :: now - ts[i] <= window
    ensures Within(ts, now, window) == |ts| - k
  {
    if |ts| > 0 {
      WithinSuffix(ts[..|ts| - 1], if k == |ts| then k - 1 else k, now, window);
    }
  }

  /** The queue is a suffix of all the times, and everything before it has expired. */
  ghost predicate PrunedFrom(queue: seq<real>, all: seq<real>, clock: real, window: real) {
    && TailOf(queue, all)
    && forall i | 0 <= i < |all| - |queue| :: clock - all[i] > window
  }

  /** Pruning a pruned queue counts what lies within the window, out of all the times. */
  lemma PruneAgain(kept: seq<real>, queue: seq<real>, all: seq<real>, clock: real, now: real, window: real)
    requires PrunedFrom(queue, all, clock, window) && clock <= now && Ascending(all)
    requires KeptOf(kept, queue, now, window)
    ensures PrunedFrom(kept, all, now, window)
    ensures Within(all, now, window) == |kept|
  {
    var k := |all| - |kept|;
    forall i | 0 <= i < k ensures now - all[i] > window {
      if i >= |all| - |queue| {
        assert queue[i - (|all| - |queue|)] == all[i];
      }
    }
    forall i | 0 <= i < |kept| ensures kept[i] == all[k + i] {
      assert kept[i] == queue[|queue| - |kept| + i];
    }
    forall i | k <= i < |all| ensures now - all[i] <= window {
      assert kept[0] == all[k] && all[k] <= all[i];
    }
    WithinSuffix(all, k, now, window);
  }

  // ---------- the rate limiter ----------

  datatype Call = Call(key: string, at: real)

  datatype RateConfig = RateConfig(maxRequests: int, window: real)

  /** The calls were made on a clock that never goes back. */
  ghost predicate CallsClocked(calls: Log<Call>) {
    match calls
    case Start => true
    case Then(past, c) => CallsClocked(past) && NotBefore(past, c.at)
  }

  predicate NotBefore(calls: Log<Call>, now: real) {
    calls.Then? ==> calls.last.at <= now
  }

  /** The specification: a request is granted while fewer than the maximum were granted to the
      same key within the window that ends now. */
  predicate Grantable(cfg: RateConfig, granted: seq<real>, now: real) {
    Within(granted, now, cfg.window) < cfg.maxRequests
  }

  function Grants(cfg: RateConfig, calls: Log<Call>, key: string): seq<real> {
    match calls
    case Start => []
    case Then(past, c) =>
      var before := Grants(cfg, past, key);
      if c.key == key && Grantable(cfg, before, c.at) then before + [c.at] else before
  }

  lemma {:induction false} GrantsAscend(cfg: RateConfig, calls: Log<Call>, key: string)
    requires CallsClocked(calls)
    ensures Ascending(Grants(cfg, calls, key))
    ensures forall g | g in Grants(cfg, calls, key) :: calls.Then? && g <= calls.last.at
  {
    match calls
    case Start =>
    case Then(past, c) =>
      GrantsAscend(cfg, past, key);
      AscendingAppend(Grants(cfg, past, key), c.at);
  }

  function OnlyKey(calls: Log<Call>, key: string): Log<Call> {
    match calls
    case Start => Start
    case Then(past, c) => if c.key == key then Then(OnlyKey(past, key), c) else OnlyKey(past, key)
  }

  /** What other keys do never changes what a key is granted. */
  lemma {:induction false} KeysAreIndependent(cfg: RateConfig, calls: Log<Call>, key: string)
    ensures Grants(cfg, calls, key) == Grants(cfg, OnlyKey(calls, key), key)
  {
    if calls.Then? {
      KeysAreIndependent(cfg, calls.past, key);
    }
  }

  lemma {:induction false} WithinAtLeast(ts: seq<real>, now: real, window: real, k: nat)
    requires k <= |ts| && forall i | |ts| - k <= i < |ts| :: now - ts[i] <= window
    ensures Within(ts, now, window) >= k
  {
    if k > 0 {
      WithinAtLeast(ts[..|ts| - 1], now, window, k - 1);
    }
  }

  /** If fewer than k of an ascending list lie within the window, the one k places from its end
      does not. */
  lemma FewWithin(ts: seq<real>, now: real, window: real, k: nat)
    requires Ascending(ts) && 1 <= k <= |ts| && Within(ts, now, window) < k
    ensures now - ts[|ts| - k] > window
  {
    var n := |ts|;
    if now - ts[n - k] <= window {
      forall i | n - k <= i < n ensures now - ts[i] <= window {
        assert ts[n - k] <= ts[i];
      }
      WithinAtLeast(ts, now, window, k);
    }
  }

  /** Any maximum + 1 consecutive grants of one key span more than the window. */
  lemma {:induction false} GrantsAreSpaced(cfg: RateConfig, calls: Log<Call>, key: string, i: nat)
    requires CallsClocked(calls) && cfg.maxRequests >= 1
    requires i + cfg.maxRequests < |Grants(cfg, calls, key)|
    ensures var g := Grants(cfg, calls, key); g[i + cfg.maxRequests] - g[i] > cfg.window
  {
    var g := Grants(cfg, calls.past, key);
    if i + cfg.maxRequests < |g| {
      GrantsAreSpaced(cfg, calls.past, key, i);
    } else {
      GrantsAscend(cfg, calls.past, key);
      FewWithin(g, calls.last.at, cfg.window, cfg.maxRequests);
    }
  }

  /** Was the k-th call granted? */
  predicate GrantedAt(cfg: RateConfig, calls: Log<Call>, k: nat) {
    match calls
    case Start => false
    case Then(past, c) =>
      if k == Size(calls) then Grantable(cfg, Grants(cfg, past, c.key), c.at) else GrantedAt(cfg, past, k)
  }

  function CallAt(calls: Log<Call>, k: nat): Call
    requires 1 <= k <= Size(calls)
  {
    if k == Size(calls) then calls.last else CallAt(calls.past, k)
  }

  /** The raw count: calls of a key before the k-th that were granted at times in the closed window
      that ends now. */
  function CountGranted(cfg: RateConfig, calls: Log<Call>, k: nat, key: string, now: real): nat {
    match calls
    case Start => 0
    case Then(past, c) =>
      CountGranted(cfg, past, k, key, now)
      + (if Size(calls) < k && c.key == key && GrantedAt(cfg, calls, Size(calls)) && now - cfg.window <= c.at <= now
         then 1 else 0)
  }

  lemma {:induction false} GrantsAreCounted(cfg: RateConfig, calls: Log<Call>, k: nat, key: string, now: real)
    requires CallsClocked(calls) && NotBefore(calls, now) && Size(calls) < k
    ensures Within(Grants(cfg, calls, key), now, cfg.window) == CountGranted(cfg, calls, k, key, now)
  {
    if calls.Then? {
      GrantsAreCounted(cfg, calls.past, k, key, now);
      WithinAppend(Grants(cfg, calls.past, key), calls.last.at, now, cfg.window);
    }
  }

  /** Exactly which calls are granted: those before which fewer than the maximum of the same key's calls
      were granted at times in the window that ends with it. */
  lemma {:induction false} GrantedIff(cfg: RateConfig, calls: Log<Call>, k: nat)
    requires CallsClocked(calls) && 1 <= k <= Size(calls)
    ensures var c := CallAt(calls, k);
      GrantedAt(cfg, calls, k) <==> CountGranted(cfg, calls, k, c.key, c.at) < cfg.maxRequests
  {
    if k < Size(calls) {
      GrantedIff(cfg, calls.past, k);
    } else {
      GrantsAreCounted(cfg, calls.past, k, calls.last.key, calls.last.at);
    }
  }

  /** One key's queue against the whole history. */
  ghost predicate KeyOk(cfg: RateConfig, queue: seq<real>, calls: Log<Call>, key: string) {
    && (queue == [] || |queue| <= cfg.maxRequests)
    && match calls
       case Start => queue == []
       case Then(_, c) => PrunedFrom(queue, Grants(cfg, calls, key), c.at, cfg.window)
  }

  ghost predicate AllKeysOk(cfg: RateConfig, hits: map<string, seq<real>>, calls: Log<Call>) {
    forall key :: KeyOk(cfg, Get(hits, key), calls, key)
  }

  /** What the loop keeps decides as the whole history would. */
  lemma PrunedDecides(cfg: RateConfig, queue: seq<real>, kept: seq<real>, calls: Log<Call>, c: Call)
    requires CallsClocked(calls) && NotBefore(calls, c.at) && KeyOk(cfg, queue, calls, c.key)
    requires KeptOf(kept, queue, c.at, cfg.window)
    ensures Grantable(cfg, Grants(cfg, calls, c.key), c.at) <==> |kept| < cfg.maxRequests
    ensures PrunedFrom(kept, Grants(cfg, calls, c.key), c.at, cfg.window)
  {
    GrantsAscend(cfg, calls, c.key);
    PruneAgain(kept, queue, Grants(cfg, calls, c.key), if calls.Then? then calls.last.at else c.at, c.at, cfg.window);
  }

  function Served(cfg: RateConfig, kept: seq<real>, now: real): seq<real> {
    if |kept| >= cfg.maxRequests then kept else kept + [now]
  }

  lemma PrunedAppend(queue: seq<real>, all: seq<real>, t: real, clock: real, window: real)
    requires PrunedFrom(queue, all, clock, window)
    ensures PrunedFrom(queue + [t], all + [t], clock, window)
  {
    var d := |all| - |queue|;
    forall i | 0 <= i < |queue| + 1 ensures (queue + [t])[i] == (all + [t])[d + i] {
      assert i < |queue| ==> queue[i] == all[d + i];
    }
    forall i | 0 <= i < d ensures clock - (all + [t])[i] > window {
      assert (all + [t])[i] == all[i];
    }
  }

  lemma ThisKeyOk(cfg: RateConfig, kept: seq<real>, calls: Log<Call>, c: Call)
    requires PrunedFrom(kept, Grants(cfg, calls, c.key), c.at, cfg.window)
    requires Grantable(cfg, Grants(cfg, calls, c.key), c.at) <==> |kept| < cfg.maxRequests
    requires kept == [] || |kept| <= cfg.maxRequests
    ensures KeyOk(cfg, Served(cfg, kept, c.at), Then(calls, c), c.key)
  {
    if |kept| < cfg.maxRequests {
      PrunedAppend(kept, Grants(cfg, calls, c.key), c.at, c.at, cfg.window);
      assert PrunedFrom(kept + [c.at], Grants(cfg, Then(calls, c), c.key), c.at, cfg.window);
    } else {
      assert PrunedFrom(kept, Grants(cfg, Then(calls, c), c.key), c.at, cfg.window);
    }
  }

  /** One call, on values: what the kept queue decides and leaves behind. */
  lemma CallServed(cfg: RateConfig, hits: map<string, seq<real>>, kept: seq<real>, calls: Log<Call>, c: Call)
    requires CallsClocked(calls) && NotBefore(calls, c.at) && AllKeysOk(cfg, hits, calls)
    requires KeptOf(kept, Get(hits, c.key), c.at, cfg.window)
    ensures Grantable(cfg, Grants(cfg, calls, c.key), c.at) <==> |kept| < cfg.maxRequests
    ensures AllKeysOk(cfg, hits[c.key := Served(cfg, kept, c.at)], Then(calls, c))
    ensures kept == [] || |kept| <= cfg.maxRequests
  {
    assert KeyOk(cfg, Get(hits, c.key), calls, c.key);
    PrunedDecides(cfg, Get(hits, c.key), kept, calls, c);
    ThisKeyOk(cfg, kept, calls, c);
    var hits' := hits[c.key := Served(cfg, kept, c.at)];
    forall key ensures KeyOk(cfg, Get(hits', key), Then(calls, c), key) {
      assert KeyOk(cfg, Get(hits, key), calls, key);
    }
  }

  class RateLimiter {
    const cfg: RateConfig
    var hits: map<string, seq<real>>

    ghost var calls: Log<Call>  // every call ever made

    ghost predicate Valid()
      reads this
    {
      CallsClocked(calls) && AllKeysOk(cfg, hits, calls)
    }

    constructor (cfg: RateConfig)
      ensures Valid() && this.cfg == cfg && calls == Start
    {
      this.cfg := cfg;
      hits := map[];
      calls := Start;
    }

    /** On a clock that never goes back, a request is refused exactly when at least the maximum
        of its key's earlier grants lie within the window, over the whole history. The queue
        never holds more than the maximum. */
    method Allow(key: string, now: real) returns (allowed: bool)
      requires Valid() && NotBefore(calls, now)
      modifies this
      ensures Valid() && calls == Then(old(calls), Call(key, now))
      ensures allowed <==> Grantable(cfg, Grants(cfg, old(calls), key), now)
      ensures allowed <==> GrantedAt(cfg, calls, Size(calls))
      ensures key in hits && hits == old(hits)[key := hits[key]]
      ensures hits[key] == [] || |hits[key]| <= cfg.maxRequests
    {
      var kept := Prune(Get(hits, key), now, cfg.window);
      CallServed(cfg, hits, kept, calls, Call(key, now));
      calls := Then(calls, Call(key, now));
      if |kept| >= cfg.maxRequests {
        hits := hits[key := kept];
        return false;
      }
      hits := hits[key := kept + [now]];
      return true;
    }
  }

  // ---------- the throttle on authentication failures ----------

  datatype ThrottleConfig = ThrottleConfig(threshold: int, window: real, block: real)

  datatype Failure = Failure(source: string, at: real)

  /** The failures were recorded on a clock that never goes back and now shows `clock`. */
  ghost predicate RecordClocked(record: Log<Failure>, clock: real) {
    match record
    case Start => true
    case Then(past, f) => RecordClocked(past, f.at) && f.at <= clock
  }

  /** Does one more failure now bring the count since the last crossing to the threshold? */
  predicate Crosses(cfg: ThrottleConfig, since: seq<real>, now: real) {
    Within(since + [now], now, cfg.window) >= cfg.threshold
  }

  /** The specification: the failures of a source since it last crossed the threshold, and the
      times of its crossings, from the complete record of failures. */
  function Since(cfg: ThrottleConfig, record: Log<Failure>, source: string): seq<real> {
    match record
    case Start => []
    case Then(past, f) =>
      var before := Since(cfg, past, source);
      if f.source != source then before
      else if Crosses(cfg, before, f.at) then []
      else before + [f.at]
  }

  function Crossings(cfg: ThrottleConfig, record: Log<Failure>, source: string): seq<real> {
    match record
    case Start => []
    case Then(past, f) =>
      var before := Crossings(cfg, past, source);
      if f.source == source && Crosses(cfg, Since(cfg, past, source), f.at) then before + [f.at] else before
  }

  /** A source is blocked while some crossing lies less than the block time back. */
  ghost predicate Blocked(cfg: ThrottleConfig, record: Log<Failure>, source: string, now: real) {
    exists c :: c in Crossings(cfg, record, source) && now < c + cfg.block
  }

  lemma {:induction false} RecordsAscend(cfg: ThrottleConfig, record: Log<Failure>, source: string, clock: real)
    requires RecordClocked(record, clock)
    ensures Ascending(Since(cfg, record, source)) && Ascending(Crossings(cfg, record, source))
    ensures forall t | t in Since(cfg, record, source) || t in Crossings(cfg, record, source) :: t <= clock
  {
    match record
    case Start =>
    case Then(past, f) =>
      RecordsAscend(cfg, past, source, f.at);
      AscendingAppend(Since(cfg, past, source), f.at);
      AscendingAppend(Crossings(cfg, past, source), f.at);
  }

  datatype Until = Never | Until(time: real)

  /** When the block started by the latest crossing ends. */
  function LastBlock(cfg: ThrottleConfig, record: Log<Failure>, source: string): Until {
    var cs := Crossings(cfg, record, source);
    if cs == [] then Never else Until(cs[|cs| - 1] + cfg.block)
  }

  /** Of all crossings only the latest matters. */
  lemma LastCrossingDecides(cfg: ThrottleConfig, record: Log<Failure>, source: string, clock: real, now: real)
    requires RecordClocked(record, clock)
    ensures Blocked(cfg, record, source, now)
       <==> LastBlock(cfg, record, source).Until? && now < LastBlock(cfg, record, source).time
  {
    RecordsAscend(cfg, record, source, clock);
    var cs := Crossings(cfg, record, source);
    if cs != [] {
      assert cs[|cs| - 1] in cs;
      forall c | c in cs ensures c <= cs[|cs| - 1] {
      }
    }
  }

  function FailuresOf(record: Log<Failure>, source: string): nat {
    match record
    case Start => 0
    case Then(past, f) => FailuresOf(past, source) + (if f.source == source then 1 else 0)
  }

  lemma {:induction false} WithinBounded(ts: seq<real>, now: real, window: real)
    ensures Within(ts, now, window) <= |ts|
  {
    if ts != [] {
      WithinBounded(ts[..|ts| - 1], now, window);
    }
  }

  /** Every crossing uses up at least threshold failures of its own source: counting each
      crossing for that many, and adding those since, never exceeds what was recorded. */
  lemma {:induction false} CrossingsArePaidFor(cfg: ThrottleConfig, record: Log<Failure>, source: string)
    requires cfg.threshold >= 1
    ensures cfg.threshold * |Crossings(cfg, record, source)| + |Since(cfg, record, source)|
         <= FailuresOf(record, source)
  {
    if record.Then? {
      var past, f := record.past, record.last;
      CrossingsArePaidFor(cfg, past, source);
      var n := |Crossings(cfg, past, source)|;
      assert cfg.threshold * (n + 1) == cfg.threshold * n + cfg.threshold;
      WithinBounded(Since(cfg, past, source) + [f.at], f.at, cfg.window);
    }
  }

  /** Does the k-th failure of the record bring its source to the threshold? */
  predicate CrossesAt(cfg: ThrottleConfig, record: Log<Failure>, source: string, k: nat) {
    match record
    case Start => false
    case Then(past, f) =>
      if k == Size(record) then f.source == source && Crosses(cfg, Since(cfg, past, source), f.at)
      else CrossesAt(cfg, past, source, k)
  }

  /** The k-th failure of the record. */
  function FailureAt(record: Log<Failure>, k: nat): Failure
    requires 1 <= k <= Size(record)
  {
    if k == Size(record) then record.last else FailureAt(record.past, k)
  }

  /** The raw count: failures of a source after the j-th of the record and up to the k-th, at
      times in the closed window that ends now. */
  function CountBetween(record: Log<Failure>, j: nat, k: nat, source: string, now: real, window: real): nat {
    match record
    case Start => 0
    case Then(past, f) =>
      CountBetween(past, j, k, source, now, window)
      + (if j < Size(record) <= k && f.source == source && now - window <= f.at <= now then 1 else 0)
  }

  /** The source did not cross at any failure between the j-th and the k-th. */
  ghost predicate NoneBetween(cfg: ThrottleConfig, record: Log<Failure>, source: string, j: nat, k: nat) {
    forall i | j < i < k :: !CrossesAt(cfg, record, source, i)
  }

  lemma NoneBetweenPast(cfg: ThrottleConfig, record: Log<Failure>, source: string, j: nat, k: nat)
    requires record.Then? && k <= Size(record) && NoneBetween(cfg, record, source, j, k)
    ensures NoneBetween(cfg, record.past, source, j, k)
  {
    forall i | j < i < k ensures !CrossesAt(cfg, record.past, source, i) {
      assert !CrossesAt(cfg, record, source, i);
    }
  }

  lemma {:induction false} NoneCounted(record: Log<Failure>, j: nat, k: nat, source: string, now: real, window: real)
    requires Size(record) <= j
    ensures CountBetween(record, j, k, source, now, window) == 0
  {
    if record.Then? {
      NoneCounted(record.past, j, k, source, now, window);
    }
  }

  /** What is kept since the latest crossing is, within any window, the raw count after it. */
  lemma {:induction false} SinceIsTheRawCount(cfg: ThrottleConfig, record: Log<Failure>, source: string, j: nat, k: nat,
                                              clock: real, now: real)
    requires RecordClocked(record, clock) && clock <= now && j <= Size(record) < k
    requires j == 0 || CrossesAt(cfg, record, source, j)
    requires NoneBetween(cfg, record, source, j, k)
    ensures Within(Since(cfg, record, source), now, cfg.window)
         == CountBetween(record, j, k, source, now, cfg.window)
  {
    if j < Size(record) {
      assert !CrossesAt(cfg, record, source, Size(record));
      NoneBetweenPast(cfg, record, source, j, Size(record));
      CountUpToSize(record.past, j, k, Size(record), source, now, cfg.window);
      SinceIsTheRawCount(cfg, record.past, source, j, Size(record), record.last.at, now);
      WithinAppend(Since(cfg, record.past, source), record.last.at, now, cfg.window);
    } else {
      NoneCounted(record, j, k, source, now, cfg.window);
    }
  }

  lemma {:induction false} CountUpToSize(record: Log<Failure>, j: nat, k: nat, m: nat,
                                         source: string, now: real, window: real)
    requires Size(record) <= k && Size(record) <= m
    ensures CountBetween(record, j, k, source, now, window) == CountBetween(record, j, m, source, now, window)
  {
    if record.Then? {
      CountUpToSize(record.past, j, k, m, source, now, window);
    }
  }

  /** Exactly which failures cross: with the j-th the source's latest crossing before, or j = 0, a
      failure of the source crosses if and only if at least threshold failures of that source, all
      after the j-th and all in the window that ends with it, are on record. */
  lemma {:induction false} CrossingIff(cfg: ThrottleConfig, record: Log<Failure>, source: string, j: nat, k: nat,
                                       clock: real)
    requires RecordClocked(record, clock) && j < k <= Size(record)
    requires FailureAt(record, k).source == source
    requires j == 0 || CrossesAt(cfg, record, source, j)
    requires NoneBetween(cfg, record, source, j, k)
    ensures CrossesAt(cfg, record, source, k)
       <==> CountBetween(record, j, k, source, FailureAt(record, k).at, cfg.window) >= cfg.threshold
  {
    NoneBetweenPast(cfg, record, source, j, k);
    if k < Size(record) {
      CrossingIff(cfg, record.past, source, j, k, record.last.at);
    } else {
      var f := record.last;
      SinceIsTheRawCount(cfg, record.past, source, j, k, f.at, f.at);
      WithinAppend(Since(cfg, record.past, source), f.at, f.at, cfg.window);
    }
  }

  predicate CrossedWhen(cfg: ThrottleConfig, record: Log<Failure>, source: string, k: nat, c: real) {
    1 <= k <= Size(record) && CrossesAt(cfg, record, source, k) && FailureAt(record, k).at == c
  }

  /** The crossings that block a source are the times of exactly those failures. */
  lemma {:induction false} CrossingsAreWhereItCrosses(cfg: ThrottleConfig, record: Log<Failure>, source: string,
                                                      c: real)
    ensures c in Crossings(cfg, record, source) <==> exists k :: CrossedWhen(cfg, record, source, k, c)
  {
    if record.Then? {
      CrossingsAreWhereItCrosses(cfg, record.past, source, c);
      forall k: nat | k < Size(record)
        ensures CrossedWhen(cfg, record, source, k, c) <==> CrossedWhen(cfg, record.past, source, k, c)
      {
      }
      assert CrossedWhen(cfg, record, source, Size(record), c)
        <==> record.last.at == c && record.last.source == source
             && Crosses(cfg, Since(cfg, record.past, source), record.last.at);
    }
  }

  function GetUntil(m: map<string, real>, source: string): Until {
    if source in m then Until(m[source]) else Never
  }

  /** One source's queue and block against the complete record. */
  ghost predicate SourceOk(cfg: ThrottleConfig, queue: seq<real>, until: Until, record: Log<Failure>,
                           source: string, clock: real)
  {
    && PrunedFrom(queue, Since(cfg, record, source), clock, cfg.window)
    && (cfg.threshold >= 1 ==> |queue| < cfg.threshold)
    && UntilOk(cfg, until, record, source, clock)
  }

  /** A recorded block is the one of the latest crossing; one that is not recorded is over. */
  ghost predicate UntilOk(cfg: ThrottleConfig, until: Until, record: Log<Failure>, source: string, clock: real) {
    var last := LastBlock(cfg, record, source);
    if until.Until? then until == last else last.Never? || last.time <= clock
  }

  ghost predicate AllSourcesOk(cfg: ThrottleConfig, failures: map<string, seq<real>>,
                               blockedUntil: map<string, real>, record: Log<Failure>, clock: real)
  {
    forall source :: SourceOk(cfg, Get(failures, source), GetUntil(blockedUntil, source), record, source, clock)
  }

  /** What the loop keeps of the queue is what the complete record has within the window. */
  lemma PrunedFailures(cfg: ThrottleConfig, queue: seq<real>, record: Log<Failure>,
                       clock: real, f: Failure, kept: seq<real>)
    requires RecordClocked(record, clock) && clock <= f.at
    requires PrunedFrom(queue, Since(cfg, record, f.source), clock, cfg.window)
    requires KeptOf(kept, queue + [f.at], f.at, cfg.window)
    ensures PrunedFrom(kept, Since(cfg, record, f.source) + [f.at], f.at, cfg.window)
    ensures Crosses(cfg, Since(cfg, record, f.source), f.at) <==> |kept| >= cfg.threshold
  {
    var since := Since(cfg, record, f.source);
    RecordsAscend(cfg, record, f.source, clock);
    AscendingAppend(since, f.at);
    PrunedAppend(queue, since, f.at, clock, cfg.window);
    PruneAgain(kept, queue + [f.at], since + [f.at], clock, f.at, cfg.window);
  }

  lemma CrossingSourceOk(cfg: ThrottleConfig, record: Log<Failure>, f: Failure)
    requires Crosses(cfg, Since(cfg, record, f.source), f.at)
    ensures SourceOk(cfg, [], Until(f.at + cfg.block), Then(record, f), f.source, f.at)
  {
    var cs := Crossings(cfg, record, f.source);
    assert Crossings(cfg, Then(record, f), f.source) == cs + [f.at];
    assert Since(cfg, Then(record, f), f.source) == [];
  }

  lemma StayingSourceOk(cfg: ThrottleConfig, until: Until, record: Log<Failure>, clock: real, f: Failure,
                        kept: seq<real>)
    requires !Crosses(cfg, Since(cfg, record, f.source), f.at) && clock <= f.at && |kept| < cfg.threshold
    requires UntilOk(cfg, until, record, f.source, clock)
    requires PrunedFrom(kept, Since(cfg, record, f.source) + [f.at], f.at, cfg.window)
    ensures SourceOk(cfg, kept, until, Then(record, f), f.source, f.at)
  {
    assert Crossings(cfg, Then(record, f), f.source) == Crossings(cfg, record, f.source);
    assert Since(cfg, Then(record, f), f.source) == Since(cfg, record, f.source) + [f.at];
  }

  lemma ThisSourceOk(cfg: ThrottleConfig, queue: seq<real>, until: Until, record: Log<Failure>,
                     clock: real, f: Failure, kept: seq<real>)
    requires RecordClocked(record, clock) && clock <= f.at
    requires SourceOk(cfg, queue, until, record, f.source, clock)
    requires KeptOf(kept, queue + [f.at], f.at, cfg.window)
    ensures |kept| >= cfg.threshold ==>
              SourceOk(cfg, [], Until(f.at + cfg.block), Then(record, f), f.source, f.at)
    ensures |kept| < cfg.threshold ==> SourceOk(cfg, kept, until, Then(record, f), f.source, f.at)
  {
    PrunedFailures(cfg, queue, record, clock, f, kept);
    if |kept| >= cfg.threshold {
      CrossingSourceOk(cfg, record, f);
    } else {
      StayingSourceOk(cfg, until, record, clock, f, kept);
    }
  }

  lemma OtherSourceOk(cfg: ThrottleConfig, queue: seq<real>, until: Until, record: Log<Failure>,
                      source: string, clock: real, f: Failure)
    requires SourceOk(cfg, queue, until, record, source, clock) && clock <= f.at && f.source != source
    ensures SourceOk(cfg, queue, until, Then(record, f), source, f.at)
  {
  }

  lemma RestUnaffected(cfg: ThrottleConfig, failures: map<string, seq<real>>, blockedUntil: map<string, real>,
                       failures': map<string, seq<real>>, blockedUntil': map<string, real>,
                       record: Log<Failure>, clock: real, f: Failure)
    requires AllSourcesOk(cfg, failures, blockedUntil, record, clock) && clock <= f.at
    requires failures' - {f.source} == failures - {f.source}
    requires blockedUntil' - {f.source} == blockedUntil - {f.source}
    requires SourceOk(cfg, Get(failures', f.source), GetUntil(blockedUntil', f.source), Then(record, f), f.source, f.at)
    ensures AllSourcesOk(cfg, failures', blockedUntil', Then(record, f), f.at)
  {
    forall s ensures SourceOk(cfg, Get(failures', s), GetUntil(blockedUntil', s), Then(record, f), s, f.at) {
      if s != f.source {
        assert SourceOk(cfg, Get(failures, s), GetUntil(blockedUntil, s), record, s, clock);
        OtherSourceOk(cfg, Get(failures, s), GetUntil(blockedUntil, s), record, s, clock, f);
        assert s in failures' <==> s in failures' - {f.source};
        assert s in failures <==> s in failures - {f.source};
        assert s in blockedUntil' <==> s in blockedUntil' - {f.source};
        assert s in blockedUntil <==> s in blockedUntil - {f.source};
      }
    }
  }

  /** One failure, on values: the dictionaries that come out are right for every source. */
  lemma FailureRecorded(cfg: ThrottleConfig, failures: map<string, seq<real>>, blockedUntil: map<string, real>,
                        failures': map<string, seq<real>>, blockedUntil': map<string, real>,
                        record: Log<Failure>, clock: real, f: Failure, kept: seq<real>)
    requires RecordClocked(record, clock) && clock <= f.at
    requires AllSourcesOk(cfg, failures, blockedUntil, record, clock)
    requires KeptOf(kept, Get(failures, f.source) + [f.at], f.at, cfg.window)
    requires failures' == failures[f.source := if |kept| >= cfg.threshold then [] else kept]
    requires blockedUntil'
          == if |kept| >= cfg.threshold then blockedUntil[f.source := f.at + cfg.block] else blockedUntil
    ensures AllSourcesOk(cfg, failures', blockedUntil', Then(record, f), f.at)
  {
    var queue, until := Get(failures, f.source), GetUntil(blockedUntil, f.source);
    assert SourceOk(cfg, queue, until, record, f.source, clock);
    ThisSourceOk(cfg, queue, until, record, clock, f, kept);
    var crossed := |kept| >= cfg.threshold;
    assert Get(failures', f.source) == if crossed then [] else kept;
    assert GetUntil(blockedUntil', f.source) == if crossed then Until(f.at + cfg.block) else until;
    RestUnaffected(cfg, failures, blockedUntil, failures', blockedUntil', record, clock, f);
  }

  class AuthFailThrottle {
    const cfg: ThrottleConfig
    var failures: map<string, seq<real>>
    var blockedUntil: map<string, real>

    ghost var record: Log<Failure>  // every failure ever recorded
    ghost var clock: real           // the latest reading of the clock

    ghost predicate Valid()
      reads this
    {
      RecordClocked(record, clock) && AllSourcesOk(cfg, failures, blockedUntil, record, clock)
    }

    constructor (cfg: ThrottleConfig, start: real)
      ensures Valid() && this.cfg == cfg && record == Start && clock == start
    {
      this.cfg := cfg;
      failures := map[];
      blockedUntil := map[];
      record := Start;
      clock := start;
    }

    /** The answer is that of the complete record; deleting an expired block is unobservable. */
    method IsBlocked(source: string, now: real) returns (blocked: bool)
      requires Valid() && clock <= now
      modifies this`blockedUntil, this`clock
      ensures Valid() && clock == now
      ensures blocked <==> Blocked(cfg, record, source, now)
      ensures forall other :: other != source ==> GetUntil(blockedUntil, other) == old(GetUntil(blockedUntil, other))
    {
      LastCrossingDecides(cfg, record, source, clock, now);
      assert SourceOk(cfg, Get(failures, source), GetUntil(blockedUntil, source), record, source, clock);
      forall other ensures SourceOk(cfg, Get(failures, other), GetUntil(blockedUntil, other), record, other, now) {
        assert SourceOk(cfg, Get(failures, other), GetUntil(blockedUntil, other), record, other, clock);
      }
      clock := now;
      if source !in blockedUntil {
        return false;
      }
      if now >= blockedUntil[source] {
        blockedUntil := blockedUntil - {source};
        return false;
      }
      return true;
    }

    /** One more failure enters the record; reaching the threshold starts a block and clears
        the queue. With a threshold of at least one the queue stays below it. */
    method RecordFailure(source: string, now: real)
      requires Valid() && clock <= now
      modifies this
      ensures Valid() && record == Then(old(record), Failure(source, now)) && clock == now
      ensures source in failures && failures == old(failures)[source := failures[source]]
      ensures cfg.threshold >= 1 ==> |failures[source]| < cfg.threshold
    {
      var kept := Prune(Get(failures, source) + [now], now, cfg.window);
      ghost var f, all := Failure(source, now), kept;
      if |kept| >= cfg.threshold {
        blockedUntil := blockedUntil[source := now + cfg.block];
        kept := [];
      }
      failures := failures[source := kept];
      FailureRecorded(cfg, old(failures), old(blockedUntil), failures, blockedUntil, record, clock, f, all);
      record := Then(record, f);
      clock := now;
    }
  }
}
