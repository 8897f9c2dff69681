/** The job row: who may write it, in which order the writes can interleave, and what its
    final contents then mean. Times are microseconds. */
module JobLifecycle {
  import opened Options
  import opened Rounding

  datatype Status = RECEIVED | QUEUED | RUNNING | COMPLETED | CANCELLED | FAILED | REJECTED

  datatype ErrorClass =
    | QueueFull | QueueTimeout | UserCancel | AdminCancel | ClientDisconnect | GatewayRestart
    | Backend(name: string)

  datatype Row = Row(
    status: Status,
    receivedAt: int,
    queuedAt: Option<int>,
    startedAt: Option<int>,
    completedAt: Option<int>,
    queueWaitMs: Option<int>,
    generationMs: Option<int>,
    ttftMs: Option<int>,
    inputTokens: Option<int>,
    outputTokens: Option<int>,
    errorClass: Option<ErrorClass>)

  predicate Terminal(s: Status) {
    s == COMPLETED || s == CANCELLED || s == FAILED || s == REJECTED
  }

  function MsBetween(a: Option<int>, b: Option<int>): Option<int> {
    if a.None? || b.None? then None else Some(RoundDiv(b.value - a.value, 1000))
  }

  function Received(now: int): Row {
    Row(RECEIVED, now, None, None, None, None, None, None, None, None, None)
  }

  function Rejected(r: Row, err: ErrorClass, now: int): Row {
    r.(status := REJECTED, errorClass := Some(err), completedAt := Some(now))
  }

  function Queued(r: Row, now: int): Row {
    r.(status := QUEUED, queuedAt := Some(now))
  }

  /** When the wait for a slot began. */
  function WaitBegan(r: Row): int {
    if r.queuedAt.Some? then r.queuedAt.value else r.receivedAt
  }

  function Running(r: Row, now: int): Row {
    r.(startedAt := Some(now), queueWaitMs := MsBetween(Some(WaitBegan(r)), Some(now)), status := RUNNING)
  }

  function Completed(r: Row, ttft: Option<int>, input: Option<int>, output: Option<int>, now: int): Row {
    r.(completedAt := Some(now), generationMs := MsBetween(r.startedAt, Some(now)),
       ttftMs := ttft, inputTokens := input, outputTokens := output, status := COMPLETED)
  }

  function Ended(r: Row, status: Status, err: ErrorClass, now: int): Row {
    r.(completedAt := Some(now),
       generationMs := if r.startedAt.Some? then MsBetween(r.startedAt, Some(now)) else r.generationMs,
       status := status, errorClass := Some(err))
  }

  /** A row that a restart finds open although nobody works on it any more. */
  predicate Orphaned(s: Status) {
    s == QUEUED || s == RUNNING
  }

  /** It is closed without a generation time. */
  function ReconciledRow(r: Row, now: int): Row {
    if Orphaned(r.status) then
      r.(status := FAILED, errorClass := Some(GatewayRestart), completedAt := Some(now))
    else r
  }

  /** The row object that the lifecycle functions fill in field by field. */
  class Job {
    var status: Status
    var receivedAt: int
    var queuedAt: Option<int>
    var startedAt: Option<int>
    var completedAt: Option<int>
    var queueWaitMs: Option<int>
    var generationMs: Option<int>
    var ttftMs: Option<int>
    var inputTokens: Option<int>
    var outputTokens: Option<int>
    var errorClass: Option<ErrorClass>

    ghost function View(): Row
      reads this
    {
      Row(status, receivedAt, queuedAt, startedAt, completedAt, queueWaitMs, generationMs, ttftMs,
          inputTokens, outputTokens, errorClass)
    }

    constructor (now: int)
      ensures View() == Received(now)
    {
      status := RECEIVED;
      receivedAt := now;
      queuedAt, startedAt, completedAt := None, None, None;
      queueWaitMs, generationMs, ttftMs := None, None, None;
      inputTokens, outputTokens := None, None;
      errorClass := None;
    }

    method MarkRejected(err: ErrorClass, now: int)
      modifies this
      ensures View() == Rejected(old(View()), err, now)
    {
      status := REJECTED;
      errorClass := Some(err);
      completedAt := Some(now);
    }

    method MarkQueued(now: int)
      modifies this
      ensures View() == Queued(old(View()), now)
    {
      status := QUEUED;
      queuedAt := Some(now);
    }

    method MarkRunning(now: int)
      modifies this
      ensures View() == Running(old(View()), now)
    {
      startedAt := Some(now);
      queueWaitMs := MsBetween(if queuedAt.Some? then queuedAt else Some(receivedAt), startedAt);
      status := RUNNING;
    }

    method MarkCompleted(ttft: Option<int>, input: Option<int>, output: Option<int>, now: int)
      modifies this
      ensures View() == Completed(old(View()), ttft, input, output, now)
    {
      completedAt := Some(now);
      generationMs := MsBetween(startedAt, completedAt);
      ttftMs := ttft;
      inputTokens := input;
      outputTokens := output;
      status := COMPLETED;
    }

    method MarkFailed(err: ErrorClass, now: int)
      modifies this
      ensures View() == Ended(old(View()), FAILED, err, now)
    {
      completedAt := Some(now);
      if startedAt.Some? {
        generationMs := MsBetween(startedAt, completedAt);
      }
      status := FAILED;
      errorClass := Some(err);
    }

    method MarkCancelled(err: ErrorClass, now: int)
      modifies this
      ensures View() == Ended(old(View()), CANCELLED, err, now)
    {
      completedAt := Some(now);
      if startedAt.Some? {
        generationMs := MsBetween(startedAt, completedAt);
      }
      status := CANCELLED;
      errorClass := Some(err);
    }
  }

  // ---------- interleaved writers ----------

  /** How far the request handler has got. */
  datatype Phase = Created | Waiting | Serving | Gone

  /** One committed write, or attempt at one. The first four are the handler's own and are not
      guarded; the recorder and the cancel endpoints look at the status first. A restart ends
      the handler and everything it started, and closes the row if it is orphaned. */
  datatype Write =
    | HandlerQueued
    | HandlerRejected
    | HandlerTimedOut
    | HandlerRunning
    | RecorderRunning
    | RecorderCompleted(ttft: Option<int>, input: Option<int>, output: Option<int>)
    | RecorderFailed(name: string)
    | RecorderCancelled
    | UserCancels
    | AdminCancels
    | Restart

  predicate Unguarded(w: Write) {
    w.HandlerQueued? || w.HandlerRejected? || w.HandlerTimedOut? || w.HandlerRunning?
  }

  datatype Progress = Progress(row: Row, phase: Phase)

  /** The order the handler imposes on its own writes; cancel requests come at any time, and a
      streaming response goes on recording after the handler has returned. */
  predicate MayHappen(p: Progress, w: Write) {
    match w
    case HandlerQueued => p.phase == Created
    case HandlerRejected => p.phase == Waiting
    case HandlerTimedOut => p.phase == Waiting
    case HandlerRunning => p.phase == Waiting
    case RecorderRunning => p.phase == Serving
    case RecorderCompleted(_, _, _) => p.phase == Serving
    case RecorderFailed(_) => p.phase == Serving
    case RecorderCancelled => p.phase == Waiting || p.phase == Serving
    case UserCancels => true
    case AdminCancels => true
    case Restart => true
  }

  function WrittenRow(r: Row, w: Write, now: int): Row {
    match w
    case HandlerQueued => Queued(r, now)
    case HandlerRejected => Rejected(r, QueueFull, now)
    case HandlerTimedOut => Ended(r, FAILED, QueueTimeout, now)
    case HandlerRunning => Running(r, now)
    case RecorderRunning => Running(r, now)
    case RecorderCompleted(ttft, input, output) => Completed(r, ttft, input, output, now)
    case RecorderFailed(name) => Ended(r, FAILED, Backend(name), now)
    case RecorderCancelled => Ended(r, CANCELLED, ClientDisconnect, now)
    case UserCancels => Ended(r, CANCELLED, UserCancel, now)
    case AdminCancels => Ended(r, CANCELLED, AdminCancel, now)
    case Restart => ReconciledRow(r, now)
  }

  function NextPhase(p: Phase, w: Write): Phase {
    match w
    case HandlerQueued => Waiting
    case HandlerRejected => Gone
    case HandlerTimedOut => Gone
    case HandlerRunning => Serving
    case Restart => Gone
    case RecorderCancelled => if p == Waiting then Gone else p
    case _ => p
  }

  function GuardedRow(r: Row, w: Write, now: int): Row {
    if Terminal(r.status) then r else WrittenRow(r, w, now)
  }

  function Perform(p: Progress, w: Write, now: int): Progress {
    Progress(if Unguarded(w) then WrittenRow(p.row, w, now) else GuardedRow(p.row, w, now), NextPhase(p.phase, w))
  }

  /** The recorder: every method looks the row up and leaves a terminal one alone. */
  class JobRecorder {
    const requestId: nat
    const jobs: map<nat, Job>

    constructor (requestId: nat, jobs: map<nat, Job>)
      ensures this.requestId == requestId && this.jobs == jobs
    {
      this.requestId := requestId;
      this.jobs := jobs;
    }

    function Mine(): set<Job> {
      if requestId in jobs then {jobs[requestId]} else {}
    }

    method MarkRunning(now: int)
      modifies Mine()
      ensures forall p | p in Mine() :: p.View() == GuardedRow(old(p.View()), RecorderRunning, now)
    {
      if requestId in jobs {
        var job := jobs[requestId];
        if !Terminal(job.status) {
          job.MarkRunning(now);
        }
      }
    }

    method MarkCompleted(ttft: Option<int>, input: Option<int>, output: Option<int>, now: int)
      modifies Mine()
      ensures forall p | p in Mine() ::
        p.View() == GuardedRow(old(p.View()), RecorderCompleted(ttft, input, output), now)
    {
      if requestId in jobs {
        var job := jobs[requestId];
        if !Terminal(job.status) {
          job.MarkCompleted(ttft, input, output, now);
        }
      }
    }

    method MarkFailed(name: string, now: int)
      modifies Mine()
      ensures forall p | p in Mine() ::
        p.View() == GuardedRow(old(p.View()), RecorderFailed(name), now)
    {
      if requestId in jobs {
        var job := jobs[requestId];
        if !Terminal(job.status) {
          job.MarkFailed(Backend(name), now);
        }
      }
    }

    method MarkCancelled(now: int)
      modifies Mine()
      ensures forall p | p in Mine() ::
        p.View() == GuardedRow(old(p.View()), RecorderCancelled, now)
    {
      if requestId in jobs {
        var job := jobs[requestId];
        if !Terminal(job.status) {
          job.MarkCancelled(ClientDisconnect, now);
        }
      }
    }
  }

  datatype CancelReply = JobNotFound | NotJobOwner | AlreadyTerminal(status: Status) | CancelledNow

  predicate Cancellable(s: Status) {
    s == RECEIVED || s == QUEUED || s == RUNNING
  }

  /** The registered task of a request: cancelling it asks it to stop at its next suspension. */
  class Task {
    var cancelRequested: bool

    constructor ()
      ensures !cancelRequested
    {
      cancelRequested := false;
    }
  }

  /** The user's cancel endpoint: the row first, then the task if one is still registered. */
  method CancelOwnJob(job: Job?, task: Task?, isOwner: bool, now: int) returns (reply: CancelReply)
    modifies if job == null then {} else {job}, if task == null then {} else {task}
    ensures job == null <==> reply.JobNotFound?
    ensures job != null && !isOwner ==> reply.NotJobOwner? && job.View() == old(job.View())
    ensures job != null && isOwner ==>
      && job.View() == GuardedRow(old(job.View()), UserCancels, now)
      && (reply.CancelledNow? <==> !Terminal(old(job.status)))
      && (reply.AlreadyTerminal? ==> reply.status == old(job.status))
    ensures task != null ==> (task.cancelRequested <==> old(task.cancelRequested) || reply.CancelledNow?)
  {
    if job == null {
      return JobNotFound;
    }
    if !isOwner {
      return NotJobOwner;
    }
    if !Cancellable(job.status) {
      return AlreadyTerminal(job.status);
    }
    job.MarkCancelled(UserCancel, now);
    if task != null {
      task.cancelRequested := true;
    }
    return CancelledNow;
  }

  /** A run of one row: its successive states, the writes between them and their times, on a
      clock that never goes back. */
  datatype Story = Story(states: seq<Progress>, writes: seq<Write>, times: seq<int>)

  ghost predicate ValidStory(s: Story) {
    && |s.states| == |s.writes| + 1 == |s.times|
    && s.states[0] == Progress(Received(s.times[0]), Created)
    && forall i | 0 <= i < |s.writes| ::
         && s.times[i] <= s.times[i + 1]
         && MayHappen(s.states[i], s.writes[i])
         && s.states[i + 1] == Perform(s.states[i], s.writes[i], s.times[i + 1])
  }

  function Outcome(r: Row): (Status, Option<ErrorClass>) {
    (r.status, r.errorClass)
  }

  /** The first terminal writer wins: a terminal outcome is never changed. */
  ghost predicate FirstTerminalWins(s: Story)
    requires ValidStory(s)
  {
    forall i | 0 <= i < |s.writes| :: OutcomeStands(s.states[i], s.states[i + 1])
  }

  predicate OutcomeStands(before: Progress, after: Progress) {
    Terminal(before.row.status) ==> Outcome(after.row) == Outcome(before.row)
  }

  /** Every unguarded write found the row in the state in which the guard would have let it
      through. */
  ghost predicate GuardWouldPass(s: Story)
    requires ValidStory(s)
  {
    forall i | 0 <= i < |s.writes| :: GuardPasses(s.states[i], s.writes[i])
  }

  predicate GuardPasses(p: Progress, w: Write) {
    Unguarded(w) ==> !Terminal(p.row.status)
  }

  /** Before the handler ends, no row can carry an outcome only the handler writes. */
  ghost predicate HandlersOwn(p: Progress) {
    (p.phase == Created || p.phase == Waiting) ==>
      Outcome(p.row) != (REJECTED, Some(QueueFull)) && Outcome(p.row) != (FAILED, Some(QueueTimeout))
  }

  lemma {:induction false} HandlersOwnOverStory(s: Story, i: nat)
    requires ValidStory(s) && i < |s.states|
    ensures HandlersOwn(s.states[i])
  {
    if i > 0 {
      HandlersOwnOverStory(s, i - 1);
      assert MayHappen(s.states[i - 1], s.writes[i - 1]);
      match s.writes[i - 1] case _ =>
    }
  }

  lemma UnguardedOverwrites(p: Progress, w: Write, now: int)
    requires HandlersOwn(p) && MayHappen(p, w) && Unguarded(w) && Terminal(p.row.status)
    ensures Outcome(Perform(p, w, now).row) != Outcome(p.row)
  {
  }

  /** Over every interleaving the first terminal writer wins exactly when every unguarded write
      of the handler came before the row was terminal, that is, exactly when the guard the
      recorder uses would have let it through; and then a terminal row does not change at all. */
  lemma FirstTerminalWinsIff(s: Story)
    requires ValidStory(s)
    ensures FirstTerminalWins(s) <==> GuardWouldPass(s)
    ensures GuardWouldPass(s) ==>
      forall i | 0 <= i < |s.writes| && Terminal(s.states[i].row.status) :: s.states[i + 1].row == s.states[i].row
  {
    forall i | 0 <= i < |s.writes|
      ensures OutcomeStands(s.states[i], s.states[i + 1])
         <==> GuardPasses(s.states[i], s.writes[i])
      ensures !Unguarded(s.writes[i]) && Terminal(s.states[i].row.status) ==> s.states[i + 1].row == s.states[i].row
    {
      HandlersOwnOverStory(s, i);
      if Unguarded(s.writes[i]) && Terminal(s.states[i].row.status) {
        UnguardedOverwrites(s.states[i], s.writes[i], s.times[i + 1]);
      }
    }
    if FirstTerminalWins(s) {
      forall i | 0 <= i < |s.writes| ensures GuardPasses(s.states[i], s.writes[i]) {
        assert OutcomeStands(s.states[i], s.states[i + 1]);
      }
    }
  }

  /** The defect: a user's cancel that lands between the grant of the slot and the handler's
      own write is overwritten, first with RUNNING and then with the wrong error class. */
  function LostCancel(t: int): Story {
    var p0 := Progress(Received(t), Created);
    var p1 := Perform(p0, HandlerQueued, t);
    var p2 := Perform(p1, UserCancels, t);
    var p3 := Perform(p2, HandlerRunning, t);
    var p4 := Perform(p3, RecorderCancelled, t);
    Story([p0, p1, p2, p3, p4], [HandlerQueued, UserCancels, HandlerRunning, RecorderCancelled], [t, t, t, t, t])
  }

  lemma CancelCanBeLost(t: int)
    ensures var s := LostCancel(t);
      && ValidStory(s) && !GuardWouldPass(s) && !FirstTerminalWins(s)
      && Outcome(s.states[2].row) == (CANCELLED, Some(UserCancel))
      && s.states[3].row.status == RUNNING && s.states[3].row.completedAt.Some?
      && Outcome(s.states[4].row) == (CANCELLED, Some(ClientDisconnect))
  {
    var s := LostCancel(t);
    assert !GuardPasses(s.states[2], s.writes[2]);
    assert !OutcomeStands(s.states[2], s.states[3]);
  }

  // ---------- what a row records ----------

  datatype Kind = AnyKind | Queueing | Starting | Ending | Failing | Completing

  predicate Is(w: Write, kind: Kind) {
    match kind
    case AnyKind => true
    case Queueing => w.HandlerQueued?
    case Starting => w.HandlerRunning? || w.RecorderRunning?
    case Ending => !w.HandlerQueued? && !w.HandlerRunning? && !w.RecorderRunning?
    case Failing =>
      !w.HandlerQueued? && !w.HandlerRunning? && !w.RecorderRunning? && !w.RecorderCompleted?
    case Completing => w.RecorderCompleted?
  }

  /** Does a write change the row? An unguarded one always does. */
  predicate TakesEffect(p: Progress, w: Write) {
    Unguarded(w) || if w.Restart? then Orphaned(p.row.status) else !Terminal(p.row.status)
  }

  /** The place of the last write of a kind, among the first i, that took effect. */
  ghost function LastOf(s: Story, i: nat, kind: Kind): (k: Option<nat>)
    requires ValidStory(s) && i <= |s.writes|
    ensures k.Some? ==> k.value < i && Is(s.writes[k.value], kind)
  {
    if i == 0 then None
    else if TakesEffect(s.states[i - 1], s.writes[i - 1]) && Is(s.writes[i - 1], kind) then Some(i - 1)
    else LastOf(s, i - 1, kind)
  }

  ghost function TimeOfLast(s: Story, i: nat, kind: Kind): Option<int>
    requires ValidStory(s) && i <= |s.writes|
  {
    match LastOf(s, i, kind)
    case None => None
    case Some(k) => Some(s.times[k + 1])
  }

  function StatusOf(w: Write): Status {
    match w
    case HandlerQueued => QUEUED
    case HandlerRejected => REJECTED
    case HandlerTimedOut => FAILED
    case HandlerRunning => RUNNING
    case RecorderRunning => RUNNING
    case RecorderCompleted(_, _, _) => COMPLETED
    case RecorderFailed(_) => FAILED
    case RecorderCancelled => CANCELLED
    case UserCancels => CANCELLED
    case AdminCancels => CANCELLED
    case Restart => FAILED
  }

  function ErrorOf(w: Write): ErrorClass
    requires Is(w, Failing)
  {
    match w
    case HandlerRejected => QueueFull
    case HandlerTimedOut => QueueTimeout
    case RecorderFailed(name) => Backend(name)
    case RecorderCancelled => ClientDisconnect
    case UserCancels => UserCancel
    case AdminCancels => AdminCancel
    case Restart => GatewayRestart
  }

  /** The handler's four writes overwrite a terminal row; no other write touches one. */
  lemma OnlyTheHandlerOverwrites(p: Progress, w: Write, now: int)
    requires Terminal(p.row.status)
    ensures w.HandlerQueued? || w.HandlerRejected? || w.HandlerTimedOut? || w.HandlerRunning? ==>
      Perform(p, w, now).row.status == StatusOf(w) && TakesEffect(p, w)
    ensures !w.HandlerQueued? && !w.HandlerRejected? && !w.HandlerTimedOut? && !w.HandlerRunning? ==>
      Perform(p, w, now).row == p.row && !TakesEffect(p, w)
  {
  }

  lemma StepRecordsTimes(p: Progress, w: Write, now: int)
    ensures var r, r' := p.row, Perform(p, w, now).row;
      var e := TakesEffect(p, w);
      && r'.receivedAt == r.receivedAt
      && r'.queuedAt == (if e && Is(w, Queueing) then Some(now) else r.queuedAt)
      && r'.startedAt == (if e && Is(w, Starting) then Some(now) else r.startedAt)
      && r'.completedAt == (if e && Is(w, Ending) then Some(now) else r.completedAt)
  {
  }

  lemma StepRecordsOutcome(p: Progress, w: Write, now: int)
    ensures var r, r' := p.row, Perform(p, w, now).row;
      var e := TakesEffect(p, w);
      && r'.status == (if e then StatusOf(w) else r.status)
      && r'.errorClass == (if e && Is(w, Failing) then Some(ErrorOf(w)) else r.errorClass)
      && (!(e && Is(w, Completing)) ==>
            r'.ttftMs == r.ttftMs && r'.inputTokens == r.inputTokens && r'.outputTokens == r.outputTokens)
      && (e && Is(w, Completing) ==>
            r'.ttftMs == w.ttft && r'.inputTokens == w.input && r'.outputTokens == w.output)
  {
  }

  /** The time a row has for the writes of a kind. */
  function Stamp(r: Row, kind: Kind): Option<int>
    requires kind == Queueing || kind == Starting || kind == Ending
  {
    if kind == Queueing then r.queuedAt else if kind == Starting then r.startedAt else r.completedAt
  }

  lemma {:induction false} StampIsOfWrite(s: Story, i: nat, kind: Kind)
    requires ValidStory(s) && i < |s.states| && (kind == Queueing || kind == Starting || kind == Ending)
    ensures Stamp(s.states[i].row, kind) == TimeOfLast(s, i, kind)
    ensures s.states[i].row.receivedAt == s.times[0]
  {
    if i > 0 {
      StampIsOfWrite(s, i - 1, kind);
      StepRecordsTimes(s.states[i - 1], s.writes[i - 1], s.times[i]);
    }
  }

  /** Over every interleaving the four times of a row are the times of what happened: its creation
      and the last writes that queued, started and ended the job and took effect. */
  lemma TimesAreOfWrites(s: Story, i: nat)
    requires ValidStory(s) && i < |s.states|
    ensures var r := s.states[i].row;
      && r.receivedAt == s.times[0]
      && r.queuedAt == TimeOfLast(s, i, Queueing)
      && r.startedAt == TimeOfLast(s, i, Starting)
      && r.completedAt == TimeOfLast(s, i, Ending)
  {
    StampIsOfWrite(s, i, Queueing);
    StampIsOfWrite(s, i, Starting);
    StampIsOfWrite(s, i, Ending);
  }

  lemma {:induction false} StatusIsOfWrite(s: Story, i: nat)
    requires ValidStory(s) && i < |s.states|
    ensures var last := LastOf(s, i, AnyKind);
      s.states[i].row.status == if last.None? then RECEIVED else StatusOf(s.writes[last.value])
  {
    if i > 0 {
      StatusIsOfWrite(s, i - 1);
      StepRecordsOutcome(s.states[i - 1], s.writes[i - 1], s.times[i]);
    }
  }

  lemma {:induction false} ErrorIsOfWrite(s: Story, i: nat)
    requires ValidStory(s) && i < |s.states|
    ensures var failed := LastOf(s, i, Failing);
      s.states[i].row.errorClass == if failed.None? then None else Some(ErrorOf(s.writes[failed.value]))
  {
    if i > 0 {
      ErrorIsOfWrite(s, i - 1);
      StepRecordsOutcome(s.states[i - 1], s.writes[i - 1], s.times[i]);
    }
  }

  lemma {:induction false} FiguresAreOfWrite(s: Story, i: nat)
    requires ValidStory(s) && i < |s.states|
    ensures var r, done := s.states[i].row, LastOf(s, i, Completing);
      && (done.None? ==> r.ttftMs == None && r.inputTokens == None && r.outputTokens == None)
      && (done.Some? ==> s.writes[done.value] == RecorderCompleted(r.ttftMs, r.inputTokens, r.outputTokens))
  {
    if i > 0 {
      FiguresAreOfWrite(s, i - 1);
      StepRecordsOutcome(s.states[i - 1], s.writes[i - 1], s.times[i]);
    }
  }

  /** And status, error and figures are what the last such writes carried: a failure leaves its error
      behind even if the row is put back to work, a completion its figures. */
  lemma OutcomeIsOfWrites(s: Story, i: nat)
    requires ValidStory(s) && i < |s.states|
    ensures var r, last := s.states[i].row, LastOf(s, i, AnyKind);
      r.status == if last.None? then RECEIVED else StatusOf(s.writes[last.value])
    ensures var r, failed := s.states[i].row, LastOf(s, i, Failing);
      r.errorClass == if failed.None? then None else Some(ErrorOf(s.writes[failed.value]))
    ensures var r, done := s.states[i].row, LastOf(s, i, Completing);
      && (done.None? ==> r.ttftMs == None && r.inputTokens == None && r.outputTokens == None)
      && (done.Some? ==> s.writes[done.value] == RecorderCompleted(r.ttftMs, r.inputTokens, r.outputTokens))
  {
    StatusIsOfWrite(s, i);
    ErrorIsOfWrite(s, i);
    FiguresAreOfWrite(s, i);
  }

  /** The durations of a row measured by given clock readings: the wait runs from queueing, or from
      creation if the job was never queued, to the start; the generation time of a terminal row from
      the start to the end, and a restart leaves none. */
  predicate MeasuredBy(r: Row, created: int, queued: Option<int>, started: Option<int>, ended: Option<int>) {
    && r.queueWaitMs
       == (if started.None? then None
           else Some(RoundDiv(started.value - (if queued.Some? then queued.value else created), 1000)))
    && r.generationMs
       == (if Terminal(r.status) && started.Some? && ended.Some? && !ClosedByRestart(r)
           then Some(RoundDiv(ended.value - started.value, 1000)) else None)
  }

  lemma RowIsMeasured(r: Row)
    requires Timed(r)
    ensures MeasuredBy(r, r.receivedAt, r.queuedAt, r.startedAt, r.completedAt)
  {
  }

  /** The durations are measured from creation and the last writes that queued, started and ended the
      job. */
  lemma DurationsAreOfWrites(s: Story, i: nat)
    requires ValidStory(s) && i < |s.states|
    ensures MeasuredBy(s.states[i].row, s.times[0],
                       TimeOfLast(s, i, Queueing), TimeOfLast(s, i, Starting), TimeOfLast(s, i, Ending))
  {
    TimesOverStory(s, i);
    TimesAreOfWrites(s, i);
    RowIsMeasured(s.states[i].row);
  }

  // ---------- time accounting ----------

  ghost predicate TimesInOrder(r: Row, clock: int) {
    && r.receivedAt <= WaitBegan(r) <= clock
    && (r.startedAt.Some? ==> WaitBegan(r) <= r.startedAt.value <= clock)
    && (Terminal(r.status) && r.startedAt.Some? && r.completedAt.Some? ==>
          r.startedAt.value <= r.completedAt.value <= clock)
  }

  ghost predicate Timed(r: Row) {
    && (Terminal(r.status) ==> r.completedAt.Some?)
    && r.queueWaitMs == MsBetween(Some(WaitBegan(r)), r.startedAt)
    && r.generationMs
       == if Terminal(r.status) && !ClosedByRestart(r) then MsBetween(r.startedAt, r.completedAt) else None
  }

  predicate ClosedByRestart(r: Row) { r.errorClass == Some(GatewayRestart) }

  /** Nothing has started before the handler got its slot, and a restart is the end. */
  ghost predicate InPhase(p: Progress) {
    && (p.phase == Created || p.phase == Waiting ==> p.row.startedAt.None?)
    && (ClosedByRestart(p.row) ==> p.phase == Gone && p.row.status == FAILED)
  }

  lemma StepKeepsTimes(p: Progress, w: Write, clock: int, now: int)
    requires TimesInOrder(p.row, clock) && Timed(p.row) && InPhase(p)
    requires MayHappen(p, w) && clock <= now
    ensures TimesInOrder(Perform(p, w, now).row, now) && Timed(Perform(p, w, now).row)
    ensures InPhase(Perform(p, w, now))
  {
  }

  lemma {:induction false} TimesOverStory(s: Story, i: nat)
    requires ValidStory(s) && i < |s.states|
    ensures TimesInOrder(s.states[i].row, s.times[i]) && Timed(s.states[i].row) && InPhase(s.states[i])
  {
    if i > 0 {
      TimesOverStory(s, i - 1);
      StepKeepsTimes(s.states[i - 1], s.writes[i - 1], s.times[i - 1], s.times[i]);
    }
  }

  /** Over every interleaving a terminal row has its end time, and a job that ran and ended has
      waiting and generation times that are non-negative and add up to the time from queueing to
      completion, to within one millisecond, exactly if it was not closed by a restart. */
  lemma TimesAddUp(s: Story, i: nat)
    requires ValidStory(s) && i < |s.states|
    ensures var r := s.states[i].row;
      && (Terminal(r.status) ==> r.completedAt.Some?)
      && (Terminal(r.status) && r.startedAt.Some? ==> (BothTimesAddUp(r) <==> !ClosedByRestart(r)))
  {
    TimesOverStory(s, i);
    var r := s.states[i].row;
    if r.startedAt.Some? && Terminal(r.status) {
      RoundDivNear(r.startedAt.value - WaitBegan(r), 1000);
      RoundDivNear(r.completedAt.value - r.startedAt.value, 1000);
    }
  }

  /** A row has an end time exactly if it is terminal. */
  predicate EndsWhenTerminal(p: Progress) {
    p.row.completedAt.Some? <==> Terminal(p.row.status)
  }

  /** The handler's writes that put a row back to work without looking at its status. */
  predicate Reopens(p: Progress, w: Write) {
    (w.HandlerQueued? || w.HandlerRunning?) && Terminal(p.row.status)
  }

  lemma StepEndsIffNotReopened(p: Progress, w: Write, now: int)
    requires EndsWhenTerminal(p)
    ensures EndsWhenTerminal(Perform(p, w, now)) <==> !Reopens(p, w)
  {
  }

  ghost predicate NeverReopened(s: Story, n: nat)
    requires ValidStory(s) && n <= |s.writes|
  {
    forall i | 0 <= i < n :: !Reopens(s.states[i], s.writes[i])
  }

  lemma {:induction false} EndsUpTo(s: Story, n: nat)
    requires ValidStory(s) && n <= |s.writes|
    ensures (forall i | 0 <= i <= n :: EndsWhenTerminal(s.states[i])) <==> NeverReopened(s, n)
  {
    if n > 0 {
      EndsUpTo(s, n - 1);
      if EndsWhenTerminal(s.states[n - 1]) {
        StepEndsIffNotReopened(s.states[n - 1], s.writes[n - 1], s.times[n]);
      }
    }
  }

  /** The end time marks terminal rows, in every state of an interleaving, exactly if the handler's
      QUEUED and RUNNING writes never met a terminal row. */
  lemma EndTimeMarksTerminalIff(s: Story)
    requires ValidStory(s)
    ensures (forall i | 0 <= i < |s.states| :: EndsWhenTerminal(s.states[i])) <==> NeverReopened(s, |s.writes|)
  {
    EndsUpTo(s, |s.writes|);
  }

  predicate BothTimesAddUp(r: Row)
    requires r.completedAt.Some?
  {
    && r.queueWaitMs.Some? && r.generationMs.Some?
    && r.queueWaitMs.value >= 0 && r.generationMs.value >= 0
    && -1000 <= 1000 * (r.queueWaitMs.value + r.generationMs.value) - (r.completedAt.value - WaitBegan(r)) <= 1000
  }

  ghost predicate RestartClosed(s: Story, k: nat)
    requires ValidStory(s) && k < |s.writes|
  {
    s.writes[k].Restart? && (s.states[k].row.status == QUEUED || s.states[k].row.status == RUNNING)
  }

  lemma StepClosesByRestart(p: Progress, w: Write, now: int)
    requires InPhase(p) && MayHappen(p, w)
    ensures ClosedByRestart(Perform(p, w, now).row)
       <==> ClosedByRestart(p.row) || (w.Restart? && Orphaned(p.row.status))
  {
  }

  /** And closed by a restart it was if and only if one found it queued or running. */
  lemma {:induction false} ClosedByRestartIff(s: Story, i: nat)
    requires ValidStory(s) && i < |s.states|
    ensures ClosedByRestart(s.states[i].row) <==> exists k :: 0 <= k < i && RestartClosed(s, k)
    ensures ClosedByRestart(s.states[i].row) ==> s.states[i].row.status == FAILED
  {
    TimesOverStory(s, i);
    if i > 0 {
      ClosedByRestartIff(s, i - 1);
      TimesOverStory(s, i - 1);
      StepClosesByRestart(s.states[i - 1], s.writes[i - 1], s.times[i]);
      assert RestartClosed(s, i - 1) <==> s.writes[i - 1].Restart? && Orphaned(s.states[i - 1].row.status);
    }
  }

  /** A row that a restart finds queued or running is FAILED for good, with the restart as its error
      and the time of the restart as its end. */
  lemma {:induction false} RestartIsFinal(s: Story, k: nat, j: nat)
    requires ValidStory(s) && k < j < |s.states| && RestartClosed(s, k)
    ensures var r := s.states[j].row;
      && r.status == FAILED && r.errorClass == Some(GatewayRestart) && r.completedAt == Some(s.times[k + 1])
      && s.states[j].phase == Gone
  {
    if k + 1 < j {
      RestartIsFinal(s, k, j - 1);
      assert MayHappen(s.states[j - 1], s.writes[j - 1]);
    }
  }

  /** A restart does not close a row that was never queued: from then on nothing but a cancel
      request can. */
  lemma {:induction false} ReceivedStaysOpen(s: Story, i: nat, j: nat)
    requires ValidStory(s) && i < j < |s.states|
    requires s.writes[i].Restart? && s.states[i].row.status == RECEIVED
    requires forall k | i < k < j :: !s.writes[k].UserCancels? && !s.writes[k].AdminCancels?
    ensures s.states[j].row == s.states[i].row && s.states[j].phase == Gone
  {
    if i + 1 < j {
      ReceivedStaysOpen(s, i, j - 1);
      assert MayHappen(s.states[j - 1], s.writes[j - 1]);
    }
  }

  /** The gap: a job that is running when the gateway restarts. */
  function CutShort(t: int): Story {
    var p0 := Progress(Received(t), Created);
    var p1 := Perform(p0, HandlerQueued, t);
    var p2 := Perform(p1, HandlerRunning, t);
    var p3 := Perform(p2, Restart, t + 5000);
    Story([p0, p1, p2, p3], [HandlerQueued, HandlerRunning, Restart], [t, t, t, t + 5000])
  }

  lemma RestartLosesGenerationTime(t: int)
    ensures var s := CutShort(t);
      && ValidStory(s) && GuardWouldPass(s)
      && var r := s.states[3].row;
         r.startedAt.Some? && r.completedAt == Some(t + 5000) && r.generationMs.None? && !BothTimesAddUp(r)
  {
  }

  // ---------- restart ----------

  function Reconciled(rows: seq<Row>, clock: seq<int>): seq<Row>
    requires |rows| == |clock|
  {
    seq(|rows|, i requires 0 <= i < |rows| => ReconciledRow(rows[i], clock[i]))
  }

  function CountOrphaned(rows: seq<Row>): nat {
    if rows == [] then 0
    else CountOrphaned(rows[..|rows| - 1]) + (if Orphaned(rows[|rows| - 1].status) then 1 else 0)
  }

  /** Two rows that differ at most in status, error and end time. */
  predicate SameOtherwise(a: Row, b: Row) {
    && a.receivedAt == b.receivedAt && a.queuedAt == b.queuedAt && a.startedAt == b.startedAt
    && a.queueWaitMs == b.queueWaitMs && a.generationMs == b.generationMs && a.ttftMs == b.ttftMs
    && a.inputTokens == b.inputTokens && a.outputTokens == b.outputTokens
  }

  /** No row is left queued or running: each such row is FAILED with the restart as its error and as
      its end, and nothing else of it changes. Rows of any other status are untouched, a complete row
      stays one exactly when it is terminal, and a second pass changes nothing. */
  lemma ReconcileSettles(rows: seq<Row>, clock: seq<int>, later: seq<int>)
    requires |rows| == |clock| == |later|
    ensures var after := Reconciled(rows, clock);
      && (forall i | 0 <= i < |rows| :: after[i].status != QUEUED && after[i].status != RUNNING)
      && (forall i | 0 <= i < |rows| && rows[i].status != QUEUED && rows[i].status != RUNNING ::
            after[i] == rows[i])
      && (forall i | 0 <= i < |rows| && (rows[i].status == QUEUED || rows[i].status == RUNNING) ::
            && after[i].status == FAILED && after[i].errorClass == Some(GatewayRestart)
            && after[i].completedAt == Some(clock[i]) && SameOtherwise(after[i], rows[i]))
      && (forall i | 0 <= i < |rows| && (rows[i].completedAt.Some? <==> Terminal(rows[i].status)) ::
            after[i].completedAt.Some? <==> Terminal(after[i].status))
      && Reconciled(after, later) == after
      && CountOrphaned(after) == 0
  {
    NoneOrphaned(Reconciled(rows, clock));
  }

  lemma {:induction false} NoneOrphaned(rows: seq<Row>)
    requires forall i | 0 <= i < |rows| :: !Orphaned(rows[i].status)
    ensures CountOrphaned(rows) == 0
  {
    if rows != [] {
      NoneOrphaned(rows[..|rows| - 1]);
    }
  }

  function OrphanedPlaces(rows: seq<Row>): set<nat> {
    set i: nat | i < |rows| && (rows[i].status == QUEUED || rows[i].status == RUNNING)
  }

  /** The number reported is the number of rows that were found queued or running. */
  lemma {:induction false} CountIsNumber(rows: seq<Row>)
    ensures CountOrphaned(rows) == |OrphanedPlaces(rows)|
  {
    if rows != [] {
      var n := |rows| - 1;
      var before := rows[..n];
      CountIsNumber(before);
      assert OrphanedPlaces(rows) == OrphanedPlaces(before) + if Orphaned(rows[n].status) then {n} else {};
      assert n !in OrphanedPlaces(before);
    }
  }

  ghost function Views(jobs: seq<Job>): seq<Row>
    reads jobs
  {
    seq(|jobs|, i requires 0 <= i < |jobs| reads jobs => jobs[i].View())
  }

  lemma CountOneMore(rows: seq<Row>, i: nat)
    requires i < |rows|
    ensures CountOrphaned(rows[..i + 1]) == CountOrphaned(rows[..i]) + (if Orphaned(rows[i].status) then 1 else 0)
  {
    assert rows[..i + 1][..i] == rows[..i];
  }

  /** The first i rows are reconciled, the others are as they were. */
  ghost predicate ReconciledUpTo(jobs: seq<Job>, before: seq<Row>, clock: seq<int>, i: nat)
    requires i <= |jobs| == |before| == |clock|
    reads jobs
  {
    && (forall k | 0 <= k < i :: jobs[k].View() == ReconciledRow(before[k], clock[k]))
    && (forall k | i <= k < |jobs| :: jobs[k].View() == before[k])
  }

  method CloseIfOrphaned(job: Job, now: int) returns (closed: bool)
    modifies job
    ensures job.View() == ReconciledRow(old(job.View()), now)
    ensures closed == Orphaned(old(job.View()).status)
  {
    closed := job.status == QUEUED || job.status == RUNNING;
    if closed {
      job.status := FAILED;
      job.errorClass := Some(GatewayRestart);
      job.completedAt := Some(now);
    }
  }

  method ReconcileOrphanedJobs(jobs: seq<Job>, clock: seq<int>) returns (closed: nat)
    requires |jobs| == |clock|
    requires forall i, j | 0 <= i < j < |jobs| :: jobs[i] != jobs[j]
    modifies jobs
    ensures Views(jobs) == Reconciled(old(Views(jobs)), clock)
    ensures closed == CountOrphaned(old(Views(jobs)))
  {
    closed := 0;
    ghost var before := Views(jobs);
    for i := 0 to |jobs|
      invariant ReconciledUpTo(jobs, before, clock, i)
      invariant closed == CountOrphaned(before[..i])
    {
      CountOneMore(before, i);
      var orphaned := CloseIfOrphaned(jobs[i], clock[i]);
      if orphaned {
        closed := closed + 1;
      }
    }
    assert before[..|jobs|] == before;
  }
}
