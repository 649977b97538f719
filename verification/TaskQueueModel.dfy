/**
 The persistent task queue as a transition system. One event is one atomic action: a
 single SQL statement, a channel operation, or a step of one worker between two of them.
 Any interleaving of events is a run, including crashes and restarts.
 */
module TaskQueueModel {
  import opened Backoff

  datatype Status = Pending | Running | Completed | Failed | Cancelled
  {
    predicate Terminal() {
      Completed? || Failed? || Cancelled?
    }
  }

  /** A row of the tasks table. Times are Unix milliseconds. */
  datatype Task = Task(
    queue: string, status: Status, attempt: int, maxRetries: int,
    nextRunAt: int, createdAt: int, updatedAt: int)

  type Tasks = map<string, Task>

  datatype QueueConfig = QueueConfig(
    concurrency: int, maxRetries: int, backoffMs: int, delayMs: int, retentionMs: int)

  datatype WorkerId = WorkerId(queue: string, index: nat)

  /** What a worker remembers of the task it dequeued. */
  datatype Job = Job(task: string, attempt: int, maxRetries: int)

  datatype Outcome = Success | Failure

  /** Where a worker stands between two atomic actions. */
  datatype Phase =
    | Idle                                       // in select
    | Draining                                   // before the next check of the context
    | Polling(now: int)                          // has read the clock, about to dequeue
    | Waiting(job: Job)                          // dequeued, at the rate limiter
    | Executing(job: Job)                        // the callback is in flight
    | Finishing(job: Job, outcome: Outcome)      // about to write the outcome
    | Reverting(job: Job)                        // shutdown: about to put the task back
    | Arming(task: string, backoff: int)         // retry written, timer not yet started
    | Exited
  {
    predicate Holds() {
      Waiting? || Executing? || Finishing? || Reverting?
    }
  }

  datatype Timer = Timer(queue: string, task: string, fireAt: int)

  /** Facts about the past that no variable of the program records. */
  datatype History = History(
    issued: set<string>,            // task ids ever handed out
    late: set<string>,              // pending but not due when their queue was created, not dequeued since
    pollFailed: bool,               // a dequeue failed in this process
    closeReset: bool,               // Close has reset the running tasks in this process
    resets: map<string, nat>,       // resets to pending that keep the attempt count
    reverts: map<string, nat>,      // reverts to pending that take the attempt back
    starts: map<string, nat>)       // callbacks started

  datatype State = State(
    clock: int,
    tasks: Tasks,
    maxConcurrency: int,
    queues: map<string, QueueConfig>,
    signals: set<string>,           // queues whose one-slot channel is full
    workers: map<WorkerId, Phase>,
    notifying: multiset<string>,    // Enqueue calls between their insert and their notify
    timers: multiset<Timer>,
    cancelled: bool,
    dbOpen: bool,
    history: History)

  datatype Event =
    | Tick(to: int)
    | CreateQueue(name: string, config: QueueConfig)
    | Insert(name: string, id: string, now: int)
    | Notify(name: string)
    | Cancel(id: string, now: int)
    | ClearQueue(name: string, now: int)
    | Wake(w: WorkerId)
    | Poll(w: WorkerId)
    | Exit(w: WorkerId)
    | StopDraining(w: WorkerId)
    | ReadClock(w: WorkerId)
    | Dequeue(w: WorkerId, id: string, lost: bool)
    | DequeueNone(w: WorkerId)
    | DequeueError(w: WorkerId)
    | Start(w: WorkerId)
    | WaitCancelled(w: WorkerId)
    | Return(w: WorkerId, outcome: Outcome)
    | Finish(w: WorkerId, now: int, ok: bool)
    | Arm(w: WorkerId)
    | Revert(w: WorkerId, now: int, ok: bool)
    | TimerFires(timer: Timer)
    | Cleanup(name: string, now: int)
    | Shutdown
    | CloseReset(now: int)
    | CloseDb
    | Restart(maxConcurrency: int, at: int)

  function Count(m: map<string, nat>, id: string): nat {
    if id in m then m[id] else 0
  }

  function Max(a: int, b: int): int {
    if a < b then b else a
  }

  function Min(a: int, b: int): int {
    if a < b then a else b
  }

  // ----- Configuration -----

  const DEFAULT_CONCURRENCY := 1
  const DEFAULT_BACKOFF_MS := 1000
  const DEFAULT_RETENTION_MS := 3_600_000
  const MIN_RETENTION_MS := 60_000
  const MAX_RETENTION_MS := 604_800_000

  function WithDefaults(c: QueueConfig): (r: QueueConfig)
    ensures r.concurrency >= 1 && r.backoffMs >= 1 && 60_000 <= r.retentionMs <= 604_800_000
    ensures c.concurrency >= 1 ==> r.concurrency == c.concurrency
    ensures c.concurrency <= 0 ==> r.concurrency == 1
    ensures c.backoffMs >= 1 ==> r.backoffMs == c.backoffMs
    ensures c.backoffMs <= 0 ==> r.backoffMs == 1000
    ensures c.retentionMs <= 0 ==> r.retentionMs == 3_600_000
    ensures c.retentionMs > 0 ==> r.retentionMs == c.retentionMs || r.retentionMs == 60_000 > c.retentionMs
                                  || r.retentionMs == 604_800_000 < c.retentionMs
    ensures r.maxRetries == c.maxRetries && r.delayMs == c.delayMs
  {
    var retention := if c.retentionMs <= 0 then DEFAULT_RETENTION_MS else c.retentionMs;
    c.(concurrency := if c.concurrency <= 0 then DEFAULT_CONCURRENCY else c.concurrency,
       backoffMs := if c.backoffMs <= 0 then DEFAULT_BACKOFF_MS else c.backoffMs,
       retentionMs := Max(MIN_RETENTION_MS, Min(MAX_RETENTION_MS, retention)))
  }

  /** The concurrency already handed out to the existing queues. */
  ghost function Allocated(queues: map<string, QueueConfig>): int {
    if queues == map[] then 0
    else
      var name :| name in queues;
      queues[name].concurrency + Allocated(queues - {name})
  }

  function Workers(name: string, n: int): map<WorkerId, Phase> {
    map i | 0 <= i < n :: WorkerId(name, i) := Draining
  }

  // ----- Statements on the tasks table -----

  predicate Eligible(tasks: Tasks, name: string, now: int, id: string) {
    id in tasks && tasks[id].queue == name && tasks[id].status.Pending? && tasks[id].nextRunAt <= now
  }

  /** ORDER BY next_run_at, created_at. */
  predicate Before(a: Task, b: Task) {
    a.nextRunAt < b.nextRunAt || (a.nextRunAt == b.nextRunAt && a.createdAt <= b.createdAt)
  }

  predicate Next(tasks: Tasks, name: string, now: int, id: string) {
    Eligible(tasks, name, now, id) && forall o :: o in tasks && Eligible(tasks, name, now, o) ==> Before(tasks[id], tasks[o])
  }

  /** Which queues a reset covers. */
  datatype Scope = AllQueues | OfQueue(name: string)
  {
    predicate Covers(task: Task) {
      AllQueues? || task.queue == name
    }
  }

  /** Running tasks in the scope go back to pending with their attempt kept. */
  function ResetRunning(tasks: Tasks, scope: Scope, now: int): (tasks': Tasks)
    ensures tasks'.Keys == tasks.Keys
  {
    map id | id in tasks ::
      if tasks[id].status.Running? && scope.Covers(tasks[id])
      then tasks[id].(status := Pending, updatedAt := now) else tasks[id]
  }

  function CountResets(resets: map<string, nat>, tasks: Tasks, scope: Scope): map<string, nat> {
    map id | id in resets.Keys + tasks.Keys ::
      Count(resets, id) + if id in tasks && tasks[id].status.Running? && scope.Covers(tasks[id]) then 1 else 0
  }

  function Increment(m: map<string, nat>, id: string): map<string, nat> {
    m[id := Count(m, id) + 1]
  }

  function CancelPending(tasks: Tasks, name: string, now: int): (tasks': Tasks)
    ensures tasks'.Keys == tasks.Keys
  {
    map id | id in tasks ::
      if tasks[id].status.Pending? && tasks[id].queue == name
      then tasks[id].(status := Cancelled, updatedAt := now) else tasks[id]
  }

  predicate Expired(task: Task, name: string, retentionMs: int, now: int) {
    task.queue == name && task.status.Terminal() && task.updatedAt + retentionMs < now
  }

  function DeleteExpired(tasks: Tasks, name: string, retentionMs: int, now: int): Tasks {
    map id | id in tasks && !Expired(tasks[id], name, retentionMs, now) :: tasks[id]
  }

  // ----- Transitions -----

  ghost predicate Enabled(s: State, e: Event) {
    match e
    case Tick(to) => to >= s.clock
    case CreateQueue(name, config) =>
      && s.dbOpen && name !in s.queues && 0 < |name| <= 128
      && Allocated(s.queues) < s.maxConcurrency
    case Insert(name, id, now) => s.dbOpen && name in s.queues && id !in s.history.issued && now <= s.clock
    case Notify(name) => name in s.notifying
    case Cancel(id, now) => s.dbOpen && id in s.tasks && s.tasks[id].status.Pending?
    case ClearQueue(name, now) => s.dbOpen && name in s.queues
    case Wake(w) => w in s.workers && s.workers[w].Idle? && w.queue in s.signals
    case Poll(w) => w in s.workers && s.workers[w].Idle?
    case Exit(w) => w in s.workers && s.workers[w].Idle? && s.cancelled
    case StopDraining(w) => w in s.workers && s.workers[w].Draining? && s.cancelled
    case ReadClock(w) => w in s.workers && s.workers[w].Draining?
    case Dequeue(w, id, lost) =>
      && w in s.workers && s.workers[w].Polling? && !s.cancelled && s.dbOpen
      && Next(s.tasks, w.queue, s.workers[w].now, id)
    case DequeueNone(w) =>
      && w in s.workers && s.workers[w].Polling? && !s.cancelled && s.dbOpen
      && forall id :: id in s.tasks ==> !Eligible(s.tasks, w.queue, s.workers[w].now, id)
    case DequeueError(w) => w in s.workers && s.workers[w].Polling?
    case Start(w) => w in s.workers && s.workers[w].Waiting?
    case WaitCancelled(w) => w in s.workers && s.workers[w].Waiting? && s.cancelled
    case Return(w, outcome) => w in s.workers && s.workers[w].Executing?
    case Finish(w, now, ok) =>
      && w in s.workers && s.workers[w].Finishing? && now <= s.clock
      && (ok ==> !s.cancelled && s.dbOpen)
    case Arm(w) => w in s.workers && s.workers[w].Arming?
    case Revert(w, now, ok) => w in s.workers && s.workers[w].Reverting? && (ok ==> s.dbOpen)
    case TimerFires(timer) => timer in s.timers && timer.fireAt <= s.clock
    case Cleanup(name, now) => name in s.queues && now <= s.clock && !s.cancelled && s.dbOpen
    case Shutdown => true
    case CloseReset(now) => s.cancelled && s.dbOpen
    case CloseDb => s.history.closeReset
    case Restart(maxConcurrency, at) => at >= s.clock
  }

  /** The events that are a step of worker e.w. */
  predicate ByWorker(e: Event) {
    || e.Wake? || e.Poll? || e.Exit? || e.StopDraining? || e.ReadClock? || e.Dequeue? || e.DequeueNone?
    || e.DequeueError? || e.Start? || e.WaitCancelled? || e.Return? || e.Finish? || e.Arm? || e.Revert?
  }

  /** The worker's queue exists, and it never handles a failure with an attempt below 1. */
  predicate WellDefined(s: State, e: Event) {
    e.Finish? && e.w in s.workers && s.workers[e.w].Finishing? ==>
      && e.w.queue in s.queues
      && (s.workers[e.w].outcome.Failure? ==> s.workers[e.w].job.attempt >= 1)
  }

  /** A failed attempt is retried as long as the attempt number does not exceed max_retries. */
  predicate Retries(phase: Phase) {
    phase.Finishing? && phase.outcome.Failure? && phase.job.attempt <= phase.job.maxRetries
  }

  function RetryWait(s: State, w: WorkerId): int
    requires w in s.workers && s.workers[w].Finishing? && w.queue in s.queues && s.workers[w].job.attempt >= 1
  {
    RetryDelay(s.queues[w.queue].backoffMs, s.workers[w].job.attempt)
  }

  /** The concurrency a new queue gets: what it asks for, or what is left. */
  ghost function Granted(s: State, config: QueueConfig): QueueConfig {
    var c := WithDefaults(config);
    c.(concurrency := Min(c.concurrency, s.maxConcurrency - Allocated(s.queues)))
  }

  ghost function NewQueues(s: State, e: Event): map<string, QueueConfig> {
    match e
    case CreateQueue(name, config) => s.queues[name := Granted(s, config)]
    case Restart(_, _) => map[]
    case _ => s.queues
  }

  /** completeTask and handleTaskFailure: the row is found by id, whatever its status. */
  function Finished(s: State, w: WorkerId, t: Task, now: int): Task
    requires w in s.workers && s.workers[w].Finishing? && w.queue in s.queues
    requires s.workers[w].outcome.Failure? ==> s.workers[w].job.attempt >= 1
  {
    if s.workers[w].outcome.Success? then t.(status := Completed, updatedAt := now)
    else if Retries(s.workers[w]) then t.(status := Pending, nextRunAt := now + RetryWait(s, w), updatedAt := now)
    else t.(status := Failed, updatedAt := now)
  }

  function NewTasks(s: State, e: Event): Tasks
    requires e.Finish? ==>
               && e.w in s.workers && s.workers[e.w].Finishing? && e.w.queue in s.queues
               && (s.workers[e.w].outcome.Failure? ==> s.workers[e.w].job.attempt >= 1)
    requires e.Revert? ==> e.w in s.workers && s.workers[e.w].Reverting?
    requires e.Dequeue? ==> e.w in s.workers && s.workers[e.w].Polling? && e.id in s.tasks
    requires e.Insert? || e.Cleanup? ==> e.name in s.queues
    requires e.Cancel? ==> e.id in s.tasks
  {
    match e
    case CreateQueue(name, _) => ResetRunning(s.tasks, OfQueue(name), s.clock)
    case Insert(name, id, now) => s.tasks[id := Task(name, Pending, 0, s.queues[name].maxRetries, now, now, now)]
    case Cancel(id, now) => s.tasks[id := s.tasks[id].(status := Cancelled, updatedAt := now)]
    case ClearQueue(name, now) => CancelPending(s.tasks, name, now)
    case Dequeue(w, id, _) =>
      s.tasks[id := s.tasks[id].(status := Running, attempt := s.tasks[id].attempt + 1, updatedAt := s.workers[w].now)]
    case Finish(w, now, ok) =>
      var id := s.workers[w].job.task;
      if ok && id in s.tasks then s.tasks[id := Finished(s, w, s.tasks[id], now)] else s.tasks
    case Revert(w, now, ok) =>
      var id := s.workers[w].job.task;
      if Reverts(s, w, ok)
      then s.tasks[id := s.tasks[id].(status := Pending, attempt := Max(s.tasks[id].attempt - 1, 0), updatedAt := now)]
      else s.tasks
    case Cleanup(name, now) => DeleteExpired(s.tasks, name, s.queues[name].retentionMs, now)
    case CloseReset(now) => ResetRunning(s.tasks, AllQueues, now)
    case _ => s.tasks
  }

  /** revertTaskToPending has an effect only on a row that is running. */
  predicate Reverts(s: State, w: WorkerId, ok: bool)
    requires w in s.workers && s.workers[w].Reverting?
  {
    ok && s.workers[w].job.task in s.tasks && s.tasks[s.workers[w].job.task].status.Running?
  }

  function NextPhase(s: State, e: Event): Phase
    requires ByWorker(e) && e.w in s.workers
    requires e.Start? || e.WaitCancelled? ==> s.workers[e.w].Waiting?
    requires e.Return? ==> s.workers[e.w].Executing?
    requires e.Dequeue? ==> e.id in s.tasks
    requires e.Finish? ==> s.workers[e.w].Finishing? && e.w.queue in s.queues
                           && (s.workers[e.w].outcome.Failure? ==> s.workers[e.w].job.attempt >= 1)
  {
    match e
    case Wake(_) => Draining
    case Poll(_) => Draining
    case Exit(_) => Exited
    case ReadClock(_) => Polling(s.clock)
    case Dequeue(_, id, lost) => if lost then Idle else Waiting(Job(id, s.tasks[id].attempt + 1, s.tasks[id].maxRetries))
    case Start(w) => Executing(s.workers[w].job)
    case WaitCancelled(w) => Reverting(s.workers[w].job)
    case Return(w, outcome) =>
      if s.cancelled then Reverting(s.workers[w].job) else Finishing(s.workers[w].job, outcome)
    case Finish(w, _, _) => if Retries(s.workers[w]) then Arming(s.workers[w].job.task, RetryWait(s, w)) else Draining
    case Arm(_) => Draining
    case _ => Idle
  }

  ghost function NewWorkers(s: State, e: Event): map<WorkerId, Phase>
    requires Enabled(s, e) && WellDefined(s, e)
  {
    if ByWorker(e) then s.workers[e.w := NextPhase(s, e)]
    else if e.CreateQueue? then s.workers + Workers(e.name, Granted(s, e.config).concurrency)
    else if e.Restart? then map[]
    else s.workers
  }

  /** The one-slot channels: a send to a full channel is dropped. */
  function NewSignals(s: State, e: Event): set<string> {
    match e
    case Notify(name) => s.signals + {name}
    case TimerFires(timer) => s.signals + {timer.queue}
    case Wake(w) => s.signals - {w.queue}
    case Restart(_, _) => {}
    case _ => s.signals
  }

  function NewNotifying(s: State, e: Event): multiset<string> {
    match e
    case Insert(name, _, _) => s.notifying + multiset{name}
    case Notify(name) => s.notifying - multiset{name}
    case Restart(_, _) => multiset{}
    case _ => s.notifying
  }

  function NewTimers(s: State, e: Event): multiset<Timer>
    requires e.Arm? ==> e.w in s.workers && s.workers[e.w].Arming?
  {
    match e
    case Arm(w) => s.timers + multiset{Timer(w.queue, s.workers[w].task, s.clock + s.workers[w].backoff)}
    case TimerFires(timer) => s.timers - multiset{timer}
    case Restart(_, _) => multiset{}
    case _ => s.timers
  }

  function NewLate(s: State, e: Event): set<string> {
    match e
    case CreateQueue(name, _) =>
      s.history.late + set id | id in s.tasks && s.tasks[id].queue == name && s.tasks[id].nextRunAt > s.clock
    case Dequeue(_, id, _) => s.history.late - {id}
    case Restart(_, _) => {}
    case _ => s.history.late
  }

  function NewHistory(s: State, e: Event): History
    requires e.Revert? ==> e.w in s.workers && s.workers[e.w].Reverting?
    requires e.Start? ==> e.w in s.workers && s.workers[e.w].Waiting?
  {
    var h := s.history;
    History(
      if e.Insert? then h.issued + {e.id} else h.issued,
      NewLate(s, e),
      !e.Restart? && (h.pollFailed || e.DequeueError? || (e.Dequeue? && e.lost)),
      !e.Restart? && (h.closeReset || e.CloseReset?),
      if e.CreateQueue? then CountResets(h.resets, s.tasks, OfQueue(e.name))
      else if e.CloseReset? then CountResets(h.resets, s.tasks, AllQueues)
      else h.resets,
      if e.Revert? && Reverts(s, e.w, e.ok) then Increment(h.reverts, s.workers[e.w].job.task) else h.reverts,
      if e.Start? then Increment(h.starts, s.workers[e.w].job.task) else h.starts)
  }

  /** One atomic step, variable by variable. */
  ghost function Apply(s: State, e: Event): State
    requires Enabled(s, e) && WellDefined(s, e)
  {
    State(
      if e.Tick? then e.to else if e.Restart? then e.at else s.clock,
      NewTasks(s, e),
      if e.Restart? then e.maxConcurrency else s.maxConcurrency,
      NewQueues(s, e),
      NewSignals(s, e),
      NewWorkers(s, e),
      NewNotifying(s, e),
      NewTimers(s, e),
      !e.Restart? && (s.cancelled || e.Shutdown?),
      e.Restart? || (s.dbOpen && !e.CloseDb?),
      NewHistory(s, e))
  }
}
