/**
 What the atomic actions do to the rows they are about, said in terms of the row before,
 and what follows over runs: who a running task belongs to, and how a task came to its end.
 */
module TaskQueueEffects {
  import opened Backoff
  import opened TaskQueueModel
  import opened TaskQueueOwnership

  // ----- Recovery -----

  /**
   Creating a queue puts what a crash has left running in it back to pending, in the same
   attempt and due at the same time; no other row is touched.
   */
  lemma CreateQueueRecovers(s: State, name: string, config: QueueConfig, id: string)
    requires Enabled(s, CreateQueue(name, config)) && id in s.tasks
    ensures var tasks := Apply(s, CreateQueue(name, config)).tasks;
            && tasks.Keys == s.tasks.Keys
            && !(tasks[id].queue == name && tasks[id].status.Running?)
            && tasks[id] ==
                 if s.tasks[id].queue == name && s.tasks[id].status.Running?
                 then s.tasks[id].(status := Pending, updatedAt := s.clock) else s.tasks[id]
  {
    hide Granted, NewWorkers, NewHistory, NewQueues;
  }

  /** The outcome could not be written, the task could not be put back, or the dequeue's answer was lost. */
  predicate Orphans(s: State, e: Event, id: string) {
    || (e.Finish? && !e.ok && e.w in s.workers && s.workers[e.w].Finishing? && s.workers[e.w].job.task == id)
    || (e.Revert? && !e.ok && e.w in s.workers && s.workers[e.w].Reverting? && s.workers[e.w].job.task == id)
    || (e.Dequeue? && e.lost && e.id == id)
  }

  ghost predicate Orphaned(states: seq<State>, events: seq<Event>, n: nat, id: string)
    requires n <= |events| < |states|
  {
    exists i :: 0 <= i < n && Orphans(states[i], events[i], id) && NoRestart(events, i, n)
  }

  predicate NoRestart(events: seq<Event>, i: nat, n: nat)
    requires n <= |events|
  {
    forall k :: i <= k < n ==> !events[k].Restart?
  }

  ghost predicate Held(s: State, id: string) {
    exists w :: HeldBy(s.workers, w, id)
  }

  /** A task that runs after a step was running before it, or has just been dequeued. */
  lemma RunningBefore(s: State, e: Event, id: string)
    requires Enabled(s, e) && WellDefined(s, e) && TasksValid(s)
    requires id in NewTasks(s, e) && NewTasks(s, e)[id].status.Running?
    ensures id in s.tasks && s.tasks[id].queue == NewTasks(s, e)[id].queue
    ensures s.tasks[id].status.Running? || (e.Dequeue? && e.id == id)
  {
  }

  lemma WrittenOrOrphaned(s: State, e: Event, id: string)
    requires QueuesValid(s) && Ownership(s) && Enabled(s, e) && WellDefined(s, e) && (e.Finish? || e.Revert?)
    requires HeldBy(s.workers, e.w, id) && id in NewTasks(s, e) && NewTasks(s, e)[id].status.Running?
    ensures Orphans(s, e, id)
  {
    hide Granted, Next, Eligible, Allocated, RetryWait;
  }

  lemma OwnStepHolds(s: State, e: Event, w: WorkerId, id: string)
    requires Enabled(s, e) && WellDefined(s, e) && IsStepOf(e, w) && !e.Finish? && !e.Revert?
    requires HeldBy(s.workers, w, id)
    ensures HeldBy(NewWorkers(s, e), w, id)
  {
    hide Granted, Next, Eligible, Allocated, RetryWait;
  }

  lemma OthersHold(s: State, e: Event, w: WorkerId, id: string)
    requires QueuesValid(s) && Enabled(s, e) && WellDefined(s, e) && !e.Restart? && !IsStepOf(e, w)
    requires HeldBy(s.workers, w, id)
    ensures HeldBy(NewWorkers(s, e), w, id)
  {
    hide Enabled, WellDefined, NewWorkers, IsStepOf, QueuesValid;
    OthersStay(s, e, w);
  }

  /** A worker lets go of a task that is still running only if it could not write to its row. */
  lemma HeldUntilWritten(s: State, e: Event, w: WorkerId, id: string)
    requires QueuesValid(s) && Ownership(s) && Enabled(s, e) && WellDefined(s, e) && !e.Restart?
    requires HeldBy(s.workers, w, id) && id in NewTasks(s, e) && NewTasks(s, e)[id].status.Running?
    ensures HeldBy(NewWorkers(s, e), w, id) || Orphans(s, e, id)
  {
    hide Enabled, WellDefined, NewWorkers, NewTasks, QueuesValid, HeldBy, Ownership, Orphans;
    if !IsStepOf(e, w) {
      OthersHold(s, e, w, id);
    } else if e.Finish? || e.Revert? {
      WrittenOrOrphaned(s, e, id);
    } else {
      OwnStepHolds(s, e, w, id);
    }
  }

  lemma DequeuedIsHeld(s: State, e: Event)
    requires Enabled(s, e) && WellDefined(s, e) && e.Dequeue?
    ensures HeldBy(NewWorkers(s, e), e.w, e.id) || Orphans(s, e, e.id)
  {
  }

  lemma QueueIsOld(s: State, e: Event, id: string)
    requires Enabled(s, e) && WellDefined(s, e) && id in s.tasks && id in NewTasks(s, e)
    requires NewTasks(s, e)[id].status.Running? && s.tasks[id].queue in NewQueues(s, e)
    ensures s.tasks[id].queue in s.queues && !e.Restart?
  {
    hide Granted;
  }

  lemma RunningStaysHeld(s: State, e: Event, id: string)
    requires QueuesValid(s) && Ownership(s) && Enabled(s, e) && WellDefined(s, e)
    requires id in NewTasks(s, e) && NewTasks(s, e)[id].status.Running? && NewTasks(s, e)[id].queue in NewQueues(s, e)
    ensures id in s.tasks && s.tasks[id].queue in s.queues && !e.Restart?
    ensures s.tasks[id].status.Running? || (e.Dequeue? && e.id == id)
    ensures !s.tasks[id].status.Running? || Held(s, id) ==> Held(Apply(s, e), id) || Orphans(s, e, id)
  {
    hide Apply, NewTasks, NewWorkers, NewQueues, Enabled, WellDefined, QueuesValid, Exclusive, HeldIsOwned, ClosedQuiet, HeldBy, Orphans;
    ApplyFields(s, e);
    RunningBefore(s, e, id);
    QueueIsOld(s, e, id);
    if e.Dequeue? && e.id == id {
      DequeuedIsHeld(s, e);
    } else if Held(s, id) {
      var w :| HeldBy(s.workers, w, id);
      HeldUntilWritten(s, e, w, id);
    }
  }

  /**
   Nothing runs unattended: in an existing queue a running task is in some worker's hands,
   unless since the process started an outcome could not be written, a task could not be put
   back, or the answer to a dequeue was lost.
   */
  lemma {:induction false} RunningIsHeld(states: seq<State>, events: seq<Event>, n: nat, id: string)
    requires IsRun(states, events) && n < |states|
    requires id in states[n].tasks && states[n].tasks[id].status.Running? && states[n].tasks[id].queue in states[n].queues
    ensures Held(states[n], id) || Orphaned(states, events, n, id)
  {
    hide Apply, Enabled, WellDefined, QueuesValid, Ownership, Held, Orphans;
    if n > 0 {
      RunsAreValid(states, events, n - 1);
      RunStep(states, events, n - 1);
      var s, e := states[n - 1], events[n - 1];
      ApplyFields(s, e);
      RunningStaysHeld(s, e, id);
      if s.tasks[id].status.Running? {
        RunningIsHeld(states, events, n - 1, id);
      }
    }
  }

  /** A task put back at shutdown has its attempt taken back, and keeps its date. */
  lemma RevertTakesBack(s: State, w: WorkerId, now: int)
    requires Ownership(s) && QueuesValid(s) && Enabled(s, Revert(w, now, true))
    ensures WellDefined(s, Revert(w, now, true))
    ensures var tasks, id := Apply(s, Revert(w, now, true)).tasks, s.workers[w].job.task;
            && tasks.Keys == s.tasks.Keys
            && (forall other :: other in tasks && other != id ==> tasks[other] == s.tasks[other])
            && (id in tasks ==>
                  if s.tasks[id].status.Running?
                  then tasks[id] == s.tasks[id].(status := Pending, attempt := s.workers[w].job.attempt - 1, updatedAt := now)
                  else tasks[id] == s.tasks[id])
  {
    hide NewHistory, NewWorkers;
    InvariantsAreWellDefined(s, Revert(w, now, true));
    if s.workers[w].job.task in s.tasks && s.tasks[s.workers[w].job.task].status.Running? {
      assert Owns(s.tasks, w, s.workers[w].job);
    }
  }

  /** Shutdown puts back everything that is still running, in the attempt it is in. */
  lemma CloseResets(s: State, now: int, id: string)
    requires Enabled(s, CloseReset(now)) && id in s.tasks
    ensures var tasks := Apply(s, CloseReset(now)).tasks;
            && tasks.Keys == s.tasks.Keys
            && tasks[id] == if s.tasks[id].status.Running? then s.tasks[id].(status := Pending, updatedAt := now) else s.tasks[id]
  {
    hide NewHistory, NewWorkers;
  }

  /** The event is a step that this worker takes. */
  predicate IsStepOf(e: Event, w: WorkerId) {
    match e
    case Wake(v) => v == w
    case Poll(v) => v == w
    case Exit(v) => v == w
    case StopDraining(v) => v == w
    case ReadClock(v) => v == w
    case Dequeue(v, _, _) => v == w
    case DequeueNone(v) => v == w
    case DequeueError(v) => v == w
    case Start(v) => v == w
    case WaitCancelled(v) => v == w
    case Return(v, _) => v == w
    case Finish(v, _, _) => v == w
    case Arm(v) => v == w
    case Revert(v, _, _) => v == w
    case _ => false
  }

  /** The steps that a worker takes, from one atomic action to the next. */
  predicate MovesOn(s: State, queue: string, e: Event, before: Phase, after: Phase) {
    match before
    case Idle => if e.Exit? then after.Exited? && s.cancelled else after.Draining?
    case Draining => if e.StopDraining? then after.Idle? && s.cancelled else after == Polling(s.clock)
    case Polling(_) =>
      if e.Dequeue? && !e.lost
      then e.id in s.tasks && after == Waiting(Job(e.id, s.tasks[e.id].attempt + 1, s.tasks[e.id].maxRetries)) else after.Idle?
    case Waiting(job) => if e.WaitCancelled? then after == Reverting(job) && s.cancelled else after == Executing(job)
    case Executing(job) => if s.cancelled then after == Reverting(job) else e.Return? && after == Finishing(job, e.outcome)
    case Finishing(job, outcome) =>
      if outcome.Failure? && 1 <= job.attempt <= job.maxRetries && queue in s.queues
      then after == Arming(job.task, RetryDelay(s.queues[queue].backoffMs, job.attempt)) else after.Draining?
    case Reverting(_) => after.Idle?
    case Arming(_, _) => after.Draining?
    case Exited => false
  }

  lemma OwnStep(s: State, e: Event, w: WorkerId)
    requires QueuesValid(s) && Ownership(s) && Enabled(s, e) && WellDefined(s, e) && IsStepOf(e, w)
    ensures w in s.workers && ByWorker(e) && e.w == w && w in NewWorkers(s, e)
    ensures MovesOn(s, w.queue, e, s.workers[w], NewWorkers(s, e)[w])
  {
    hide Granted, RetryDelay, Before, Allocated;
  }

  lemma OthersStay(s: State, e: Event, w: WorkerId)
    requires QueuesValid(s) && Enabled(s, e) && WellDefined(s, e) && !e.Restart? && w in s.workers && !IsStepOf(e, w)
    ensures w in NewWorkers(s, e) && NewWorkers(s, e)[w] == s.workers[w]
  {
    hide Granted, RetryDelay, Next, Eligible, Allocated, NextPhase;
  }

  lemma WorkersMoveOn(s: State, e: Event, w: WorkerId)
    requires QueuesValid(s) && Ownership(s) && Enabled(s, e) && WellDefined(s, e) && !e.Restart? && w in s.workers
    ensures w in NewWorkers(s, e)
    ensures if IsStepOf(e, w) then MovesOn(s, w.queue, e, s.workers[w], NewWorkers(s, e)[w])
            else NewWorkers(s, e)[w] == s.workers[w]
  {
    hide Enabled, WellDefined, NewWorkers, MovesOn, IsStepOf, QueuesValid, Ownership;
    if IsStepOf(e, w) {
      OwnStep(s, e, w);
    } else {
      OthersStay(s, e, w);
    }
  }

  // ----- Rows -----

  /** What the calls, a dequeue and a clean-up write, row by row. */
  ghost predicate Writes(s: State, e: Event, tasks': Tasks, id: string) {
    match e
    case Insert(name, issued, now) =>
      && tasks'.Keys == s.tasks.Keys + {issued} && issued !in s.tasks
      && (id in s.tasks ==> tasks'[id] == s.tasks[id])
      && (id == issued ==>
            && tasks'[id].queue == name && tasks'[id].status.Pending? && tasks'[id].attempt == 0
            && name in s.queues && tasks'[id].maxRetries == s.queues[name].maxRetries
            && tasks'[id].nextRunAt == now && tasks'[id].createdAt == now && tasks'[id].updatedAt == now)
    case Cancel(one, now) =>
      && tasks'.Keys == s.tasks.Keys
      && (id in s.tasks ==> tasks'[id] == if id == one then s.tasks[id].(status := Cancelled, updatedAt := now) else s.tasks[id])
    case ClearQueue(name, now) =>
      && tasks'.Keys == s.tasks.Keys
      && (id in s.tasks ==>
            tasks'[id] == if s.tasks[id].queue == name && s.tasks[id].status.Pending?
                          then s.tasks[id].(status := Cancelled, updatedAt := now) else s.tasks[id])
    case Dequeue(w, one, _) =>
      && tasks'.Keys == s.tasks.Keys && w in s.workers && s.workers[w].Polling?
      && (id in s.tasks ==>
            tasks'[id] == if id == one
                          then s.tasks[id].(status := Running, attempt := s.tasks[id].attempt + 1, updatedAt := s.workers[w].now)
                          else s.tasks[id])
    case Cleanup(name, now) =>
      && tasks'.Keys <= s.tasks.Keys && name in s.queues
      && (id in s.tasks ==>
            var t := s.tasks[id];
            (id !in tasks' <==>
               t.queue == name && (t.status.Completed? || t.status.Failed? || t.status.Cancelled?)
               && t.updatedAt + s.queues[name].retentionMs < now))
      && (id in tasks' ==> id in s.tasks && tasks'[id] == s.tasks[id])
    case _ => true
  }

  lemma EventsWrite(s: State, e: Event, id: string)
    requires Enabled(s, e) && WellDefined(s, e) && TasksValid(s)
    ensures Writes(s, e, NewTasks(s, e), id)
    ensures !(e.CreateQueue? || e.Insert? || e.Cancel? || e.ClearQueue? || e.Dequeue? || e.Finish? || e.Revert? || e.Cleanup? || e.CloseReset?) ==>
              NewTasks(s, e) == s.tasks
    ensures (e.Finish? || e.Revert?) && !e.ok ==> NewTasks(s, e) == s.tasks
  {
    hide Allocated, Before, RetryWait, Retries;
  }

  /** A new process has an open database and no queues, workers, signals or timers; the rows are as the old one left them. */
  lemma RestartStartsAfresh(s: State, maxConcurrency: int, at: int)
    requires Enabled(s, Restart(maxConcurrency, at))
    ensures var s' := Apply(s, Restart(maxConcurrency, at));
            && s'.tasks == s.tasks && s'.dbOpen && !s'.cancelled && s'.maxConcurrency == maxConcurrency && s'.clock == at
            && s'.queues == map[] && s'.workers == map[] && s'.signals == {} && s'.notifying == multiset{} && s'.timers == multiset{}
  {
    hide NewHistory;
  }

  /** Within a process the database is open until it is closed, and a shutdown is for good. */
  lemma ProcessStays(s: State, e: Event)
    requires Enabled(s, e) && WellDefined(s, e) && !e.Restart?
    ensures var s' := Apply(s, e);
            && s'.maxConcurrency == s.maxConcurrency
            && (s'.dbOpen != s.dbOpen ==> e.CloseDb?) && (e.CloseDb? ==> !s'.dbOpen)
            && (s'.cancelled != s.cancelled ==> e.Shutdown?) && (e.Shutdown? ==> s'.cancelled)
            && s'.clock == if e.Tick? then e.to else s.clock
  {
    hide NewTasks, NewWorkers, NewHistory, NewQueues, NewSignals, NewTimers, NewNotifying;
  }

  // ----- Signals and timers -----

  /** The event sends a signal to the workers of the queue. */
  predicate Signals(e: Event, name: string) {
    (e.Notify? && e.name == name) || (e.TimerFires? && e.timer.queue == name)
  }

  /** The timer is started for the end of the worker's backoff. */
  predicate StartsTimer(s: State, e: Event, timer: Timer) {
    && e.Arm? && e.w in s.workers && s.workers[e.w].Arming?
    && timer == Timer(e.w.queue, s.workers[e.w].task, s.clock + s.workers[e.w].backoff)
  }

  /** A signal stays until a worker of the queue takes it. */
  lemma SignalsAre(s: State, e: Event, name: string)
    ensures name in NewSignals(s, e) <==>
              !e.Restart? && (Signals(e, name) || (name in s.signals && !(e.Wake? && e.w.queue == name)))
  {
  }

  /** An Enqueue is under way until it has notified. */
  lemma NotifyingAre(s: State, e: Event, name: string)
    requires e.Notify? ==> e.name in s.notifying
    ensures NewNotifying(s, e)[name] ==
              if e.Restart? then 0
              else s.notifying[name] + (if e.Insert? && e.name == name then 1 else 0) - (if e.Notify? && e.name == name then 1 else 0)
  {
  }

  /** A timer stays until it fires. */
  lemma TimersAre(s: State, e: Event, timer: Timer)
    requires e.Arm? ==> e.w in s.workers && s.workers[e.w].Arming?
    requires e.TimerFires? ==> e.timer in s.timers
    ensures NewTimers(s, e)[timer] ==
              if e.Restart? then 0
              else s.timers[timer] + (if StartsTimer(s, e, timer) then 1 else 0) - (if e.TimerFires? && e.timer == timer then 1 else 0)
  {
  }

  lemma EventsFindTheirs(s: State, e: Event)
    requires Enabled(s, e)
    ensures e.Notify? ==> e.name in s.notifying
    ensures e.Arm? ==> e.w in s.workers && s.workers[e.w].Arming?
    ensures e.TimerFires? ==> e.timer in s.timers
  {
    hide Next, Eligible, Allocated;
  }

  /** Signals, notifications under way and timers after every event. */
  lemma ChannelsAre(s: State, e: Event, name: string, timer: Timer)
    requires Enabled(s, e) && WellDefined(s, e)
    ensures var s' := Apply(s, e);
            && (name in s'.signals <==> !e.Restart? && (Signals(e, name) || (name in s.signals && !(e.Wake? && e.w.queue == name))))
            && s'.notifying[name] ==
                 (if e.Restart? then 0
                  else s.notifying[name] + (if e.Insert? && e.name == name then 1 else 0) - (if e.Notify? && e.name == name then 1 else 0))
            && s'.timers[timer] ==
                 (if e.Restart? then 0
                  else s.timers[timer] + (if StartsTimer(s, e, timer) then 1 else 0)
                       - (if e.TimerFires? && e.timer == timer then 1 else 0))
  {
    EventsFindTheirs(s, e);
    hide Enabled, WellDefined, NewSignals, NewNotifying, NewTimers, Signals, StartsTimer, NewTasks, NewWorkers, NewQueues, NewHistory, Apply;
    ApplyFields(s, e);
    SignalsAre(s, e, name);
    NotifyingAre(s, e, name);
    TimersAre(s, e, timer);
  }

  // ----- What can happen next -----

  /** The task is pending and due, and no pending task of the queue is due earlier, or as early and older. */
  ghost predicate IsNextDue(s: State, name: string, now: int, id: string) {
    && id in s.tasks && s.tasks[id].queue == name && s.tasks[id].status.Pending? && s.tasks[id].nextRunAt <= now
    && forall o :: o in s.tasks && s.tasks[o].queue == name && s.tasks[o].status.Pending? ==>
         || s.tasks[id].nextRunAt < s.tasks[o].nextRunAt
         || (s.tasks[id].nextRunAt == s.tasks[o].nextRunAt && s.tasks[id].createdAt <= s.tasks[o].createdAt)
  }

  ghost predicate NothingIsDue(s: State, name: string, now: int) {
    forall id :: id in s.tasks && s.tasks[id].queue == name && s.tasks[id].status.Pending? ==> s.tasks[id].nextRunAt > now
  }

  /** The steps open to a worker: those that depend on nothing but its phase, and those that need an open database or a shutdown. */
  ghost predicate IsOpenTo(s: State, w: WorkerId, e: Event)
    requires w in s.workers
  {
    match s.workers[w]
    case Idle => e == Poll(w) || (e == Wake(w) && w.queue in s.signals) || (e == Exit(w) && s.cancelled)
    case Draining => e == ReadClock(w) || (e == StopDraining(w) && s.cancelled)
    case Polling(now) =>
      || e == DequeueError(w)
      || (!s.cancelled && s.dbOpen && e == DequeueNone(w) && NothingIsDue(s, w.queue, now))
      || (!s.cancelled && s.dbOpen && e.Dequeue? && IsNextDue(s, w.queue, now, e.id))
    case Waiting(_) => e == Start(w) || (e == WaitCancelled(w) && s.cancelled)
    case Executing(_) => e.Return?
    case Finishing(_, _) => e.Finish? && e.now <= s.clock && (e.ok ==> !s.cancelled && s.dbOpen)
    case Reverting(_) => e.Revert? && (e.ok ==> s.dbOpen)
    case Arming(_, _) => e == Arm(w)
    case Exited => false
  }

  lemma NextDueIs(s: State, name: string, now: int)
    ensures forall id :: Next(s.tasks, name, now, id) <==> IsNextDue(s, name, now, id)
    ensures (forall id :: id in s.tasks ==> !Eligible(s.tasks, name, now, id)) <==> NothingIsDue(s, name, now)
  {
    forall id ensures Next(s.tasks, name, now, id) <==> IsNextDue(s, name, now, id) {
      if Next(s.tasks, name, now, id) {
        forall o | o in s.tasks && s.tasks[o].queue == name && s.tasks[o].status.Pending?
          ensures s.tasks[id].nextRunAt < s.tasks[o].nextRunAt
                  || (s.tasks[id].nextRunAt == s.tasks[o].nextRunAt && s.tasks[id].createdAt <= s.tasks[o].createdAt)
        {
          assert Eligible(s.tasks, name, now, o) ==> Before(s.tasks[id], s.tasks[o]);
        }
      }
    }
    if NothingIsDue(s, name, now) {
      assert forall id :: id in s.tasks ==> !Eligible(s.tasks, name, now, id);
    }
    if forall id :: id in s.tasks ==> !Eligible(s.tasks, name, now, id) {
      forall id | id in s.tasks && s.tasks[id].queue == name && s.tasks[id].status.Pending? ensures s.tasks[id].nextRunAt > now {
        assert !Eligible(s.tasks, name, now, id);
      }
    }
  }

  /** A worker may do exactly what its phase leaves open, and nobody else can keep it from that. */
  lemma WorkerMayIff(s: State, w: WorkerId, e: Event)
    requires w in s.workers && IsStepOf(e, w)
    ensures Enabled(s, e) <==> IsOpenTo(s, w, e)
  {
    hide Next, Eligible, IsNextDue, NothingIsDue, Allocated;
    if s.workers[w].Polling? {
      NextDueIs(s, w.queue, s.workers[w].now);
    }
  }

  /** There is always a step open to a worker that has not exited. */
  lemma WorkersAreNeverStuck(s: State, w: WorkerId)
    requires w in s.workers && !s.workers[w].Exited?
    ensures exists e :: IsStepOf(e, w) && Enabled(s, e)
  {
    var e := match s.workers[w] {
      case Idle => Poll(w)
      case Draining => ReadClock(w)
      case Polling(_) => DequeueError(w)
      case Waiting(_) => Start(w)
      case Executing(_) => Return(w, Success)
      case Finishing(_, _) => Finish(w, s.clock, false)
      case Reverting(_) => Revert(w, s.clock, false)
      case Arming(_, _) => Arm(w)
      case Exited => Poll(w)
    };
    WorkerMayIff(s, w, e);
    hide Enabled;
  }

  /** When the calls from outside have an effect. */
  lemma CallsMayIff(s: State, name: string, config: QueueConfig, id: string, now: int)
    ensures Enabled(s, CreateQueue(name, config)) <==>
              s.dbOpen && 1 <= |name| <= 128 && name !in s.queues.Keys && s.maxConcurrency - Allocated(s.queues) >= 1
    ensures Enabled(s, Insert(name, id, now)) <==> s.dbOpen && name in s.queues.Keys && id !in s.history.issued && s.clock >= now
    ensures Enabled(s, Cancel(id, now)) <==> s.dbOpen && id in s.tasks.Keys && s.tasks[id].status == Pending
    ensures Enabled(s, ClearQueue(name, now)) <==> s.dbOpen && name in s.queues.Keys
  {
    hide Next, Eligible, Allocated;
  }

  /** When a notification, the clean-up and the two steps of Close have an effect. */
  lemma ServiceMayIff(s: State, name: string, now: int)
    ensures Enabled(s, Notify(name)) <==> s.notifying[name] >= 1
    ensures Enabled(s, Cleanup(name, now)) <==> s.dbOpen && !s.cancelled && name in s.queues.Keys && s.clock >= now
    ensures Enabled(s, CloseReset(now)) <==> s.dbOpen && s.cancelled
    ensures Enabled(s, CloseDb) <==> s.history.closeReset
  {
    hide Next, Eligible, Allocated;
  }

  /** Time passes, crashes and shutdowns happen, and timers fire, whatever the workers do. */
  lemma SurroundingsAreFree(s: State, to: int, maxConcurrency: int, timer: Timer)
    ensures to >= s.clock ==> Enabled(s, Tick(to)) && Enabled(s, Restart(maxConcurrency, to))
    ensures Enabled(s, Shutdown)
    ensures timer in s.timers && timer.fireAt <= s.clock ==> Enabled(s, TimerFires(timer))
  {
  }

  // ----- Outcomes -----

  /**
   What writing the outcome of an attempt makes of the task: completed for a success, failed
   for a failure beyond the last retry, and otherwise pending until the backoff is over.
   */
  lemma FinishWritesOutcome(s: State, w: WorkerId, now: int)
    requires Ownership(s) && QueuesValid(s) && Enabled(s, Finish(w, now, true))
    ensures WellDefined(s, Finish(w, now, true))
    ensures var s', job, outcome := Apply(s, Finish(w, now, true)), s.workers[w].job, s.workers[w].outcome;
            && job.task in s.tasks && s'.tasks.Keys == s.tasks.Keys && w.queue in s.queues && job.attempt >= 1
            && var t, t' := s.tasks[job.task], s'.tasks[job.task];
               && t.attempt == job.attempt && t.maxRetries == job.maxRetries
               && (outcome.Success? <==> t'.status.Completed?)
               && (outcome.Failure? && t.attempt > t.maxRetries <==> t'.status.Failed?)
               && (outcome.Failure? && t.attempt <= t.maxRetries <==> t'.status.Pending?)
               && (t'.status.Pending? ==> t'.nextRunAt == now + RetryDelay(s.queues[w.queue].backoffMs, t.attempt))
               && (!t'.status.Pending? ==> t'.nextRunAt == t.nextRunAt)
               && t' == t.(status := t'.status, nextRunAt := t'.nextRunAt, updatedAt := now)
               && forall other :: other in s.tasks && other != job.task ==> s'.tasks[other] == s.tasks[other]
  {
    hide RetryDelay;
    InvariantsAreWellDefined(s, Finish(w, now, true));
    assert Owns(s.tasks, w, s.workers[w].job);
  }

  /** The callback of an attempt at the task returned with this outcome. */
  predicate Returned(s: State, e: Event, job: Job, outcome: Outcome) {
    && e.Return? && e.outcome == outcome
    && e.w in s.workers && s.workers[e.w].Executing? && s.workers[e.w].job == job
  }

  ghost predicate HasReturned(states: seq<State>, events: seq<Event>, n: nat, job: Job, outcome: Outcome)
    requires n <= |events| < |states|
  {
    exists i :: 0 <= i < n && Returned(states[i], events[i], job, outcome)
  }

  lemma FinishesWhatReturned(s: State, e: Event, w: WorkerId)
    requires Enabled(s, e) && WellDefined(s, e) && w in NewWorkers(s, e) && NewWorkers(s, e)[w].Finishing?
    ensures var phase := NewWorkers(s, e)[w];
            (w in s.workers && s.workers[w] == phase) || Returned(s, e, phase.job, phase.outcome)
  {
    hide Granted;
  }

  lemma {:induction false} FinishingHasReturned(states: seq<State>, events: seq<Event>, n: nat, w: WorkerId)
    requires IsRun(states, events) && n < |states| && w in states[n].workers && states[n].workers[w].Finishing?
    ensures HasReturned(states, events, n, states[n].workers[w].job, states[n].workers[w].outcome)
  {
    hide Apply, Enabled, WellDefined, QueuesValid, Ownership, Returned;
    if n > 0 {
      RunStep(states, events, n - 1);
      ApplyFields(states[n - 1], events[n - 1]);
      FinishesWhatReturned(states[n - 1], events[n - 1], w);
      if w in states[n - 1].workers && states[n - 1].workers[w] == states[n].workers[w] {
        FinishingHasReturned(states, events, n - 1, w);
      }
    }
  }

  /** A row is completed or failed by the write of its worker, and in no other way. */
  lemma EndedBefore(s: State, e: Event, id: string)
    requires Ownership(s) && QueuesValid(s) && Enabled(s, e) && WellDefined(s, e)
    requires id in NewTasks(s, e) && (NewTasks(s, e)[id].status.Completed? || NewTasks(s, e)[id].status.Failed?)
    ensures (id in s.tasks && s.tasks[id] == NewTasks(s, e)[id])
            || (e.Finish? && e.ok && s.workers[e.w].job == Job(id, NewTasks(s, e)[id].attempt, NewTasks(s, e)[id].maxRetries)
                && (s.workers[e.w].outcome.Success? <==> NewTasks(s, e)[id].status.Completed?))
  {
    hide Granted, RetryWait;
    if e.Finish? && e.ok {
      assert Owns(s.tasks, e.w, s.workers[e.w].job);
    }
  }

  /**
   How a task came to its end: one that is completed had a callback that returned success in
   the attempt it is in, one that has failed had one that returned an error in an attempt
   beyond its last retry.
   */
  lemma {:induction false} EndedTasksHaveReturned(states: seq<State>, events: seq<Event>, n: nat, id: string)
    requires IsRun(states, events) && n < |states| && id in states[n].tasks
    ensures var t := states[n].tasks[id];
            var job := Job(id, t.attempt, t.maxRetries);
            && (t.status.Completed? ==> HasReturned(states, events, n, job, Success))
            && (t.status.Failed? ==> HasReturned(states, events, n, job, Failure))
  {
    hide Apply, Enabled, WellDefined, QueuesValid, Ownership, Returned;
    var t := states[n].tasks[id];
    if n > 0 && (t.status.Completed? || t.status.Failed?) {
      var s, e := states[n - 1], events[n - 1];
      RunsAreValid(states, events, n - 1);
      RunStep(states, events, n - 1);
      ApplyFields(s, e);
      EndedBefore(s, e, id);
      if id in s.tasks && s.tasks[id] == t {
        EndedTasksHaveReturned(states, events, n - 1, id);
      } else {
        FinishIsByFinishing(s, e);
        FinishingHasReturned(states, events, n - 1, e.w);
      }
    }
  }

  lemma FinishIsByFinishing(s: State, e: Event)
    requires Enabled(s, e) && e.Finish?
    ensures e.w in s.workers && s.workers[e.w].Finishing?
  {
  }
}
