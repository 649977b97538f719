/**
 No lost wakeup: workers sleep on a one-slot channel whose sends are dropped when it is
 full, yet a task that is due never waits while nothing is going to look for it.
 */
module TaskQueueWakeup {
  import opened Backoff
  import opened TaskQueueModel
  import opened TaskQueueOwnership
  import H = TaskQueueHistory

  /** A worker in this phase will still run a dequeue that sees a task due at `at`. */
  predicate WillPoll(phase: Phase, at: int) {
    || phase.Draining? || phase.Waiting? || phase.Executing? || phase.Finishing? || phase.Arming?
    || (phase.Polling? && at <= phase.now)
  }

  ghost predicate PollerExists(workers: map<WorkerId, Phase>, name: string, at: int) {
    exists w :: w in workers && w.queue == name && WillPoll(workers[w], at)
  }

  /** How much time may pass between computing the time of a retry and starting its timer. */
  datatype Lag = Unlimited | AtMost(ms: int)

  /** A timer for a task due at `at` never fires early, and at most the lag late. */
  predicate InTime(fireAt: int, at: int, lag: Lag) {
    fireAt >= at && (lag.AtMost? ==> fireAt <= at + lag.ms)
  }

  ghost predicate TimerExists(timers: multiset<Timer>, name: string, id: string, at: int, lag: Lag) {
    exists timer :: timer in timers && timer.queue == name && timer.task == id && InTime(timer.fireAt, at, lag)
  }

  predicate WillArm(phase: Phase, id: string, clock: int, at: int, lag: Lag) {
    phase.Arming? && phase.task == id && InTime(clock + phase.backoff, at, lag)
  }

  ghost predicate AboutToArm(workers: map<WorkerId, Phase>, name: string, id: string, clock: int, at: int, lag: Lag) {
    exists w :: w in workers && w.queue == name && WillArm(workers[w], id, clock, at, lag)
  }

  /** No worker that has written a retry is behind by more than the lag in starting its timer. */
  ghost predicate Prompt(s: State, lag: Lag) {
    lag.AtMost? ==>
      forall w :: w in s.workers && s.workers[w].Arming? && s.workers[w].task in s.tasks && s.tasks[s.workers[w].task].status.Pending? ==>
        s.clock - (s.tasks[s.workers[w].task].nextRunAt - s.workers[w].backoff) <= lag.ms
  }

  /** Something is on its way that makes a worker look for the task, which is due. */
  ghost predicate Covered(s: State, id: string, t: Task, lag: Lag) {
    || t.queue in s.signals
    || t.queue in s.notifying
    || PollerExists(s.workers, t.queue, t.nextRunAt)
    || TimerExists(s.timers, t.queue, id, t.nextRunAt, lag)
  }

  /** The task is not yet due: its timer is set, or is the next thing its worker will set. */
  ghost predicate Scheduled(s: State, id: string, t: Task, lag: Lag) {
    || TimerExists(s.timers, t.queue, id, t.nextRunAt, lag)
    || AboutToArm(s.workers, t.queue, id, s.clock, t.nextRunAt, lag)
  }

  ghost predicate Attended(s: State, id: string, t: Task, lag: Lag) {
    if t.nextRunAt <= s.clock then Covered(s, id, t, lag) else Scheduled(s, id, t, lag)
  }

  /** A pending task of a queue that exists; tasks inherited with a future date are the exception. */
  predicate Expected(tasks: Tasks, queues: map<string, QueueConfig>, late: set<string>, id: string) {
    id in tasks && tasks[id].status.Pending? && tasks[id].queue in queues && id !in late
  }

  ghost predicate Awake(s: State, lag: Lag) {
    && (forall w :: w in s.workers && s.workers[w].Reverting? ==> s.cancelled)
    && (!s.cancelled && !s.history.pollFailed ==>
          forall id :: Expected(s.tasks, s.queues, s.history.late, id) ==> Attended(s, id, s.tasks[id], lag))
  }

  /** Steps of a process that is not shutting down and has had no failed dequeue. */
  ghost predicate Healthy(s: State, e: Event) {
    && Enabled(s, e) && WellDefined(s, e)
    && !s.cancelled && !e.Shutdown? && !e.Restart?
    && !e.DequeueError? && !(e.Dequeue? && e.lost) && !e.Revert?
  }

  // ----- A task that was attended stays attended -----

  lemma PendingRowKept(s: State, e: Event, id: string)
    requires Healthy(s, e) && Ownership(s)
    requires Expected(s.tasks, s.queues, s.history.late, id)
    requires Expected(NewTasks(s, e), NewQueues(s, e), NewLate(s, e), id)
    ensures NewTasks(s, e)[id] == s.tasks[id]
  {
    hide Granted;
    if e.Finish? {
      assert Owns(s.tasks, e.w, s.workers[e.w].job);
    }
  }

  lemma SignalKept(s: State, e: Event, name: string)
    requires Healthy(s, e) && name in s.signals
    ensures || name in NewSignals(s, e)
            || (e.Wake? && e.w.queue == name && e.w in NewWorkers(s, e) && NewWorkers(s, e)[e.w].Draining?)
  {
    hide Granted;
  }

  lemma NotifyingKept(s: State, e: Event, name: string)
    requires Healthy(s, e) && name in s.notifying
    ensures name in NewNotifying(s, e) || name in NewSignals(s, e)
  {
  }

  lemma TimerKept(s: State, e: Event, timer: Timer)
    requires Healthy(s, e) && timer in s.timers
    ensures timer in NewTimers(s, e) || (timer.queue in NewSignals(s, e) && timer.fireAt <= s.clock)
  {
  }

  /** A worker that would see the due task does not stop looking before it has polled for it. */
  lemma PollerKept(s: State, e: Event, id: string, w: WorkerId)
    requires Healthy(s, e) && id in s.tasks && s.tasks[id].status.Pending?
    requires s.tasks[id].nextRunAt <= s.clock
    requires w in s.workers && w.queue == s.tasks[id].queue && WillPoll(s.workers[w], s.tasks[id].nextRunAt)
    ensures w in NewWorkers(s, e) && WillPoll(NewWorkers(s, e)[w], s.tasks[id].nextRunAt)
  {
    hide Granted;
    var sees := s.workers[w].Polling? && Eligible(s.tasks, w.queue, s.workers[w].now, id);
  }

  lemma ArmingStays(s: State, e: Event, w: WorkerId)
    requires Enabled(s, e) && WellDefined(s, e) && QueuesValid(s) && w in s.workers && s.workers[w].Arming?
    requires e != Arm(w) && !e.Restart?
    ensures w in NewWorkers(s, e) && NewWorkers(s, e)[w] == s.workers[w]
  {
    hide Granted, NextPhase;
  }

  lemma ArmingKept(s: State, e: Event, w: WorkerId)
    requires Healthy(s, e) && QueuesValid(s) && w in s.workers && s.workers[w].Arming?
    ensures if e == Arm(w) then Timer(w.queue, s.workers[w].task, s.clock + s.workers[w].backoff) in NewTimers(s, e)
            else w in NewWorkers(s, e) && NewWorkers(s, e)[w] == s.workers[w]
  {
    hide Granted, NextPhase, NewWorkers, QueuesValid;
    if e != Arm(w) {
      ArmingStays(s, e, w);
    }
  }

  lemma CoveredStep(s: State, e: Event, id: string, lag: Lag)
    requires Healthy(s, e) && id in s.tasks && s.tasks[id].status.Pending?
    requires s.tasks[id].nextRunAt <= s.clock && Covered(s, id, s.tasks[id], lag)
    ensures Covered(Apply(s, e), id, s.tasks[id], lag)
  {
    hide Apply, NewWorkers, NewSignals, NewTimers, NewNotifying, Enabled;
    var t := s.tasks[id];
    ApplyHealthy(s, e);
    if t.queue in s.signals {
      SignalKept(s, e, t.queue);
    } else if t.queue in s.notifying {
      NotifyingKept(s, e, t.queue);
    } else if PollerExists(s.workers, t.queue, t.nextRunAt) {
      var w :| w in s.workers && w.queue == t.queue && WillPoll(s.workers[w], t.nextRunAt);
      PollerKept(s, e, id, w);
    } else {
      var timer :| timer in s.timers && timer.queue == t.queue && timer.task == id && InTime(timer.fireAt, t.nextRunAt, lag);
      TimerKept(s, e, timer);
    }
  }

  lemma ApplyHealthy(s: State, e: Event)
    requires Healthy(s, e)
    ensures var s' := Apply(s, e);
            && s'.workers == NewWorkers(s, e) && s'.tasks == NewTasks(s, e) && s'.signals == NewSignals(s, e)
            && s'.notifying == NewNotifying(s, e) && s'.timers == NewTimers(s, e)
            && s'.clock >= s.clock && (s'.clock == s.clock || e.Tick?)
  {
    ApplyFields(s, e);
    hide Apply, NewWorkers, NewSignals, NewTimers, NewNotifying;
  }

  lemma ScheduledStep(s: State, e: Event, id: string, t: Task, lag: Lag)
    requires Healthy(s, e) && QueuesValid(s) && t.nextRunAt > s.clock && Scheduled(s, id, t, lag)
    requires id in NewTasks(s, e) && NewTasks(s, e)[id] == t && t.status.Pending? && Prompt(Apply(s, e), lag)
    ensures Scheduled(Apply(s, e), id, t, lag)
  {
    hide Apply, NewWorkers, NewSignals, NewTimers, NewNotifying, Enabled;
    ApplyHealthy(s, e);
    if TimerExists(s.timers, t.queue, id, t.nextRunAt, lag) {
      var timer :| timer in s.timers && timer.queue == t.queue && timer.task == id && InTime(timer.fireAt, t.nextRunAt, lag);
      TimerKept(s, e, timer);
    } else {
      var w :| w in s.workers && w.queue == t.queue && WillArm(s.workers[w], id, s.clock, t.nextRunAt, lag);
      ArmingKept(s, e, w);
      if e == Arm(w) {
        assert TimerExists(Apply(s, e).timers, t.queue, id, t.nextRunAt, lag);
      } else {
        assert WillArm(Apply(s, e).workers[w], id, Apply(s, e).clock, t.nextRunAt, lag);
      }
    }
  }

  /** Once its time has come, what was scheduled for a task counts as covering it. */
  lemma ScheduledCovers(s: State, id: string, t: Task, lag: Lag)
    requires Scheduled(s, id, t, lag)
    ensures Covered(s, id, t, lag)
  {
    if AboutToArm(s.workers, t.queue, id, s.clock, t.nextRunAt, lag) {
      var w :| w in s.workers && w.queue == t.queue && WillArm(s.workers[w], id, s.clock, t.nextRunAt, lag);
      assert WillPoll(s.workers[w], t.nextRunAt);
    }
  }

  // ----- A task that becomes expected is attended from the start -----

  lemma NewlyExpected(s: State, e: Event, id: string)
    requires Healthy(s, e) && Ownership(s)
    requires !Expected(s.tasks, s.queues, s.history.late, id)
    requires Expected(NewTasks(s, e), NewQueues(s, e), NewLate(s, e), id)
    ensures || (e.Insert? && e.id == id)
            || (e.CreateQueue? && NewTasks(s, e)[id].queue == e.name && NewTasks(s, e)[id].nextRunAt <= s.clock)
            || (e.Finish? && s.workers[e.w].job.task == id && Retries(s.workers[e.w]) && e.ok)
  {
    hide Granted;
  }

  lemma InsertAttended(s: State, e: Event)
    requires Healthy(s, e) && e.Insert?
    ensures NewTasks(s, e)[e.id].nextRunAt <= s.clock && NewTasks(s, e)[e.id].queue in NewNotifying(s, e)
  {
  }

  lemma NewQueueAttended(s: State, e: Event, at: int)
    requires Healthy(s, e) && QueuesValid(s) && e.CreateQueue?
    ensures PollerExists(NewWorkers(s, e), e.name, at)
  {
    GrantedFits(s, e);
    hide Granted, Enabled;
    var w := WorkerId(e.name, 0);
    assert w in NewWorkers(s, e) && NewWorkers(s, e)[w] == Draining;
  }

  lemma RetryAttended(s: State, e: Event, lag: Lag)
    requires Healthy(s, e) && Ownership(s) && e.Finish? && Retries(s.workers[e.w]) && e.ok && Prompt(Apply(s, e), lag)
    ensures var id := s.workers[e.w].job.task;
            && id in NewTasks(s, e) && NewTasks(s, e)[id].queue == e.w.queue
            && e.w in NewWorkers(s, e)
            && WillArm(NewWorkers(s, e)[e.w], id, s.clock, NewTasks(s, e)[id].nextRunAt, lag)
  {
    assert Owns(s.tasks, e.w, s.workers[e.w].job);
  }

  lemma NewlyExpectedAttended(s: State, e: Event, id: string, lag: Lag)
    requires Healthy(s, e) && QueuesValid(s) && Ownership(s) && Prompt(Apply(s, e), lag)
    requires !Expected(s.tasks, s.queues, s.history.late, id)
    requires Expected(NewTasks(s, e), NewQueues(s, e), NewLate(s, e), id)
    ensures Attended(Apply(s, e), id, NewTasks(s, e)[id], lag)
  {
    hide Apply, NewWorkers, NewTasks, NewSignals, NewTimers, NewNotifying, Enabled;
    ApplyHealthy(s, e);
    NewlyExpected(s, e, id);
    var t := Apply(s, e).tasks[id];
    if e.Insert? {
      InsertAttended(s, e);
    } else if e.CreateQueue? {
      NewQueueAttended(s, e, t.nextRunAt);
    } else {
      RetryAttended(s, e, lag);
      assert AboutToArm(Apply(s, e).workers, t.queue, id, Apply(s, e).clock, t.nextRunAt, lag);
      ScheduledCovers(Apply(s, e), id, t, lag);
    }
  }

  // ----- All runs -----

  lemma RevertingOnlyAfterShutdown(s: State, e: Event, w: WorkerId)
    requires Enabled(s, e) && WellDefined(s, e)
    requires forall v :: v in s.workers && s.workers[v].Reverting? ==> s.cancelled
    requires w in NewWorkers(s, e) && NewWorkers(s, e)[w].Reverting?
    ensures s.cancelled && !e.Restart?
  {
    hide Granted;
  }

  lemma AwakeStep(s: State, e: Event, lag: Lag)
    requires QueuesValid(s) && Ownership(s) && Awake(s, lag) && Enabled(s, e) && WellDefined(s, e)
    requires Prompt(Apply(s, e), lag)
    ensures Awake(Apply(s, e), lag)
  {
    hide Apply, NewWorkers, NewTasks, NewQueues, NewLate, NewHistory, Attended, Covered, Scheduled;
    var s' := Apply(s, e);
    ApplyFields(s, e);
    forall w | w in s'.workers && s'.workers[w].Reverting?
      ensures s'.cancelled
    {
      RevertingOnlyAfterShutdown(s, e, w);
    }
    if !s'.cancelled && !s'.history.pollFailed {
      forall id | Expected(s'.tasks, s'.queues, s'.history.late, id)
        ensures Attended(s', id, s'.tasks[id], lag)
      {
        if e.Restart? {
          RestartForgetsQueues(s, e);
        } else {
          AttendedStep(s, e, id, lag);
        }
      }
    }
  }

  lemma RestartForgetsQueues(s: State, e: Event)
    requires e.Restart?
    ensures NewQueues(s, e) == map[]
  {
  }

  lemma AttendedStep(s: State, e: Event, id: string, lag: Lag)
    requires QueuesValid(s) && Ownership(s) && Healthy(s, e) && Prompt(Apply(s, e), lag)
    requires Expected(s.tasks, s.queues, s.history.late, id) ==> Attended(s, id, s.tasks[id], lag)
    requires Expected(NewTasks(s, e), NewQueues(s, e), NewLate(s, e), id)
    ensures Attended(Apply(s, e), id, NewTasks(s, e)[id], lag)
  {
    hide Apply, NewTasks, NewQueues, NewLate, Covered, Scheduled, Enabled;
    if !Expected(s.tasks, s.queues, s.history.late, id) {
      NewlyExpectedAttended(s, e, id, lag);
    } else {
      PendingRowKept(s, e, id);
      ApplyHealthy(s, e);
      var t := s.tasks[id];
      if t.nextRunAt <= s.clock {
        CoveredStep(s, e, id, lag);
      } else {
        ScheduledStep(s, e, id, t, lag);
        ScheduledCovers(Apply(s, e), id, t, lag);
      }
    }
  }

  lemma {:induction false} RunsAreAwake(states: seq<State>, events: seq<Event>, n: nat, lag: Lag)
    requires IsRun(states, events) && n < |states| && forall k :: 0 <= k <= n ==> Prompt(states[k], lag)
    ensures Awake(states[n], lag)
  {
    hide Apply, Enabled, WellDefined, QueuesValid, Ownership, Prompt;
    if n > 0 {
      RunsAreAwake(states, events, n - 1, lag);
      hide Awake;
      RunsAreValid(states, events, n - 1);
      RunStep(states, events, n - 1);
      AwakeStep(states[n - 1], events[n - 1], lag);
    }
  }

  lemma DueIsCovered(states: seq<State>, events: seq<Event>, n: nat, id: string, lag: Lag)
    requires IsRun(states, events) && n < |states| && forall k :: 0 <= k <= n ==> Prompt(states[k], lag)
    requires var s := states[n];
             && !s.cancelled && !s.history.pollFailed
             && id in s.tasks && s.tasks[id].status.Pending? && s.tasks[id].nextRunAt <= s.clock
             && s.tasks[id].queue in s.queues && id !in s.history.late
    ensures Covered(states[n], id, states[n].tasks[id], lag)
  {
    hide IsRun, Covered, Scheduled;
    RunsAreAwake(states, events, n, lag);
    assert Expected(states[n].tasks, states[n].queues, states[n].history.late, id);
    assert Attended(states[n], id, states[n].tasks[id], lag);
  }

  /**
   In every run of a process that is not shutting down and whose dequeues have not failed:
   a task that is pending and due in an existing queue has its queue's signal slot full, or
   an Enqueue about to fill it, or a worker that will poll for it, or its own retry timer
   still set. The only exception is a task inherited with a date in the future.
   */
  lemma NoLostWakeup(states: seq<State>, events: seq<Event>, n: nat, id: string)
    requires IsRun(states, events) && n < |states|
    requires var s := states[n];
             && !s.cancelled && !H.Holds(states, events, n, H.PollFailed)
             && id in s.tasks && s.tasks[id].status.Pending? && s.tasks[id].nextRunAt <= s.clock
             && s.tasks[id].queue in s.queues && !H.Holds(states, events, n, H.Inherited(id))
    ensures var s, q := states[n], states[n].tasks[id].queue;
            || q in s.signals
            || q in s.notifying
            || PollerExists(s.workers, q, s.tasks[id].nextRunAt)
            || TimerExists(s.timers, q, id, s.tasks[id].nextRunAt, Unlimited)
  {
    H.MarksHold(states, events, n, H.PollFailed);
    H.MarksHold(states, events, n, H.Inherited(id));
    hide H.Holds, IsRun;
    DueIsCovered(states, events, n, id, Unlimited);
  }

  /**
   When all of a queue's workers sleep and nothing is about to wake them, a task of the queue
   can still be due: its timer was started from a later reading of the clock than its time
   was computed from. Such a task has been due for less than the lag between the two, so
   nothing is due when there is no lag.
   */
  lemma SleepingQueueIsLateBy(states: seq<State>, events: seq<Event>, n: nat, name: string, id: string, lag: int)
    requires IsRun(states, events) && n < |states| && forall k :: 0 <= k <= n ==> Prompt(states[k], AtMost(lag))
    requires !states[n].cancelled && !H.Holds(states, events, n, H.PollFailed) && name in states[n].queues
    requires forall w :: w in states[n].workers && w.queue == name ==> states[n].workers[w].Idle?
    requires name !in states[n].signals && name !in states[n].notifying
    requires forall timer :: timer in states[n].timers ==> timer.queue != name || timer.fireAt > states[n].clock
    requires Eligible(states[n].tasks, name, states[n].clock, id) && !H.Holds(states, events, n, H.Inherited(id))
    ensures states[n].clock - states[n].tasks[id].nextRunAt < lag
    ensures TimerExists(states[n].timers, name, id, states[n].tasks[id].nextRunAt, AtMost(lag))
  {
    H.MarksHold(states, events, n, H.PollFailed);
    H.MarksHold(states, events, n, H.Inherited(id));
    hide H.Holds, IsRun;
    DueIsCovered(states, events, n, id, AtMost(lag));
    assert !PollerExists(states[n].workers, name, states[n].tasks[id].nextRunAt);
  }

  // ----- The lag -----

  lemma RetryIsWritten(s: State, w: WorkerId, now: int)
    requires Enabled(s, Finish(w, now, true)) && WellDefined(s, Finish(w, now, true)) && Ownership(s) && Retries(s.workers[w])
    ensures var e, id := Finish(w, now, true), s.workers[w].job.task;
            && id in NewTasks(s, e) && w in NewWorkers(s, e) && NewWorkers(s, e)[w].Arming? && NewWorkers(s, e)[w].task == id
            && NewTasks(s, e)[id].nextRunAt == now + NewWorkers(s, e)[w].backoff
  {
    assert Owns(s.tasks, w, s.workers[w].job);
  }

  lemma {:induction false} ArmingLasts(states: seq<State>, events: seq<Event>, f: nat, a: nat, w: WorkerId)
    requires IsRun(states, events) && f <= a < |events|
    requires w in states[f].workers && states[f].workers[w].Arming?
    requires forall k :: f <= k < a ==> events[k] != Arm(w) && !events[k].Restart?
    ensures w in states[a].workers && states[a].workers[w] == states[f].workers[w]
  {
    hide Apply, Enabled, WellDefined, QueuesValid, Ownership;
    if f < a {
      ArmingLasts(states, events, f, a - 1, w);
      RunsAreValid(states, events, a - 1);
      RunStep(states, events, a - 1);
      ApplyFields(states[a - 1], events[a - 1]);
      ArmingStays(states[a - 1], events[a - 1], w);
    }
  }

  /** The timer of a retry fires later than the retry is due by exactly the time it took to start it. */
  lemma RetryTimerLag(states: seq<State>, events: seq<Event>, f: nat, a: nat, w: WorkerId, now: int)
    requires IsRun(states, events) && f < a < |events|
    requires events[f] == Finish(w, now, true) && events[a] == Arm(w)
    requires w in states[f].workers && Retries(states[f].workers[w])
    requires forall k :: f < k < a ==> events[k] != Arm(w) && !events[k].Restart?
    ensures var id := states[f].workers[w].job.task;
            && id in states[f + 1].tasks
            && Timer(w.queue, id, states[f + 1].tasks[id].nextRunAt + (states[a].clock - now)) in states[a + 1].timers
  {
    hide Apply, Enabled, WellDefined, QueuesValid, Ownership;
    RunsAreValid(states, events, f);
    RunStep(states, events, f);
    ApplyFields(states[f], events[f]);
    RetryIsWritten(states[f], w, now);
    ArmingLasts(states, events, f + 1, a, w);
    RunsAreValid(states, events, a);
    RunStep(states, events, a);
    ApplyFields(states[a], events[a]);
  }
}
