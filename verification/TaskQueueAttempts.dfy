/**
 Attempt accounting: how often a task can be tried, and how often its callback can run,
 in any run with any number of crashes, shutdowns and restarts.
 */
module TaskQueueAttempts {
  import opened TaskQueueModel
  import opened TaskQueueOwnership
  import opened TaskQueueHistory

  /** The attempts a task is entitled to: the first one and its retries. */
  function Entitled(t: Task): int {
    Max(t.maxRetries, 0) + 1
  }

  ghost predicate RowAccounted(t: Task, resets: nat, reverts: nat, starts: nat) {
    && 0 <= t.attempt
    && (t.status.Pending? ==> t.attempt <= Entitled(t) - 1 + resets)
    && (t.status.Running? ==> 1 <= t.attempt <= Entitled(t) + resets)
    && (t.status.Terminal() ==> t.attempt <= Entitled(t) + resets)
    && (t.status.Failed? ==> t.attempt > t.maxRetries)
    && starts <= t.attempt + reverts
  }

  ghost predicate Accounts(tasks: Tasks, h: History, id: string)
    requires id in tasks
  {
    RowAccounted(tasks[id], Count(h.resets, id), Count(h.reverts, id), Count(h.starts, id))
  }

  /** The latest dequeue of the task has not yet led to a callback. */
  ghost predicate StartDue(tasks: Tasks, h: History, id: string)
    requires id in tasks
  {
    Count(h.starts, id) + 1 <= tasks[id].attempt + Count(h.reverts, id)
  }

  ghost predicate Accounted(s: State) {
    && (forall id :: id in s.tasks ==> Accounts(s.tasks, s.history, id))
    && (forall w :: w in s.workers && s.workers[w].Waiting? && s.workers[w].job.task in s.tasks ==>
          StartDue(s.tasks, s.history, s.workers[w].job.task))
    && s.history.starts.Keys <= s.history.issued
  }

  /** A worker finishes only what it owns, and starts only what it has just dequeued. */
  ghost predicate ActsOnOwn(s: State, e: Event, id: string)
    requires id in s.tasks && Enabled(s, e)
  {
    && (e.Finish? && e.ok && s.workers[e.w].job.task == id ==> Owns(s.tasks, e.w, s.workers[e.w].job))
    && (e.Start? && s.workers[e.w].job.task == id ==> StartDue(s.tasks, s.history, id))
  }

  lemma OwnAction(s: State, e: Event, id: string)
    requires Ownership(s) && Accounted(s) && Enabled(s, e) && id in s.tasks
    ensures ActsOnOwn(s, e, id)
  {
  }

  lemma AttemptRowAccounted(s: State, e: Event, id: string)
    requires Enabled(s, e) && WellDefined(s, e) && id in s.tasks
    requires Accounts(s.tasks, s.history, id) && ActsOnOwn(s, e, id)
    requires e.Finish? || e.Revert? || e.Dequeue?
    ensures id in NewTasks(s, e) && Accounts(NewTasks(s, e), NewHistory(s, e), id)
  {
    hide NewLate;
  }

  lemma ResetRowAccounted(s: State, e: Event, id: string)
    requires Enabled(s, e) && WellDefined(s, e) && id in s.tasks
    requires Accounts(s.tasks, s.history, id)
    requires e.CreateQueue? || e.CloseReset?
    ensures id in NewTasks(s, e) && Accounts(NewTasks(s, e), NewHistory(s, e), id)
  {
    hide NewLate, Granted, Allocated;
  }

  lemma OtherRowAccounted(s: State, e: Event, id: string)
    requires Enabled(s, e) && WellDefined(s, e) && id in s.tasks && id in NewTasks(s, e)
    requires Accounts(s.tasks, s.history, id) && ActsOnOwn(s, e, id) && id in s.history.issued
    requires !(e.Finish? || e.Revert? || e.Dequeue? || e.CreateQueue? || e.CloseReset?)
    ensures Accounts(NewTasks(s, e), NewHistory(s, e), id)
  {
    hide NewLate, Granted, Allocated;
  }

  lemma NewRowAccounted(s: State, e: Event, id: string)
    requires Enabled(s, e) && WellDefined(s, e) && id !in s.tasks && id in NewTasks(s, e)
    requires s.history.starts.Keys <= s.history.issued
    ensures Accounts(NewTasks(s, e), NewHistory(s, e), id)
  {
    hide NewLate;
    assert e.Insert? && e.id == id;
    assert id !in s.history.starts;
  }

  lemma RowStaysAccounted(s: State, e: Event, id: string)
    requires Ownership(s) && Accounted(s) && Enabled(s, e) && WellDefined(s, e) && id in NewTasks(s, e)
    ensures Accounts(NewTasks(s, e), NewHistory(s, e), id)
  {
    hide NewTasks, NewHistory, Enabled;
    if id !in s.tasks {
      NewRowAccounted(s, e, id);
    } else {
      OwnAction(s, e, id);
      if e.Finish? || e.Revert? || e.Dequeue? {
        AttemptRowAccounted(s, e, id);
      } else if e.CreateQueue? || e.CloseReset? {
        ResetRowAccounted(s, e, id);
      } else {
        OtherRowAccounted(s, e, id);
      }
    }
  }

  lemma WaitsOnlyAfterDequeue(s: State, e: Event, w: WorkerId)
    requires Enabled(s, e) && WellDefined(s, e)
    requires w in NewWorkers(s, e) && NewWorkers(s, e)[w].Waiting? && !(e.Dequeue? && e.w == w)
    ensures w in s.workers && s.workers[w] == NewWorkers(s, e)[w]
    ensures ByWorker(e) ==> e.w != w
  {
    hide Granted, Allocated;
  }

  lemma DequeueMakesStartDue(s: State, e: Event)
    requires Enabled(s, e) && WellDefined(s, e) && e.Dequeue?
    requires Accounts(s.tasks, s.history, e.id)
    ensures e.id in NewTasks(s, e) && StartDue(NewTasks(s, e), NewHistory(s, e), e.id)
  {
    hide NewLate;
  }

  lemma StartStaysDueAt(s: State, e: Event, id: string)
    requires Enabled(s, e) && WellDefined(s, e) && id in s.tasks && id in NewTasks(s, e)
    requires StartDue(s.tasks, s.history, id) && id in s.history.issued
    requires e.Finish? || e.Revert? || e.Start? ==> s.workers[e.w].job.task != id
    ensures StartDue(NewTasks(s, e), NewHistory(s, e), id)
  {
    hide NewLate, Granted, Allocated;
  }

  lemma StartStaysDue(s: State, e: Event, w: WorkerId)
    requires Ownership(s) && Accounted(s) && Enabled(s, e) && WellDefined(s, e)
    requires w in NewWorkers(s, e) && NewWorkers(s, e)[w].Waiting?
    requires NewWorkers(s, e)[w].job.task in NewTasks(s, e)
    ensures StartDue(NewTasks(s, e), NewHistory(s, e), NewWorkers(s, e)[w].job.task)
  {
    hide NewTasks, NewHistory, NewWorkers;
    var id := NewWorkers(s, e)[w].job.task;
    HeldBefore(s, e, w);
    if e.Dequeue? && e.w == w {
      DequeueMakesStartDue(s, e);
    } else {
      WaitsOnlyAfterDequeue(s, e, w);
      TableStep(s, e);
      assert HeldBy(s.workers, w, id);
      if e.Finish? || e.Revert? || e.Start? {
        assert HeldBy(s.workers, e.w, s.workers[e.w].job.task);
      }
      NewTasksAreNew(s, e, id);
      StartStaysDueAt(s, e, id);
    }
  }

  lemma NewTasksAreNew(s: State, e: Event, id: string)
    requires Enabled(s, e) && WellDefined(s, e) && id in s.history.issued && id in NewTasks(s, e)
    ensures id in s.tasks
  {
  }

  lemma AccountingStep(s: State, e: Event)
    requires Ownership(s) && Accounted(s) && Enabled(s, e) && WellDefined(s, e)
    ensures Accounted(Apply(s, e))
  {
    hide Apply, NewTasks, NewWorkers, Enabled, Accounts, StartDue;
    var s' := Apply(s, e);
    ApplyFields(s, e);
    forall id | id in s'.tasks
      ensures Accounts(s'.tasks, s'.history, id)
    {
      RowStaysAccounted(s, e, id);
    }
    forall w | w in s'.workers && s'.workers[w].Waiting? && s'.workers[w].job.task in s'.tasks
      ensures StartDue(s'.tasks, s'.history, s'.workers[w].job.task)
    {
      StartStaysDue(s, e, w);
    }
    StartsAreIssued(s, e);
  }

  lemma StartsAreIssued(s: State, e: Event)
    requires Ownership(s) && Accounted(s) && Enabled(s, e) && WellDefined(s, e)
    ensures NewHistory(s, e).starts.Keys <= NewHistory(s, e).issued
  {
    hide NewLate;
    assert e.Start? ==> s.workers[e.w].Holds();
  }

  lemma {:induction false} RunsAreAccounted(states: seq<State>, events: seq<Event>, n: nat)
    requires IsRun(states, events) && n < |states|
    ensures Accounted(states[n])
  {
    hide Apply, Enabled, WellDefined, QueuesValid, Ownership;
    if n > 0 {
      RunsAreAccounted(states, events, n - 1);
      RunsAreValid(states, events, n - 1);
      RunStep(states, events, n - 1);
      AccountingStep(states[n - 1], events[n - 1]);
    }
  }

  /**
   In every run: a running task is in an attempt it is entitled to, up to the resets that
   kept its count; it fails only once its retries are used up; and its callback has been
   started at most once per entitled attempt, per such reset, and per attempt that a
   shutdown took back.
   */
  lemma AttemptsInEveryRun(states: seq<State>, events: seq<Event>, n: nat, id: string)
    requires IsRun(states, events) && n < |states| && id in states[n].tasks
    ensures var t, resets := states[n].tasks[id], Tally(states, events, n, KeepingReset, id);
            && (t.status.Running? ==> 1 <= t.attempt <= Max(t.maxRetries, 0) + 1 + resets)
            && (t.status.Failed? ==> t.attempt > t.maxRetries)
            && Tally(states, events, n, CallbackStarts, id) <=
                 Max(t.maxRetries, 0) + 1 + resets + Tally(states, events, n, TakingBack, id)
  {
    RunsAreAccounted(states, events, n);
    CountersTally(states, events, n, CallbackStarts, id);
    CountersTally(states, events, n, KeepingReset, id);
    CountersTally(states, events, n, TakingBack, id);
    hide IsRun, Happens;
  }

  /** Events that interrupt work: crashes, restarts and shutdowns. */
  predicate Interrupts(e: Event) {
    e.Restart? || e.Shutdown?
  }

  ghost predicate Undisturbed(s: State) {
    && !s.cancelled
    && (forall w :: w in s.workers ==> !s.workers[w].Reverting?)
    && (forall id :: Count(s.history.reverts, id) == 0)
    && (forall id :: Count(s.history.resets, id) == 0)
    && (forall id :: id in s.tasks ==> s.tasks[id].queue in s.queues)
  }

  lemma NoResetsYet(s: State, e: Event)
    requires Enabled(s, e) && WellDefined(s, e) && !Interrupts(e) && Undisturbed(s)
    ensures forall id :: Count(NewHistory(s, e).resets, id) == 0 && Count(NewHistory(s, e).reverts, id) == 0
  {
    hide NewLate;
    if e.CreateQueue? {
      forall id
        ensures Count(NewHistory(s, e).resets, id) == 0
      {
        assert Count(s.history.resets, id) == 0;
        assert id in s.tasks ==> s.tasks[id].queue != e.name;
      }
    }
  }

  lemma StaysUndisturbed(s: State, e: Event)
    requires Enabled(s, e) && WellDefined(s, e) && !Interrupts(e) && Undisturbed(s)
    ensures forall w :: w in NewWorkers(s, e) ==> !NewWorkers(s, e)[w].Reverting?
  {
    hide Granted;
  }

  lemma QueuesStayKnown(s: State, e: Event, id: string)
    requires Enabled(s, e) && WellDefined(s, e) && !Interrupts(e) && Undisturbed(s)
    requires id in NewTasks(s, e)
    ensures NewTasks(s, e)[id].queue in NewQueues(s, e)
  {
    hide Granted;
  }

  lemma UndisturbedStep(s: State, e: Event)
    requires Enabled(s, e) && WellDefined(s, e) && !Interrupts(e) && Undisturbed(s)
    ensures Undisturbed(Apply(s, e))
  {
    hide Apply, NewWorkers, NewTasks, NewHistory, Enabled;
    var s' := Apply(s, e);
    ApplyFields(s, e);
    NoResetsYet(s, e);
    StaysUndisturbed(s, e);
    forall id | id in s'.tasks
      ensures s'.tasks[id].queue in s'.queues
    {
      QueuesStayKnown(s, e, id);
    }
  }

  lemma {:induction false} UndisturbedRun(states: seq<State>, events: seq<Event>, n: nat)
    requires IsRun(states, events) && n < |states| && !states[0].cancelled
    requires forall i :: 0 <= i < n ==> !Interrupts(events[i])
    ensures Undisturbed(states[n])
  {
    hide Apply, Enabled, WellDefined, QueuesValid, Ownership;
    if n > 0 {
      UndisturbedRun(states, events, n - 1);
      RunsAreValid(states, events, n - 1);
      RunStep(states, events, n - 1);
      UndisturbedStep(states[n - 1], events[n - 1]);
    }
  }

  /** Without crash or shutdown, a callback runs at most once plus once per retry. */
  lemma CallbackRunsAtMost(states: seq<State>, events: seq<Event>, n: nat, id: string)
    requires IsRun(states, events) && n < |states| && id in states[n].tasks && !states[0].cancelled
    requires forall i :: 0 <= i < n ==> !Interrupts(events[i])
    ensures Tally(states, events, n, CallbackStarts, id) <= Max(states[n].tasks[id].maxRetries, 0) + 1
  {
    AttemptsInEveryRun(states, events, n, id);
    UndisturbedRun(states, events, n);
    CountersTally(states, events, n, KeepingReset, id);
    CountersTally(states, events, n, TakingBack, id);
    hide IsRun, Happens;
  }
}
