/**
 Ownership of tasks in every interleaving. The writes that end an attempt name the task
 by id only; they are safe because a task in a worker's hands is running and is in no
 other worker's hands.
 */
module TaskQueueOwnership {
  import opened Backoff
  import opened TaskQueueModel

  ghost predicate Init(s: State) {
    && s.tasks == map[] && s.queues == map[] && s.workers == map[]
    && s.signals == {} && s.notifying == multiset{} && s.timers == multiset{}
    && s.history == History({}, {}, false, false, map[], map[], map[])
  }

  // ----- Workers and queues -----

  ghost predicate QueuesValid(s: State) {
    && (forall w :: w in s.workers <==> w.queue in s.queues && w.index < s.queues[w.queue].concurrency)
    && (forall name :: name in s.queues ==> s.queues[name].concurrency >= 1)
    && Allocated(s.queues) <= Max(s.maxConcurrency, 0)
  }

  // ----- Tasks in workers' hands -----

  predicate HeldBy(workers: map<WorkerId, Phase>, w: WorkerId, id: string) {
    w in workers && workers[w].Holds() && workers[w].job.task == id
  }

  ghost predicate Exclusive(workers: map<WorkerId, Phase>) {
    forall v, w, id :: HeldBy(workers, v, id) && HeldBy(workers, w, id) ==> v == w
  }

  /** The task is running, in the attempt that the worker remembers. */
  predicate Owns(tasks: Tasks, w: WorkerId, job: Job) {
    && job.task in tasks
    && tasks[job.task].status.Running?
    && tasks[job.task].queue == w.queue
    && tasks[job.task].attempt == job.attempt
    && tasks[job.task].maxRetries == job.maxRetries
  }

  /** Until Close resets the table, whoever holds a task owns it. */
  ghost predicate HeldIsOwned(s: State) {
    forall w :: w in s.workers && s.workers[w].Holds() ==>
      && s.workers[w].job.attempt >= 1
      && s.workers[w].job.task in s.history.issued
      && (!s.history.closeReset ==> Owns(s.tasks, w, s.workers[w].job))
  }

  /** After Close has reset the table, nothing is running and nothing can be dequeued. */
  ghost predicate ClosedQuiet(s: State) {
    s.history.closeReset ==> s.cancelled && forall id :: id in s.tasks ==> !s.tasks[id].status.Running?
  }

  ghost predicate TasksValid(s: State) {
    && s.tasks.Keys <= s.history.issued
    && forall id :: id in s.tasks ==> s.tasks[id].attempt >= 0
  }

  ghost predicate Ownership(s: State) {
    Exclusive(s.workers) && HeldIsOwned(s) && ClosedQuiet(s) && TasksValid(s)
  }

  lemma InvariantsAreWellDefined(s: State, e: Event)
    requires QueuesValid(s) && Ownership(s) && Enabled(s, e)
    ensures WellDefined(s, e)
  {
  }

  /** A worker gets hold of a task by dequeuing it, and in no other way. */
  lemma HeldBefore(s: State, e: Event, w: WorkerId)
    requires Enabled(s, e) && WellDefined(s, e)
    requires w in NewWorkers(s, e) && NewWorkers(s, e)[w].Holds()
    ensures if e.Dequeue? && e.w == w then
              && e.id in s.tasks && s.tasks[e.id].status.Pending? && s.tasks[e.id].queue == w.queue
              && NewWorkers(s, e)[w] == Waiting(Job(e.id, s.tasks[e.id].attempt + 1, s.tasks[e.id].maxRetries))
            else
              w in s.workers && s.workers[w].Holds() && s.workers[w].job == NewWorkers(s, e)[w].job
  {
    hide Granted;
  }

  lemma DequeuedIsFree(s: State, e: Event, w: WorkerId)
    requires Ownership(s) && Enabled(s, e) && e.Dequeue?
    ensures !HeldBy(s.workers, w, e.id)
  {
    assert s.tasks[e.id].status.Pending?;
    assert !s.history.closeReset;
  }

  lemma ExclusiveStep(s: State, e: Event)
    requires Ownership(s) && Enabled(s, e) && WellDefined(s, e)
    ensures Exclusive(NewWorkers(s, e))
  {
    forall v, w, id | HeldBy(NewWorkers(s, e), v, id) && HeldBy(NewWorkers(s, e), w, id)
      ensures v == w
    {
      HeldBefore(s, e, v);
      HeldBefore(s, e, w);
      if e.Dequeue? {
        DequeuedIsFree(s, e, v);
        DequeuedIsFree(s, e, w);
      }
      hide NewWorkers, Enabled, NextPhase, Granted;
      var heldV, heldW := HeldBy(s.workers, v, id), HeldBy(s.workers, w, id);
    }
  }

  /**
   What any event does to a row that is running, unless it resets rows or is the act of the
   worker holding it: nothing.
   */
  lemma RunningRowKept(s: State, e: Event, id: string)
    requires Enabled(s, e) && WellDefined(s, e)
    requires id in s.tasks && s.tasks[id].status.Running? && id in s.history.issued
    requires !e.CloseReset? && (e.CreateQueue? ==> s.tasks[id].queue != e.name)
    requires e.Finish? || e.Revert? ==> s.workers[e.w].job.task != id
    ensures id in NewTasks(s, e) && NewTasks(s, e)[id] == s.tasks[id]
  {
  }

  lemma HeldStaysOwned(s: State, e: Event, w: WorkerId)
    requires QueuesValid(s) && Ownership(s) && Enabled(s, e) && WellDefined(s, e)
    requires w in NewWorkers(s, e) && NewWorkers(s, e)[w].Holds()
    requires !s.history.closeReset && !e.CloseReset?
    ensures Owns(NewTasks(s, e), w, NewWorkers(s, e)[w].job)
  {
    HeldBefore(s, e, w);
    if !(e.Dequeue? && e.w == w) {
      var id := s.workers[w].job.task;
      assert HeldBy(s.workers, w, id) && Owns(s.tasks, w, s.workers[w].job);
      if e.Finish? || e.Revert? {
        StopsHolding(s, e);
        assert HeldBy(s.workers, e.w, s.workers[e.w].job.task);
      }
      RunningRowKept(s, e, id);
    }
  }

  lemma StopsHolding(s: State, e: Event)
    requires Enabled(s, e) && WellDefined(s, e) && (e.Finish? || e.Revert?)
    ensures s.workers[e.w].Holds() && !NewWorkers(s, e)[e.w].Holds()
  {
  }

  lemma TableStep(s: State, e: Event)
    requires Ownership(s) && Enabled(s, e) && WellDefined(s, e)
    ensures forall id :: id in NewTasks(s, e) ==> NewTasks(s, e)[id].attempt >= 0
    ensures forall id :: id in NewTasks(s, e) ==> id in s.history.issued || (e.Insert? && e.id == id)
  {
  }

  lemma NothingRunningAfterClose(s: State, e: Event)
    requires Ownership(s) && Enabled(s, e) && WellDefined(s, e) && !e.Restart?
    requires s.history.closeReset || e.CloseReset?
    ensures s.cancelled
    ensures forall id :: id in NewTasks(s, e) ==> !NewTasks(s, e)[id].status.Running?
  {
  }

  lemma OwnershipStep(s: State, e: Event)
    requires QueuesValid(s) && Ownership(s) && Enabled(s, e) && WellDefined(s, e)
    ensures Ownership(Apply(s, e))
  {
    hide Apply, NewWorkers, NewTasks, NewHistory, Enabled;
    var s' := Apply(s, e);
    ApplyFields(s, e);
    ExclusiveStep(s, e);
    TableStep(s, e);
    if s'.history.closeReset {
      NothingRunningAfterClose(s, e);
    }
    forall w | w in s'.workers && s'.workers[w].Holds()
      ensures s'.workers[w].job.attempt >= 1 && s'.workers[w].job.task in s'.history.issued
      ensures !s'.history.closeReset ==> Owns(s'.tasks, w, s'.workers[w].job)
    {
      HeldBefore(s, e, w);
      if !s'.history.closeReset {
        HeldStaysOwned(s, e, w);
      }
    }
  }

  /** Apply, variable by variable, for proofs that do not look into the new values. */
  lemma ApplyFields(s: State, e: Event)
    requires Enabled(s, e) && WellDefined(s, e)
    ensures var s' := Apply(s, e);
            && s'.workers == NewWorkers(s, e) && s'.tasks == NewTasks(s, e) && s'.queues == NewQueues(s, e)
            && s'.signals == NewSignals(s, e) && s'.notifying == NewNotifying(s, e) && s'.timers == NewTimers(s, e)
            && s'.history == NewHistory(s, e)
            && s'.clock == (if e.Tick? then e.to else if e.Restart? then e.at else s.clock)
            && s'.maxConcurrency == (if e.Restart? then e.maxConcurrency else s.maxConcurrency)
            && s'.cancelled == (!e.Restart? && (s.cancelled || e.Shutdown?))
    ensures var h, h' := s.history, Apply(s, e).history;
            && h'.issued == (if e.Insert? then h.issued + {e.id} else h.issued)
            && h'.late == NewLate(s, e)
            && h'.pollFailed == (!e.Restart? && (h.pollFailed || e.DequeueError? || (e.Dequeue? && e.lost)))
            && h'.closeReset == (!e.Restart? && (h.closeReset || e.CloseReset?))
    ensures e.Restart? ==> NewWorkers(s, e) == map[]
  {
    hide NewTasks, NewQueues, NewSignals, NewNotifying, NewTimers, NewLate, Enabled;
  }

  // ----- Concurrency budget -----

  lemma {:induction false} AllocatedWithout(queues: map<string, QueueConfig>, name: string)
    requires name in queues
    ensures Allocated(queues) == queues[name].concurrency + Allocated(queues - {name})
  {
    var other :| other in queues && Allocated(queues) == queues[other].concurrency + Allocated(queues - {other});
    if other != name {
      AllocatedWithout(queues - {other}, name);
      AllocatedWithout(queues - {name}, other);
      assert queues - {other} - {name} == queues - {name} - {other};
    }
  }

  lemma WorkersMatchQueues(s: State, e: Event, w: WorkerId)
    requires QueuesValid(s) && Enabled(s, e) && WellDefined(s, e)
    ensures w in NewWorkers(s, e) <==> w.queue in NewQueues(s, e) && w.index < NewQueues(s, e)[w.queue].concurrency
  {
    hide Granted, NextPhase;
  }

  lemma GrantedFits(s: State, e: Event)
    requires QueuesValid(s) && Enabled(s, e) && e.CreateQueue?
    ensures 1 <= Granted(s, e.config).concurrency <= s.maxConcurrency - Allocated(s.queues)
  {
  }

  lemma QueuesStep(s: State, e: Event)
    requires QueuesValid(s) && Enabled(s, e) && WellDefined(s, e)
    ensures QueuesValid(Apply(s, e))
  {
    hide Apply, NewWorkers, NewTasks, NewHistory, Granted;
    var s' := Apply(s, e);
    ApplyFields(s, e);
    forall w
      ensures w in s'.workers <==> w.queue in s'.queues && w.index < s'.queues[w.queue].concurrency
    {
      WorkersMatchQueues(s, e, w);
    }
    if e.CreateQueue? {
      GrantedFits(s, e);
      AllocatedWithout(s'.queues, e.name);
      assert s'.queues - {e.name} == s.queues;
    }
  }

  /** The workers of a queue whose callback is in flight. */
  function InFlight(s: State): set<WorkerId> {
    set w | w in s.workers && s.workers[w].Executing?
  }

  lemma {:induction false} CountIndices(ws: set<WorkerId>, name: string, n: nat)
    requires forall w :: w in ws ==> w.queue == name && w.index < n
    ensures |ws| <= n
  {
    if n == 0 {
      assert forall w :: w !in ws;
    } else {
      var last := WorkerId(name, n - 1);
      CountIndices(ws - {last}, name, n - 1);
    }
  }

  lemma SizeOfParts<T>(whole: set<T>, a: set<T>, b: set<T>)
    requires a !! b && whole == a + b
    ensures |whole| == |a| + |b|
  {
  }

  lemma {:induction false} CountWorkers(ws: set<WorkerId>, queues: map<string, QueueConfig>)
    requires forall w :: w in ws ==> w.queue in queues && w.index < queues[w.queue].concurrency
    requires forall name :: name in queues ==> queues[name].concurrency >= 1
    ensures |ws| <= Allocated(queues)
  {
    if queues == map[] {
      assert forall w :: w !in ws;
    } else {
      var name :| name in queues;
      AllocatedWithout(queues, name);
      hide Allocated;
      var mine := set w | w in ws && w.queue == name;
      var rest := set w | w in ws && w.queue != name;
      CountIndices(mine, name, queues[name].concurrency);
      CountWorkers(rest, queues - {name});
      SizeOfParts(ws, mine, rest);
    }
  }

  /** Callbacks in flight never exceed a queue's own concurrency, nor the plugin's budget overall. */
  lemma InFlightIsBounded(s: State)
    requires QueuesValid(s)
    ensures |InFlight(s)| <= Max(s.maxConcurrency, 0)
    ensures forall name :: name in s.queues ==>
              |set w | w in InFlight(s) && w.queue == name| <= s.queues[name].concurrency
  {
    CountWorkers(InFlight(s), s.queues);
    forall name | name in s.queues
      ensures |set w | w in InFlight(s) && w.queue == name| <= s.queues[name].concurrency
    {
      CountIndices((set w | w in InFlight(s) && w.queue == name), name, s.queues[name].concurrency);
    }
  }

  // ----- What may happen to a row -----

  /** The status changes the program is meant to make. */
  predicate Legal(from: Status, to: Status) {
    || from == to
    || (from.Pending? && (to.Running? || to.Cancelled?))
    || (from.Running? && (to.Pending? || to.Completed? || to.Failed?))
  }

  lemma UnheldRow(s: State, e: Event, id: string)
    requires Enabled(s, e) && WellDefined(s, e) && id in s.tasks && id in s.history.issued
    requires e.Finish? && e.ok && s.workers[e.w].job.task == id ==> s.tasks[id].status.Running?
    ensures if id in NewTasks(s, e) then
              && Legal(s.tasks[id].status, NewTasks(s, e)[id].status)
              && (s.tasks[id].status.Terminal() ==> NewTasks(s, e)[id] == s.tasks[id])
            else
              && s.tasks[id].status.Terminal()
              && s.tasks[id].queue in s.queues
              && s.tasks[id].updatedAt + s.queues[s.tasks[id].queue].retentionMs < s.clock
  {
  }

  /**
   In every step, for every task: rows in a terminal status stay exactly as they are until
   they are deleted, only rows past their retention are deleted, and the other rows change
   status along the legal moves only.
   */
  lemma RowsChangeLegally(s: State, e: Event, id: string)
    requires Ownership(s) && Enabled(s, e) && WellDefined(s, e) && id in s.tasks
    ensures var s' := Apply(s, e);
            if id in s'.tasks then
              && Legal(s.tasks[id].status, s'.tasks[id].status)
              && (s.tasks[id].status.Terminal() ==> s'.tasks[id] == s.tasks[id])
            else
              && s.tasks[id].status.Terminal()
              && s.tasks[id].queue in s.queues
              && s.tasks[id].updatedAt + s.queues[s.tasks[id].queue].retentionMs < s.clock
  {
    hide Apply, NewTasks;
    ApplyFields(s, e);
    if e.Finish? && e.ok {
      assert Owns(s.tasks, e.w, s.workers[e.w].job);
    }
    UnheldRow(s, e, id);
  }

  // ----- Runs -----

  /** The states a run passes through: states[0] is the start, and each event leads to the next. */
  ghost predicate IsRun(states: seq<State>, events: seq<Event>) {
    && |states| == |events| + 1
    && Init(states[0])
    && forall i :: 0 <= i < |events| ==>
         Enabled(states[i], events[i]) && WellDefined(states[i], events[i])
         && states[i + 1] == Apply(states[i], events[i])
  }

  lemma InitIsValid(s: State)
    requires Init(s)
    ensures QueuesValid(s) && Ownership(s)
  {
  }

  lemma {:induction false} RunsAreValid(states: seq<State>, events: seq<Event>, n: nat)
    requires IsRun(states, events) && n < |states|
    ensures QueuesValid(states[n]) && Ownership(states[n])
  {
    hide Apply, Enabled, WellDefined, QueuesValid, Ownership;
    if n == 0 {
      InitIsValid(states[0]);
    } else {
      RunsAreValid(states, events, n - 1);
      RunStep(states, events, n - 1);
      QueuesStep(states[n - 1], events[n - 1]);
      OwnershipStep(states[n - 1], events[n - 1]);
    }
  }

  /**
   Ownership over whole runs: at every moment at most one worker has a given task in its
   hands, that task is running until Close resets it, and the callbacks in flight stay
   within the budget.
   */
  lemma OwnershipInEveryRun(states: seq<State>, events: seq<Event>, n: nat)
    requires IsRun(states, events) && n < |states|
    ensures forall v, w, id :: HeldBy(states[n].workers, v, id) && HeldBy(states[n].workers, w, id) ==> v == w
    ensures forall w, id :: HeldBy(states[n].workers, w, id) && !states[n].history.closeReset ==>
              id in states[n].tasks && states[n].tasks[id].status.Running?
    ensures |InFlight(states[n])| <= Max(states[n].maxConcurrency, 0)
  {
    RunsAreValid(states, events, n);
    InFlightIsBounded(states[n]);
  }

  /** A task id is never handed out twice, so a deleted task does not come back. */
  lemma IdsAreNotReused(s: State, e: Event, id: string)
    requires Enabled(s, e) && WellDefined(s, e) && id in s.history.issued
    ensures id in Apply(s, e).history.issued
    ensures id in Apply(s, e).tasks ==> id in s.tasks
  {
    hide Apply, NewWorkers, NewQueues, NewHistory;
    ApplyFields(s, e);
  }

  lemma RunStep(states: seq<State>, events: seq<Event>, i: nat)
    requires IsRun(states, events) && i < |events|
    ensures Enabled(states[i], events[i]) && WellDefined(states[i], events[i])
    ensures states[i + 1] == Apply(states[i], events[i])
  {
  }

  /** Completed, failed and cancelled are absorbing over whole runs. */
  lemma {:induction false} TerminalIsForever(states: seq<State>, events: seq<Event>, i: nat, j: nat, id: string)
    requires IsRun(states, events) && i <= j < |states|
    requires id in states[i].tasks && states[i].tasks[id].status.Terminal()
    ensures id in states[j].tasks ==> states[j].tasks[id] == states[i].tasks[id]
    ensures id in states[j].history.issued
  {
    hide Apply, Enabled, WellDefined, Init, QueuesValid, Exclusive, HeldIsOwned, ClosedQuiet;
    if i == j {
      RunsAreValid(states, events, i);
    } else {
      TerminalIsForever(states, events, i, j - 1, id);
      RunsAreValid(states, events, j - 1);
      RunStep(states, events, j - 1);
      TerminalStep(states[j - 1], events[j - 1], id, states[i].tasks[id]);
    }
  }

  lemma TerminalStep(s: State, e: Event, id: string, row: Task)
    requires QueuesValid(s) && Ownership(s) && Enabled(s, e) && WellDefined(s, e)
    requires id in s.history.issued && row.status.Terminal()
    requires id in s.tasks ==> s.tasks[id] == row
    ensures id in Apply(s, e).history.issued
    ensures id in Apply(s, e).tasks ==> Apply(s, e).tasks[id] == row
  {
    hide Apply, Enabled, WellDefined, QueuesValid, Ownership;
    IdsAreNotReused(s, e, id);
    if id in s.tasks {
      RowsChangeLegally(s, e, id);
    }
  }
}
