/**
 The host-side task queue service: its calls as methods on the fields they change. Each
 is one event of the transition system, or a few of them in a row.
 */
module TaskQueueService {
  import opened Backoff
  import opened TaskQueueModel
  import opened TaskQueueOwnership

  datatype Error =
    | EmptyName | NameTooLong | BudgetExhausted | QueueExists | NoSuchQueue | PayloadTooLarge
    | NoSuchTask | NotPending(status: Status)

  datatype Result<T> = Ok(value: T) | Err(error: Error)

  const MAX_QUEUE_NAME_LENGTH := 128
  const MAX_PAYLOAD_SIZE := 1024 * 1024

  /** The events lead from one state to the other, with nothing in between. */
  ghost predicate Leads(s: State, events: seq<Event>, s': State)
    decreases |events|
  {
    if events == [] then s' == s
    else Enabled(s, events[0]) && WellDefined(s, events[0]) && Leads(Apply(s, events[0]), events[1..], s')
  }

  lemma {:induction false} LeadsFurther(s: State, events: seq<Event>, m: State, e: Event, s': State)
    requires Leads(s, events, m) && Enabled(m, e) && WellDefined(m, e) && s' == Apply(m, e)
    ensures Leads(s, events + [e], s')
    decreases |events|
  {
    hide Apply, Enabled, WellDefined;
    if events == [] {
      assert events + [e] == [e];
      assert Leads(s', [], s');
    } else {
      LeadsFurther(Apply(s, events[0]), events[1..], m, e, s');
      assert (events + [e])[1..] == events[1..] + [e];
    }
  }

  /** Whenever some task is eligible, one of them comes first. */
  lemma {:induction false} SomeTaskIsNext(tasks: Tasks, ids: set<string>)
    requires ids != {} && ids <= tasks.Keys
    ensures exists id :: id in ids && forall o :: o in ids ==> Before(tasks[id], tasks[o])
  {
    var id :| id in ids;
    var rest := ids - {id};
    if rest == {} {
      assert ids == {id};
    } else {
      SomeTaskIsNext(tasks, rest);
      var first :| first in rest && forall o :: o in rest ==> Before(tasks[first], tasks[o]);
      var best := if Before(tasks[id], tasks[first]) then id else first;
      assert forall o :: o in ids ==> o == id || o in rest;
      assert best in ids && forall o :: o in ids ==> Before(tasks[best], tasks[o]);
    }
  }

  /** The workers started so far, one per turn of the loop. */
  method SpawnWorkers(name: string, n: int) returns (started: map<WorkerId, Phase>)
    requires n >= 0
    ensures started == Workers(name, n)
  {
    started := map[];
    for i := 0 to n
      invariant started == Workers(name, i)
    {
      started := started[WorkerId(name, i) := Draining];
    }
  }

  /** All queues' expired rows are gone, and nothing else. */
  ghost predicate CleanedUp(before: Tasks, after: Tasks, queues: map<string, QueueConfig>, names: set<string>, now: int) {
    forall id ::
      && (id in after <==> id in before && !ExpiredIn(before[id], queues, names, now))
      && (id in after ==> after[id] == before[id])
  }

  predicate ExpiredIn(t: Task, queues: map<string, QueueConfig>, names: set<string>, now: int) {
    t.queue in names && t.queue in queues && Expired(t, t.queue, queues[t.queue].retentionMs, now)
  }

  ghost predicate Invariant(s: State) {
    QueuesValid(s) && Ownership(s)
  }

  /** A legal step and the state it leads to, in which the invariants hold again. */
  ghost predicate Steps(s: State, e: Event, s': State) {
    Enabled(s, e) && WellDefined(s, e) && s' == Apply(s, e) && Invariant(s')
  }

  lemma StepKeepsInvariant(s: State, e: Event)
    requires Invariant(s) && Enabled(s, e)
    ensures Steps(s, e, Apply(s, e))
  {
    InvariantsAreWellDefined(s, e);
    QueuesStep(s, e);
    OwnershipStep(s, e);
    hide Apply, Enabled, QueuesValid, Ownership;
  }

  lemma OneStep(s: State, e: Event, s': State)
    requires Steps(s, e, s')
    ensures Leads(s, [e], s')
  {
    hide Apply, Enabled, WellDefined, Invariant;
    assert Leads(s', [], s');
  }

  lemma NextStep(s: State, events: seq<Event>, m: State, e: Event, s': State)
    requires Leads(s, events, m) && Steps(m, e, s')
    ensures Leads(s, events + [e], s')
  {
    hide Apply, Enabled, WellDefined, Invariant, Leads;
    LeadsFurther(s, events, m, e, s');
  }

  lemma TwoSteps(s: State, e1: Event, m: State, e2: Event, s': State)
    requires Steps(s, e1, m) && Steps(m, e2, s')
    ensures Leads(s, [e1, e2], s')
  {
    hide Steps, Leads;
    OneStep(s, e1, m);
    NextStep(s, [e1], m, e2, s');
    assert [e1] + [e2] == [e1, e2];
  }

  // ----- What a new queue finds and gets -----

  /** What a crash has left running in the queue is pending again, in the same attempt and due at the same time. */
  ghost predicate Recovered(before: Tasks, after: Tasks, name: string, now: int) {
    && after.Keys == before.Keys
    && forall id :: id in before ==>
         if before[id].queue == name && before[id].status.Running?
         then after[id] == before[id].(status := Pending, updatedAt := now) else after[id] == before[id]
  }

  lemma ResetRecovers(tasks: Tasks, name: string, now: int)
    ensures Recovered(tasks, ResetRunning(tasks, OfQueue(name), now), name, now)
  {
  }

  /** The queue is there with at most the concurrency it asks for, and a worker for each of it about to look for tasks. */
  ghost predicate Installed(
    queues: map<string, QueueConfig>, queues': map<string, QueueConfig>,
    workers: map<WorkerId, Phase>, workers': map<WorkerId, Phase>, name: string, config: QueueConfig)
  {
    && queues'.Keys == queues.Keys + {name}
    && (forall other :: other in queues && other != name ==> queues'[other] == queues[other])
    && 1 <= queues'[name].concurrency <= config.concurrency
    && queues'[name] == config.(concurrency := queues'[name].concurrency)
    && (forall w: WorkerId :: w in workers' <==> if w.queue == name then w.index < queues'[name].concurrency else w in workers)
    && (forall w: WorkerId :: w in workers' ==> workers'[w] == if w.queue == name then Draining else workers[w])
  }

  lemma QueueInstalled(s: State, name: string, config: QueueConfig)
    requires Invariant(s) && Enabled(s, Event.CreateQueue(name, config))
    ensures var granted := Granted(s, config);
            Installed(s.queues, s.queues[name := granted], s.workers, s.workers + Workers(name, granted.concurrency), name, WithDefaults(config))
  {
    GrantedFits(s, Event.CreateQueue(name, config));
    hide Allocated, WithDefaults, Ownership;
  }

  // ----- The events that the methods perform, spelled out -----

  lemma CreateQueueSteps(s: State, name: string, config: QueueConfig)
    requires Invariant(s) && s.dbOpen && 0 < |name| <= MAX_QUEUE_NAME_LENGTH
    requires Allocated(s.queues) < s.maxConcurrency && name !in s.queues
    ensures var e, granted := Event.CreateQueue(name, config), Granted(s, config);
            && granted.concurrency >= 1 && Enabled(s, e)
            && Steps(s, e, s.(
                 tasks := ResetRunning(s.tasks, OfQueue(name), s.clock), queues := s.queues[name := granted],
                 workers := s.workers + Workers(name, granted.concurrency), history := NewHistory(s, e)))
  {
    var e := Event.CreateQueue(name, config);
    assert Enabled(s, e);
    StepKeepsInvariant(s, e);
    GrantedFits(s, e);
  }

  lemma InsertSteps(s: State, name: string, id: string, now: int)
    requires Invariant(s) && s.dbOpen && name in s.queues && id !in s.history.issued && now <= s.clock
    ensures var e := Insert(name, id, now);
            Steps(s, e, s.(
              tasks := s.tasks[id := Task(name, Pending, 0, s.queues[name].maxRetries, now, now, now)],
              notifying := s.notifying + multiset{name}, history := NewHistory(s, e)))
  {
    assert Enabled(s, Insert(name, id, now));
    StepKeepsInvariant(s, Insert(name, id, now));
  }

  lemma NotifySteps(s: State, name: string)
    requires Invariant(s) && name in s.notifying
    ensures Steps(s, Notify(name), s.(signals := s.signals + {name}, notifying := s.notifying - multiset{name}))
  {
    assert Enabled(s, Notify(name));
    StepKeepsInvariant(s, Notify(name));
  }

  /** Once the call has returned, its notification is no longer pending. */
  lemma EnqueueLeads(s: State, name: string, id: string, now: int)
    requires Invariant(s) && s.dbOpen && name in s.queues && id !in s.history.issued && now <= s.clock
    ensures var s' := s.(
              tasks := s.tasks[id := Task(name, Pending, 0, s.queues[name].maxRetries, now, now, now)],
              signals := s.signals + {name}, history := NewHistory(s, Insert(name, id, now)));
            Invariant(s') && Leads(s, [Insert(name, id, now), Notify(name)], s')
  {
    hide Invariant, Enabled, Apply, NewHistory, Leads;
    InsertSteps(s, name, id, now);
    var between := s.(
      tasks := s.tasks[id := Task(name, Pending, 0, s.queues[name].maxRetries, now, now, now)],
      notifying := s.notifying + multiset{name}, history := NewHistory(s, Insert(name, id, now)));
    NotifySteps(between, name);
    assert between.notifying - multiset{name} == s.notifying;
    TwoSteps(s, Insert(name, id, now), between, Notify(name), between.(
               signals := s.signals + {name}, notifying := s.notifying));
  }

  lemma CancelSteps(s: State, id: string, now: int)
    requires Invariant(s) && s.dbOpen && id in s.tasks && s.tasks[id].status.Pending?
    ensures Steps(s, Event.Cancel(id, now), s.(
              tasks := s.tasks[id := s.tasks[id].(status := Cancelled, updatedAt := now)]))
  {
    assert Enabled(s, Event.Cancel(id, now));
    StepKeepsInvariant(s, Event.Cancel(id, now));
  }

  lemma ClearQueueSteps(s: State, name: string, now: int)
    requires Invariant(s) && s.dbOpen && name in s.queues
    ensures Steps(s, Event.ClearQueue(name, now), s.(tasks := CancelPending(s.tasks, name, now)))
  {
    assert Enabled(s, Event.ClearQueue(name, now));
    StepKeepsInvariant(s, Event.ClearQueue(name, now));
  }

  lemma ReadClockSteps(s: State, w: WorkerId)
    requires Invariant(s) && w in s.workers && s.workers[w].Draining?
    ensures Steps(s, ReadClock(w), s.(workers := s.workers[w := Polling(s.clock)]))
  {
    assert Enabled(s, ReadClock(w));
    StepKeepsInvariant(s, ReadClock(w));
  }

  lemma DequeueNoneSteps(s: State, w: WorkerId)
    requires Invariant(s) && !s.cancelled && s.dbOpen && w in s.workers && s.workers[w].Polling?
    requires forall id :: id in s.tasks ==> !Eligible(s.tasks, w.queue, s.workers[w].now, id)
    ensures Steps(s, DequeueNone(w), s.(workers := s.workers[w := Idle]))
  {
    assert Enabled(s, DequeueNone(w));
    StepKeepsInvariant(s, DequeueNone(w));
  }

  lemma DequeueSteps(s: State, w: WorkerId, id: string)
    requires Invariant(s) && !s.cancelled && s.dbOpen && w in s.workers && s.workers[w].Polling?
    requires Next(s.tasks, w.queue, s.workers[w].now, id)
    ensures var e, t, now := Dequeue(w, id, false), s.tasks[id], s.workers[w].now;
            Steps(s, e, s.(
              tasks := s.tasks[id := t.(status := Running, attempt := t.attempt + 1, updatedAt := now)],
              workers := s.workers[w := Waiting(Job(id, t.attempt + 1, t.maxRetries))],
              history := NewHistory(s, e)))
  {
    assert Enabled(s, Dequeue(w, id, false));
    StepKeepsInvariant(s, Dequeue(w, id, false));
  }

  lemma StartSteps(s: State, w: WorkerId)
    requires Invariant(s) && w in s.workers && s.workers[w].Waiting?
    ensures Steps(s, Start(w), s.(
              workers := s.workers[w := Executing(s.workers[w].job)], history := NewHistory(s, Start(w))))
  {
    assert Enabled(s, Start(w));
    StepKeepsInvariant(s, Start(w));
  }

  lemma ReturnSteps(s: State, w: WorkerId, outcome: Outcome)
    requires Invariant(s) && !s.cancelled && w in s.workers && s.workers[w].Executing?
    ensures Steps(s, Return(w, outcome), s.(workers := s.workers[w := Finishing(s.workers[w].job, outcome)]))
  {
    assert Enabled(s, Return(w, outcome));
    StepKeepsInvariant(s, Return(w, outcome));
  }

  lemma FinishSteps(s: State, w: WorkerId, now: int)
    requires Invariant(s) && !s.cancelled && s.dbOpen && now <= s.clock && w in s.workers && s.workers[w].Finishing?
    ensures var e, job := Finish(w, now, true), s.workers[w].job;
            && job.task in s.tasks && w.queue in s.queues && job.attempt >= 1 && Owns(s.tasks, w, job)
            && Steps(s, e, s.(
                 tasks := s.tasks[job.task := Finished(s, w, s.tasks[job.task], now)],
                 workers := s.workers[w := if Retries(s.workers[w]) then Arming(job.task, RetryWait(s, w)) else Draining]))
  {
    assert Owns(s.tasks, w, s.workers[w].job);
    assert Enabled(s, Finish(w, now, true));
    StepKeepsInvariant(s, Finish(w, now, true));
  }

  lemma ArmSteps(s: State, w: WorkerId)
    requires Invariant(s) && w in s.workers && s.workers[w].Arming?
    ensures Steps(s, Arm(w), s.(
              workers := s.workers[w := Draining],
              timers := s.timers + multiset{Timer(w.queue, s.workers[w].task, s.clock + s.workers[w].backoff)}))
  {
    assert Enabled(s, Arm(w));
    StepKeepsInvariant(s, Arm(w));
  }

  lemma CleanupSteps(s: State, name: string, now: int)
    requires Invariant(s) && !s.cancelled && s.dbOpen && now <= s.clock && name in s.queues
    ensures Steps(s, Cleanup(name, now), s.(
              tasks := DeleteExpired(s.tasks, name, s.queues[name].retentionMs, now)))
  {
    assert Enabled(s, Cleanup(name, now));
    StepKeepsInvariant(s, Cleanup(name, now));
  }

  lemma ShutdownSteps(s: State)
    requires Invariant(s)
    ensures Steps(s, Shutdown, s.(cancelled := true))
  {
    assert Enabled(s, Shutdown);
    StepKeepsInvariant(s, Shutdown);
  }

  lemma CloseResetSteps(s: State, now: int)
    requires Invariant(s) && s.dbOpen && s.cancelled
    ensures Steps(s, CloseReset(now), s.(
              tasks := ResetRunning(s.tasks, AllQueues, now), history := NewHistory(s, CloseReset(now))))
    ensures NewHistory(s, CloseReset(now)).closeReset
  {
    assert Enabled(s, CloseReset(now));
    StepKeepsInvariant(s, CloseReset(now));
  }

  lemma CloseDbSteps(s: State)
    requires Invariant(s) && s.history.closeReset
    ensures Steps(s, CloseDb, s.(dbOpen := false))
  {
    assert Enabled(s, CloseDb);
    StepKeepsInvariant(s, CloseDb);
  }

  class TaskQueue {
    var tasks: Tasks
    var maxConcurrency: int
    var queues: map<string, QueueConfig>
    var signals: set<string>
    var workers: map<WorkerId, Phase>
    var timers: multiset<Timer>
    var cancelled: bool
    var dbOpen: bool
    ghost var clock: int
    ghost var notifying: multiset<string>
    ghost var history: History

    ghost function View(): State
      reads this
    {
      State(clock, tasks, maxConcurrency, queues, signals, workers, notifying, timers, cancelled, dbOpen, history)
    }

    ghost predicate Valid()
      reads this
    {
      Invariant(View())
    }

    /** Sums up the concurrency of the existing queues; what is left limits the new one. */
    method ClampConcurrency(config: QueueConfig) returns (r: Result<QueueConfig>)
      ensures r == if Allocated(queues) >= maxConcurrency then Err(BudgetExhausted)
                   else Ok(config.(concurrency := Min(config.concurrency, maxConcurrency - Allocated(queues))))
    {
      var sum, rest := 0, queues;
      while rest != map[]
        invariant sum + Allocated(rest) == Allocated(queues)
        decreases rest.Keys
      {
        var name :| name in rest;
        AllocatedWithout(rest, name);
        sum, rest := sum + rest[name].concurrency, rest - {name};
      }
      var available := maxConcurrency - sum;
      if available <= 0 {
        return Err(BudgetExhausted);
      }
      return Ok(if config.concurrency > available then config.(concurrency := available) else config);
    }

    /** CreateQueue: also puts tasks left running by a crash back to pending, and starts the workers. */
    method CreateQueue(name: string, config: QueueConfig, now: int) returns (r: Result<()>)
      requires Valid() && dbOpen && now == clock
      modifies this
      ensures Valid()
      ensures r.Ok? <==> && 0 < |name| <= MAX_QUEUE_NAME_LENGTH
                         && Allocated(old(queues)) < old(maxConcurrency) && name !in old(queues)
      ensures if r.Ok? then Leads(old(View()), [Event.CreateQueue(name, config)], View())
              else View() == old(View())
      ensures r.Ok? ==> Recovered(old(tasks), tasks, name, now)
      ensures r.Ok? ==> Installed(old(queues), queues, old(workers), workers, name, WithDefaults(config))
      ensures View() == old(View()).(tasks := tasks, queues := queues, workers := workers, history := history)
    {
      hide Invariant, Apply, Enabled, NewHistory, Leads, Allocated, Recovered, Installed, ResetRunning, WithDefaults;
      if name == "" {
        return Err(EmptyName);
      }
      if |name| > MAX_QUEUE_NAME_LENGTH {
        return Err(NameTooLong);
      }
      var clamped := ClampConcurrency(WithDefaults(config));
      if clamped.Err? {
        return Err(clamped.error);
      }
      if name in queues {
        return Err(QueueExists);
      }
      ghost var before, e := View(), Event.CreateQueue(name, config);
      CreateQueueSteps(before, name, config);
      ResetRecovers(tasks, name, now);
      QueueInstalled(before, name, config);
      tasks := ResetRunning(tasks, OfQueue(name), now);
      queues := queues[name := clamped.value];
      var started := SpawnWorkers(name, clamped.value.concurrency);
      workers := workers + started;
      history := NewHistory(before, e);
      OneStep(before, e, View());
      return Ok(());
    }

    /** Enqueue: inserts the row, then sends on the channel unless it is full. */
    method Enqueue(name: string, payloadSize: nat, id: string, now: int) returns (r: Result<string>)
      requires Valid() && dbOpen && now <= clock && id !in history.issued
      modifies this
      ensures Valid()
      ensures r.Ok? <==> name in old(queues) && payloadSize <= MAX_PAYLOAD_SIZE
      ensures if r.Ok? then r.value == id && Leads(old(View()), [Insert(name, id, now), Notify(name)], View())
              else View() == old(View())
      ensures r.Ok? ==>
                && View() == old(View()).(tasks := tasks, signals := old(signals) + {name}, history := history)
                && tasks == old(tasks)[id := Task(name, Pending, 0, old(queues)[name].maxRetries, now, now, now)]
    {
      hide Invariant, Apply, Enabled, NewHistory, Leads;
      if name !in queues {
        return Err(NoSuchQueue);
      }
      if payloadSize > MAX_PAYLOAD_SIZE {
        return Err(PayloadTooLarge);
      }
      EnqueueLeads(View(), name, id, now);
      history := NewHistory(View(), Insert(name, id, now));
      tasks := tasks[id := Task(name, Pending, 0, queues[name].maxRetries, now, now, now)];
      signals := signals + {name};
      return Ok(id);
    }

    /** Cancel: succeeds on pending tasks only, and tells the other cases apart. */
    method CancelTask(id: string, now: int) returns (r: Result<()>)
      requires Valid() && dbOpen
      modifies this
      ensures Valid()
      ensures r == if id !in old(tasks) then Err(NoSuchTask)
                   else if !old(tasks)[id].status.Pending? then Err(NotPending(old(tasks)[id].status))
                   else Ok(())
      ensures if r.Ok? then Leads(old(View()), [Event.Cancel(id, now)], View()) else View() == old(View())
      ensures r.Ok? ==> View() == old(View()).(tasks := old(tasks)[id := old(tasks)[id].(status := Cancelled, updatedAt := now)])
    {
      hide Invariant, Apply, Enabled, Leads;
      if id in tasks && tasks[id].status.Pending? {
        ghost var before := View();
        CancelSteps(before, id, now);
        tasks := tasks[id := tasks[id].(status := Cancelled, updatedAt := now)];
        OneStep(before, Event.Cancel(id, now), View());
        return Ok(());
      }
      if id !in tasks {
        return Err(NoSuchTask);
      }
      return Err(NotPending(tasks[id].status));
    }

    /** ClearQueue: cancels every pending task of the queue and reports how many there were. */
    method ClearPending(name: string, now: int) returns (r: Result<nat>)
      requires Valid() && dbOpen
      modifies this
      ensures Valid()
      ensures r.Ok? <==> name in old(queues)
      ensures r.Ok? ==> r.value == |PendingIn(old(tasks), name)| && PendingIn(tasks, name) == {}
      ensures if r.Ok? then Leads(old(View()), [Event.ClearQueue(name, now)], View()) else View() == old(View())
      ensures View() == old(View()).(tasks := tasks) && tasks.Keys == old(tasks).Keys
      ensures r.Ok? ==> forall id :: id in tasks ==>
                tasks[id] == if old(tasks)[id].status.Pending? && old(tasks)[id].queue == name
                             then old(tasks)[id].(status := Cancelled, updatedAt := now) else old(tasks)[id]
    {
      hide Invariant, Apply, Enabled, Leads;
      if name !in queues {
        return Err(NoSuchQueue);
      }
      ghost var before := View();
      ClearQueueSteps(before, name, now);
      var cleared := PendingIn(tasks, name);
      tasks := CancelPending(tasks, name, now);
      OneStep(before, Event.ClearQueue(name, now), View());
      return Ok(|cleared|);
    }

    /** The dequeue statement of one worker: takes the first eligible task, if there is one. */
    method DequeueTask(w: WorkerId) returns (found: bool, ghost e: Event)
      requires Valid() && !cancelled && dbOpen && w in workers && workers[w].Polling?
      modifies `tasks, `workers, `history
      ensures Valid() && w in workers
      ensures !found ==> NothingDue(old(tasks), w.queue, old(workers)[w].now)
      ensures Steps(old(View()), e, View())
      ensures if found then e.Dequeue? && e.w == w && !e.lost && workers[w].Waiting?
              else e == DequeueNone(w) && workers[w].Idle?
      ensures found ==> Takes(old(tasks), e.id, w.queue, old(workers)[w].now)
      ensures found ==>
                var t, now := old(tasks)[e.id], old(workers)[w].now;
                && tasks == old(tasks)[e.id := t.(status := Running, attempt := t.attempt + 1, updatedAt := now)]
                && workers == old(workers)[w := Waiting(Job(e.id, t.attempt + 1, t.maxRetries))]
      ensures !found ==> tasks == old(tasks) && workers == old(workers)[w := Idle]
    {
      hide Invariant, Apply, Enabled, NewHistory;
      var now := workers[w].now;
      var eligible := set id | id in tasks && Eligible(tasks, w.queue, now, id);
      ghost var before := View();
      if eligible == {} {
        assert forall id :: id in tasks && Eligible(tasks, w.queue, now, id) ==> id in eligible;
        DequeueNoneSteps(before, w);
        workers := workers[w := Idle];
        return false, DequeueNone(w);
      }
      SomeTaskIsNext(tasks, eligible);
      var id :| id in eligible && forall o :: o in eligible ==> Before(tasks[id], tasks[o]);
      e := Dequeue(w, id, false);
      FirstIsNext(tasks, w.queue, now, eligible, id);
      NextIsTaken(tasks, w.queue, now, id);
      DequeueSteps(before, w, id);
      var t := tasks[id];
      tasks := tasks[id := t.(status := Running, attempt := t.attempt + 1, updatedAt := now)];
      workers := workers[w := Waiting(Job(id, t.attempt + 1, t.maxRetries))];
      history := NewHistory(before, e);
      return true, e;
    }

    /** completeTask and handleTaskFailure. */
    method FinishTask(w: WorkerId, now: int)
      requires Valid() && !cancelled && dbOpen && now <= clock && w in workers && workers[w].Finishing?
      modifies `tasks, `workers
      ensures Valid() && w in workers
      ensures Steps(old(View()), Finish(w, now, true), View())
      ensures workers[w].Draining? || workers[w].Arming?
      ensures w.queue in queues && workers == old(workers)[w := workers[w]]
      ensures OutcomeWritten(old(tasks), tasks, old(workers)[w], workers[w], now, queues[w.queue].backoffMs)
    {
      hide Invariant, Apply, Enabled, RetryDelay;
      FinishSteps(View(), w, now);
      var job := workers[w].job;
      var t := tasks[job.task];
      if workers[w].outcome.Success? {
        tasks := tasks[job.task := t.(status := Completed, updatedAt := now)];
        workers := workers[w := Draining];
      } else if job.attempt > job.maxRetries {
        tasks := tasks[job.task := t.(status := Failed, updatedAt := now)];
        workers := workers[w := Draining];
      } else {
        var backoff := RetryDelay(queues[w.queue].backoffMs, job.attempt);
        tasks := tasks[job.task := t.(status := Pending, nextRunAt := now + backoff, updatedAt := now)];
        workers := workers[w := Arming(job.task, backoff)];
      }
    }

    /** runCleanup: one DELETE per queue, over a snapshot of the queues. */
    method RunCleanup(now: int)
      requires Valid() && !cancelled && dbOpen && now <= clock
      modifies `tasks
      ensures Valid()
      ensures CleanedUp(old(tasks), tasks, queues, queues.Keys, now)
      ensures forall id :: id in tasks ==> id in old(tasks) && tasks[id] == old(tasks)[id]
      ensures forall id :: id in old(tasks) ==> var t := old(tasks)[id];
                (id !in tasks <==> && (t.status.Completed? || t.status.Failed? || t.status.Cancelled?)
                                   && t.queue in queues && t.updatedAt + queues[t.queue].retentionMs < now)
    {
      hide Invariant, Apply, Enabled, CleanedUp, Expired;
      ghost var start := tasks;
      var todo := queues.Keys;
      NothingCleanedYet(start, queues, now);
      while todo != {}
        invariant Valid() && todo <= queues.Keys
        invariant CleanedUp(start, tasks, queues, queues.Keys - todo, now)
      {
        var name :| name in todo;
        CleanupSteps(View(), name, now);
        OneQueueCleaned(start, tasks, queues, queues.Keys - todo, name, now);
        tasks := DeleteExpired(tasks, name, queues[name].retentionMs, now);
        assert queues.Keys - todo + {name} == queues.Keys - (todo - {name});
        todo := todo - {name};
      }
      assert queues.Keys - {} == queues.Keys;
      CleanedRows(start, tasks, queues, now);
    }

    /** Close, once its workers have stopped or the wait for them has timed out. */
    method Close(now: int)
      requires Valid() && dbOpen
      modifies `tasks, `cancelled, `dbOpen, `history
      ensures Valid() && !dbOpen && cancelled
      ensures tasks.Keys == old(tasks).Keys && forall id :: id in tasks ==>
                tasks[id] == if old(tasks)[id].status.Running? then old(tasks)[id].(status := Pending, updatedAt := now) else old(tasks)[id]
      ensures Leads(old(View()), [Shutdown, CloseReset(now), CloseDb], View())
    {
      hide Invariant, Apply, Enabled, NewHistory, Leads;
      ghost var s := View();
      ShutdownSteps(s);
      cancelled := true;
      ghost var s1 := View();
      CloseResetSteps(s1, now);
      tasks := ResetRunning(tasks, AllQueues, now);
      history := NewHistory(s1, CloseReset(now));
      ghost var s2 := View();
      CloseDbSteps(s2);
      dbOpen := false;
      TwoSteps(s, Shutdown, s1, CloseReset(now), s2);
      NextStep(s, [Shutdown, CloseReset(now)], s2, CloseDb, View());
      assert [Shutdown, CloseReset(now)] + [CloseDb] == [Shutdown, CloseReset(now), CloseDb];
    }

    /** The callback's turn: the job is handed over, and its outcome is kept. */
    method CallBack(w: WorkerId, outcome: Outcome)
      requires Valid() && !cancelled && w in workers && workers[w].Waiting?
      modifies `workers, `history
      ensures Valid() && w in workers
      ensures workers == old(workers)[w := Finishing(old(workers)[w].job, outcome)]
      ensures Leads(old(View()), [Start(w), Return(w, outcome)], View())
    {
      hide Invariant, Apply, Enabled, NewHistory, Leads;
      ghost var s := View();
      StartSteps(s, w);
      workers := workers[w := Executing(workers[w].job)];
      history := NewHistory(s, Start(w));
      ghost var s1 := View();
      ReturnSteps(s1, w, outcome);
      workers := workers[w := Finishing(workers[w].job, outcome)];
      TwoSteps(s, Start(w), s1, Return(w, outcome), View());
    }

    /** time.AfterFunc, after a retry has been written. */
    method ArmTimer(w: WorkerId, now: int)
      requires Valid() && now == clock && w in workers && workers[w].Arming?
      modifies `workers, `timers
      ensures Valid() && w in workers && workers[w].Draining?
      ensures Steps(old(View()), Arm(w), View())
      ensures timers == old(timers) + multiset{Timer(w.queue, old(workers)[w].task, now + old(workers)[w].backoff)}
      ensures workers == old(workers)[w := Draining]
    {
      hide Invariant, Apply, Enabled;
      ArmSteps(View(), w);
      timers := timers + multiset{Timer(w.queue, workers[w].task, now + workers[w].backoff)};
      workers := workers[w := Draining];
    }

    /** processTask on an undisturbed process: reads the clock, dequeues, calls back, records the outcome. */
    method ProcessTask(w: WorkerId, outcome: Outcome, now: int) returns (processed: bool, ghost events: seq<Event>)
      requires Valid() && !cancelled && dbOpen && now == clock && w in workers && workers[w].Draining?
      modifies `tasks, `workers, `timers, `history
      ensures Valid()
      ensures !processed ==> NothingDue(old(tasks), w.queue, now)
      ensures Leads(old(View()), events, View())
      ensures w in workers && workers == old(workers)[w := if processed then Draining else Idle]
      ensures !processed ==> tasks == old(tasks) && timers == old(timers)
      ensures processed ==> w.queue in queues && exists id ::
                Takes(old(tasks), id, w.queue, now) && Processed(old(tasks), tasks, old(timers), timers, id, outcome, now, queues[w.queue].backoffMs)
    {
      hide Invariant, Apply, Enabled, Leads, Steps, Eligible, Takes, Processed, OutcomeWritten, RetryDelay;
      ghost var s0 := View();
      ReadClockSteps(s0, w);
      workers := workers[w := Polling(now)];
      StepsKeepInvariant(s0, ReadClock(w), View());
      ghost var s1 := View();
      ghost var dequeue;
      processed, dequeue := DequeueTask(w);
      TwoSteps(s0, ReadClock(w), s1, dequeue, View());
      events := [ReadClock(w), dequeue];
      if !processed {
        return;
      }
      ghost var s2, id := View(), dequeue.id;
      TakenIsTask(s0.tasks, id, w.queue, now);
      AttemptsAreCounted(s0, id);
      CallBack(w, outcome);
      ghost var s3 := View();
      LeadsOn(s0, events, s2, [Start(w), Return(w, outcome)], s3);
      events := events + [Start(w), Return(w, outcome)];
      FinishTask(w, now);
      ghost var s4 := View();
      AttemptIsProcessed(s0.tasks, s3.tasks, tasks, timers, id, w.queue, outcome, workers[w], now, queues[w.queue].backoffMs);
      NextStep(s0, events, s3, Finish(w, now, true), s4);
      events := events + [Finish(w, now, true)];
      if workers[w].Arming? {
        ArmTimer(w, now);
        NextStep(s0, events, s4, Arm(w), View());
        events := events + [Arm(w)];
      }
    }
  }

  lemma StepsKeepInvariant(s: State, e: Event, s': State)
    requires Steps(s, e, s')
    ensures Invariant(s')
  {
    hide Apply, Enabled, Invariant;
  }

  lemma {:induction false} LeadsOn(s: State, first: seq<Event>, m: State, second: seq<Event>, s': State)
    requires Leads(s, first, m) && Leads(m, second, s')
    ensures Leads(s, first + second, s')
    decreases |first|
  {
    hide Apply, Enabled, WellDefined;
    if first == [] {
      assert first + second == second;
    } else {
      LeadsOn(Apply(s, first[0]), first[1..], m, second, s');
      assert (first + second)[1..] == first[1..] + second;
    }
  }

  predicate NothingDue(tasks: Tasks, name: string, now: int) {
    forall id :: id in tasks && tasks[id].queue == name && tasks[id].status.Pending? ==> tasks[id].nextRunAt > now
  }

  /** The task is due, and no other pending task of the queue comes before it. */
  ghost predicate Takes(tasks: Tasks, id: string, name: string, now: int) {
    && id in tasks && tasks[id].queue == name && tasks[id].status.Pending? && tasks[id].nextRunAt <= now
    && forall o :: o in tasks && tasks[o].queue == name && tasks[o].status.Pending? ==>
         || tasks[id].nextRunAt < tasks[o].nextRunAt
         || (tasks[id].nextRunAt == tasks[o].nextRunAt && tasks[id].createdAt <= tasks[o].createdAt)
  }

  lemma TakenIsTask(tasks: Tasks, id: string, name: string, now: int)
    requires Takes(tasks, id, name, now)
    ensures id in tasks
  {
  }

  lemma NextIsTaken(tasks: Tasks, name: string, now: int, id: string)
    requires Next(tasks, name, now, id)
    ensures Takes(tasks, id, name, now)
  {
  }

  /**
   The outcome of an attempt is in its row: completed for a success, failed for a failure
   beyond the last retry, and otherwise pending until the backoff is over, with a timer to
   be set.
   */
  ghost predicate OutcomeWritten(before: Tasks, after: Tasks, phase: Phase, phase': Phase, now: int, backoffMs: int) {
    && phase.Finishing? && phase.job.task in before && after.Keys == before.Keys && phase.job.attempt >= 1
    && (forall id :: id in before && id != phase.job.task ==> after[id] == before[id])
    && var t, t', wait := before[phase.job.task], after[phase.job.task], RetryDelay(backoffMs, phase.job.attempt);
       && t.attempt == phase.job.attempt && t.maxRetries == phase.job.maxRetries
       && (t'.status.Completed? <==> phase.outcome.Success?)
       && (t'.status.Failed? <==> phase.outcome.Failure? && t.attempt > t.maxRetries)
       && (t'.status.Pending? <==> phase.outcome.Failure? && t.attempt <= t.maxRetries)
       && t' == t.(status := t'.status, updatedAt := now, nextRunAt := if t'.status.Pending? then now + wait else t.nextRunAt)
       && phase' == if t'.status.Pending? then Arming(phase.job.task, wait) else Draining
  }

  lemma AttemptIsProcessed(
    before: Tasks, taken: Tasks, after: Tasks, timers: multiset<Timer>, id: string, name: string,
    outcome: Outcome, phase: Phase, now: int, backoffMs: int)
    requires Takes(before, id, name, now) && before[id].attempt >= 0
    requires taken == before[id := before[id].(status := Running, attempt := before[id].attempt + 1, updatedAt := now)]
    requires OutcomeWritten(taken, after, Finishing(Job(id, before[id].attempt + 1, before[id].maxRetries), outcome), phase, now, backoffMs)
    ensures phase.Arming? ==> phase.task == id
    ensures var timers' := if phase.Arming? then timers + multiset{Timer(name, id, now + phase.backoff)} else timers;
            Processed(before, after, timers, timers', id, outcome, now, backoffMs)
  {
    hide RetryDelay;
    var t := taken[id];
    assert after == before[id := after[id]];
  }

  lemma AttemptsAreCounted(s: State, id: string)
    requires Invariant(s) && id in s.tasks
    ensures s.tasks[id].attempt >= 0
  {
  }

  /** One attempt at a task has been made, and a timer set if it is to be retried. */
  ghost predicate Processed(
    before: Tasks, after: Tasks, timers: multiset<Timer>, timers': multiset<Timer>, id: string, outcome: Outcome, now: int, backoffMs: int)
  {
    id in before && before[id].attempt >= 0 &&
    var t, attempt := before[id], before[id].attempt + 1;
    var retry, wait := outcome.Failure? && attempt <= t.maxRetries, RetryDelay(backoffMs, attempt);
    && after == before[id := t.(
         status := if outcome.Success? then Completed else if retry then Pending else Failed,
         attempt := attempt, updatedAt := now, nextRunAt := if retry then now + wait else t.nextRunAt)]
    && timers' == if retry then timers + multiset{Timer(t.queue, id, now + wait)} else timers
  }

  lemma CleanedRows(before: Tasks, after: Tasks, queues: map<string, QueueConfig>, now: int)
    requires CleanedUp(before, after, queues, queues.Keys, now)
    ensures forall id :: id in after ==> id in before && after[id] == before[id]
    ensures forall id :: id in before ==> var t := before[id];
              (id !in after <==> && (t.status.Completed? || t.status.Failed? || t.status.Cancelled?)
                                 && t.queue in queues && t.updatedAt + queues[t.queue].retentionMs < now)
  {
  }

  function PendingIn(tasks: Tasks, name: string): set<string> {
    set id | id in tasks && tasks[id].status.Pending? && tasks[id].queue == name
  }

  lemma FirstIsNext(tasks: Tasks, name: string, now: int, eligible: set<string>, id: string)
    requires eligible == set o | o in tasks && Eligible(tasks, name, now, o)
    requires id in eligible && forall o :: o in eligible ==> Before(tasks[id], tasks[o])
    ensures Next(tasks, name, now, id)
  {
    forall o | o in tasks && Eligible(tasks, name, now, o)
      ensures Before(tasks[id], tasks[o])
    {
      assert o in eligible;
    }
  }

  lemma NothingCleanedYet(tasks: Tasks, queues: map<string, QueueConfig>, now: int)
    ensures CleanedUp(tasks, tasks, queues, queues.Keys - queues.Keys, now)
  {
  }

  lemma OneQueueCleaned(start: Tasks, tasks: Tasks, queues: map<string, QueueConfig>, done: set<string>, name: string, now: int)
    requires name in queues && CleanedUp(start, tasks, queues, done, now)
    ensures CleanedUp(start, DeleteExpired(tasks, name, queues[name].retentionMs, now), queues, done + {name}, now)
  {
  }
}
