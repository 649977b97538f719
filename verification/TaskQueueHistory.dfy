/**
 What the recorded facts about the past mean: the counters are the numbers of the events
 they are about, and every flag has an event behind it.
 */
module TaskQueueHistory {
  import opened TaskQueueModel
  import opened TaskQueueOwnership

  // ----- Counters -----

  datatype Kind = CallbackStarts | KeepingReset | TakingBack

  /** The event starts the task's callback, resets its row with the attempt kept, or takes its attempt back. */
  predicate Happens(s: State, e: Event, kind: Kind, id: string) {
    match kind
    case CallbackStarts => e.Start? && e.w in s.workers && s.workers[e.w].Waiting? && s.workers[e.w].job.task == id
    case KeepingReset =>
      && id in s.tasks && s.tasks[id].status.Running?
      && (e.CloseReset? || (e.CreateQueue? && s.tasks[id].queue == e.name))
    case TakingBack =>
      && e.Revert? && e.ok && e.w in s.workers && s.workers[e.w].Reverting? && s.workers[e.w].job.task == id
      && id in s.tasks && s.tasks[id].status.Running?
  }

  /** How often it has happened in the first n events. */
  ghost function Tally(states: seq<State>, events: seq<Event>, n: nat, kind: Kind, id: string): nat
    requires n <= |events| < |states|
  {
    if n == 0 then 0
    else Tally(states, events, n - 1, kind, id) + if Happens(states[n - 1], events[n - 1], kind, id) then 1 else 0
  }

  function Counter(h: History, kind: Kind, id: string): nat {
    match kind
    case CallbackStarts => Count(h.starts, id)
    case KeepingReset => Count(h.resets, id)
    case TakingBack => Count(h.reverts, id)
  }

  lemma CounterStep(s: State, e: Event, kind: Kind, id: string)
    requires Enabled(s, e) && WellDefined(s, e)
    ensures Counter(NewHistory(s, e), kind, id) == Counter(s.history, kind, id) + if Happens(s, e, kind, id) then 1 else 0
  {
    hide NewLate, Granted, Allocated;
  }

  lemma {:induction false} CountersTally(states: seq<State>, events: seq<Event>, n: nat, kind: Kind, id: string)
    requires IsRun(states, events) && n < |states|
    ensures Counter(states[n].history, kind, id) == Tally(states, events, n, kind, id)
  {
    hide Apply, Enabled, WellDefined, Happens, Counter;
    if n == 0 {
      NothingCounted(states[0], kind, id);
    } else {
      CountersTally(states, events, n - 1, kind, id);
      RunStep(states, events, n - 1);
      ApplyFields(states[n - 1], events[n - 1]);
      CounterStep(states[n - 1], events[n - 1], kind, id);
    }
  }

  lemma NothingCounted(s: State, kind: Kind, id: string)
    requires Init(s)
    ensures Counter(s.history, kind, id) == 0
  {
  }

  // ----- Flags -----

  datatype Mark = Inherited(id: string) | PollFailed | ClosedDown

  /** The event gives cause for the mark. */
  predicate Sets(s: State, e: Event, mark: Mark) {
    match mark
    case Inherited(id) =>
      e.CreateQueue? && id in s.tasks && s.tasks[id].queue == e.name && s.tasks[id].nextRunAt > s.clock
    case PollFailed => e.DequeueError? || (e.Dequeue? && e.lost)
    case ClosedDown => e.CloseReset?
  }

  predicate Ends(e: Event, mark: Mark) {
    e.Restart? || (mark.Inherited? && e.Dequeue? && e.id == mark.id)
  }

  /** Something has given cause for it, and nothing has ended it since. */
  ghost predicate Holds(states: seq<State>, events: seq<Event>, n: nat, mark: Mark)
    requires n <= |events| < |states|
  {
    exists i :: 0 <= i < n && Sets(states[i], events[i], mark) && forall k :: i < k < n ==> !Ends(events[k], mark)
  }

  predicate Marked(h: History, mark: Mark) {
    match mark
    case Inherited(id) => id in h.late
    case PollFailed => h.pollFailed
    case ClosedDown => h.closeReset
  }

  lemma MarkStep(s: State, e: Event, mark: Mark)
    requires Enabled(s, e) && WellDefined(s, e)
    ensures Marked(NewHistory(s, e), mark) <==> Sets(s, e, mark) || (Marked(s.history, mark) && !Ends(e, mark))
  {
    hide Granted, Allocated;
  }

  lemma {:induction false} MarksHold(states: seq<State>, events: seq<Event>, n: nat, mark: Mark)
    requires IsRun(states, events) && n < |states|
    ensures Marked(states[n].history, mark) <==> Holds(states, events, n, mark)
  {
    hide Apply, Enabled, WellDefined, Marked, Sets, Ends;
    if n == 0 {
      NothingMarked(states[0], mark);
    } else {
      MarksHold(states, events, n - 1, mark);
      RunStep(states, events, n - 1);
      ApplyFields(states[n - 1], events[n - 1]);
      MarkStep(states[n - 1], events[n - 1], mark);
      HoldsFurther(states, events, n - 1, mark);
    }
  }

  lemma NothingMarked(s: State, mark: Mark)
    requires Init(s)
    ensures !Marked(s.history, mark)
  {
  }

  lemma HoldsFurther(states: seq<State>, events: seq<Event>, n: nat, mark: Mark)
    requires n < |events| < |states|
    ensures Holds(states, events, n + 1, mark)
            <==> Sets(states[n], events[n], mark) || (Holds(states, events, n, mark) && !Ends(events[n], mark))
  {
    hide Sets, Ends;
    if Holds(states, events, n, mark) && !Ends(events[n], mark) {
      var i :| 0 <= i < n && Sets(states[i], events[i], mark) && forall k :: i < k < n ==> !Ends(events[k], mark);
      assert forall k :: i < k < n + 1 ==> !Ends(events[k], mark);
    }
    if Holds(states, events, n + 1, mark) && !Sets(states[n], events[n], mark) {
      var i :| 0 <= i < n + 1 && Sets(states[i], events[i], mark) && forall k :: i < k < n + 1 ==> !Ends(events[k], mark);
      assert i < n && !Ends(events[n], mark);
    }
  }
}
