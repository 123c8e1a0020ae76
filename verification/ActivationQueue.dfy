/**
 * The queue of workflows whose activation failed. Each is retried on a timer with exponential backoff.
 * A retry is asynchronous: between the firing of its timer and its outcome, other calls may run.
 */
module ActivationQueue {
  import opened Arithmetic

  type WorkflowId = string
  type TimerId = nat

  const INITIAL_TIMEOUT := 1000
  const MAX_TIMEOUT := 24 * 60 * 60 * 1000

  datatype Entry = Entry(lastTimeout: nat, timer: TimerId)
  datatype Timer = Timer(workflowId: WorkflowId, delay: nat)

  /** `inFlight` maps a fired timer to the workflow its retry is activating. */
  datatype Queue = Queue(queued: map<WorkflowId, Entry>, timers: map<TimerId, Timer>,
                         inFlight: map<TimerId, WorkflowId>, next: TimerId)

  /** How a retry ends: activated; skipped, because the workflow is archived or no longer active; failed; or
      activated and taken off the queue, and then failed to record that. */
  datatype Outcome = Activated | Skipped | Failed(isolateError: bool) | FailedLate

  datatype Event =
    | Add(id: WorkflowId)
    | Remove(id: WorkflowId)
    | RemoveAll
    | Fire(t: TimerId)
    | Finish(t: TimerId, id: WorkflowId, outcome: Outcome)

  const EMPTY := Queue(map[], map[], map[], 0)

  function Escalate(lastTimeout: nat, isolateError: bool): nat {
    if !isolateError && lastTimeout < MAX_TIMEOUT then Min(lastTimeout * 2, MAX_TIMEOUT) else lastTimeout
  }

  function Arm(s: Queue, id: WorkflowId, timeout: nat): Queue {
    s.(queued := s.queued[id := Entry(timeout, s.next)],
       timers := s.timers[s.next := Timer(id, timeout)],
       next := s.next + 1)
  }

  function Drop(s: Queue, id: WorkflowId): Queue {
    if id in s.queued then s.(timers := s.timers - {s.queued[id].timer}, queued := s.queued - {id}) else s
  }

  /** The queue without the entries of `ids` and their timers. */
  function Without(s: Queue, ids: set<WorkflowId>): Queue {
    s.(timers := s.timers - (set id | id in ids && id in s.queued :: s.queued[id].timer), queued := s.queued - ids)
  }

  predicate Enabled(s: Queue, e: Event) {
    && (e.Fire? ==> e.t in s.timers)
    && (e.Finish? ==> e.t in s.inFlight && s.inFlight[e.t] == e.id)
  }

  function Apply(s: Queue, e: Event): Queue
    requires Enabled(s, e)
  {
    match e
    case Add(id) => Arm(Drop(s, id), id, INITIAL_TIMEOUT)
    case Remove(id) => Drop(s, id)
    case RemoveAll => Without(s, s.queued.Keys)
    case Fire(t) => s.(timers := s.timers - {t}, inFlight := s.inFlight[t := s.timers[t].workflowId])
    case Finish(t, id, Activated) => Drop(s, id).(inFlight := s.inFlight - {t})
    case Finish(t, id, FailedLate) => Drop(s, id).(inFlight := s.inFlight - {t})
    case Finish(t, _, Skipped) => s.(inFlight := s.inFlight - {t})
    case Finish(t, id, Failed(isolateError)) =>
      var landed := s.(inFlight := s.inFlight - {t});
      // Without an entry the retry ends in an exception.
      if id in s.queued then Arm(landed, id, Escalate(s.queued[id].lastTimeout, isolateError)) else landed
  }

  // ---------------------------------------------------------------- Backoff over whole runs

  predicate Legal(run: seq<Event>)
    decreases |run|, 0
  {
    run == [] || (Legal(run[..|run| - 1]) && Enabled(Run(run[..|run| - 1]), run[|run| - 1]))
  }

  function Run(run: seq<Event>): Queue
    requires Legal(run)
    decreases |run|, 1
  {
    if run == [] then EMPTY else Apply(Run(run[..|run| - 1]), run[|run| - 1])
  }

  /** Failures of retries of `id` that are not isolate errors, since it was last queued. */
  function FailuresSinceAdd(run: seq<Event>, id: WorkflowId): nat {
    if run == [] then 0
    else
      Counted(FailuresSinceAdd(run[..|run| - 1], id), run[|run| - 1], id)
  }

  function Counted(k: nat, e: Event, id: WorkflowId): nat {
    if e == Add(id) then 0
    else if e.Finish? && e.id == id && e.outcome == Failed(false) then k + 1
    else k
  }

  function Backoff(k: nat): nat {
    Min(INITIAL_TIMEOUT * Power2(k), MAX_TIMEOUT)
  }

  lemma EscalatesBackoff(k: nat)
    ensures Escalate(Backoff(k), false) == Backoff(k + 1) && Escalate(Backoff(k), true) == Backoff(k)
    ensures Backoff(k) <= Backoff(k + 1)
  {
    assert Power2(k + 1) == 2 * Power2(k);
  }

  lemma StepBacksOff(s: Queue, e: Event, id: WorkflowId, k: nat)
    requires Enabled(s, e) && id in Apply(s, e).queued
    requires id in s.queued ==> s.queued[id].lastTimeout == Backoff(k)
    ensures Apply(s, e).queued[id].lastTimeout == Backoff(Counted(k, e, id))
  {
    EscalatesBackoff(k);
  }

  /** In every run, whatever interleaves, the timeout of a queued workflow is min(1000 * 2^k, one day) for the
      k failures since it was queued that are not isolate errors. */
  lemma {:induction false} TimeoutIsBackoff(run: seq<Event>, id: WorkflowId)
    requires Legal(run) && id in Run(run).queued
    ensures Run(run).queued[id].lastTimeout == Backoff(FailuresSinceAdd(run, id))
    ensures Run(run).queued[id].lastTimeout == Min(1000 * Power2(FailuresSinceAdd(run, id)), 86400000)
  {
    var init, last := run[..|run| - 1], run[|run| - 1];
    if id in Run(init).queued {
      TimeoutIsBackoff(init, id);
    }
    StepBacksOff(Run(init), last, id, FailuresSinceAdd(init, id));
  }

  /** The day-long cap is reached with the seventeenth failure, never earlier. */
  lemma CappedAtSeventeen(k: nat)
    ensures Backoff(k) == MAX_TIMEOUT <==> k >= 17
    ensures INITIAL_TIMEOUT <= Backoff(k) <= MAX_TIMEOUT
    ensures Backoff(0) == 1000 && Backoff(16) == 65536000 && Backoff(17) == 86400000
    ensures k < 16 ==> Backoff(k + 1) == 2 * Backoff(k)
  {
    assert Power2(4) == 16;
    assert Power2(8) == 256;
    assert Power2(12) == 4096;
    assert Power2(16) == 65536;
    assert Power2(17) == 131072;
    if k >= 17 {
      Power2Grows(17, k);
    } else {
      Power2Grows(k, 16);
    }
  }

  // ---------------------------------------------------------------- One timer a workflow

  predicate Fresh(s: Queue) {
    && (forall t :: t in s.timers ==> t < s.next)
    && (forall t :: t in s.inFlight ==> t < s.next)
    && (forall id :: id in s.queued ==> s.queued[id].timer < s.next)
    && s.timers.Keys !! s.inFlight.Keys
  }

  /** Every queued workflow waits for its own timer or for the retry that timer started, and there are no
      other timers or retries. */
  predicate Healthy(s: Queue) {
    && (forall id :: id in s.queued ==> Attended(s, id))
    && (forall t :: t in s.timers ==>
          && s.timers[t].workflowId in s.queued && s.queued[s.timers[t].workflowId].timer == t
          && s.timers[t].delay == s.queued[s.timers[t].workflowId].lastTimeout)
    && (forall t :: t in s.inFlight ==> s.inFlight[t] in s.queued && s.queued[s.inFlight[t]].timer == t)
  }

  predicate Attended(s: Queue, id: WorkflowId)
    requires id in s.queued
  {
    var t := s.queued[id].timer;
    (t in s.timers && s.timers[t].workflowId == id) || (t in s.inFlight && s.inFlight[t] == id)
  }

  function TimersOf(s: Queue, id: WorkflowId): set<TimerId> {
    set t | t in s.timers && s.timers[t].workflowId == id
  }

  lemma FreshStep(s: Queue, e: Event)
    requires Fresh(s) && Enabled(s, e)
    ensures Fresh(Apply(s, e))
  {
  }

  lemma {:induction false} RunsStayFresh(run: seq<Event>)
    requires Legal(run)
    ensures Fresh(Run(run))
  {
    if run != [] {
      RunsStayFresh(run[..|run| - 1]);
      FreshStep(Run(run[..|run| - 1]), run[|run| - 1]);
    }
  }

  predicate Retrying(s: Queue, id: WorkflowId) {
    id in s.inFlight.Values
  }

  /** The steps that spoil the queue: queueing or removing a workflow while its retry is in flight, and a retry
      that is skipped, which leaves its entry behind. */
  predicate KeepsHealthy(s: Queue, e: Event) {
    match e
    case Add(id) => !Retrying(s, id)
    case Remove(id) => !Retrying(s, id)
    case RemoveAll => s.inFlight == map[]
    case Fire(_) => true
    case Finish(_, _, outcome) => !outcome.Skipped?
  }

  lemma FinishHealthyExactly(s: Queue, e: Event)
    requires Fresh(s) && Healthy(s) && Enabled(s, e) && e.Finish?
    ensures Healthy(Apply(s, e)) <==> KeepsHealthy(s, e)
  {
  }

  lemma HealthyExactly(s: Queue, e: Event)
    requires Fresh(s) && Healthy(s) && Enabled(s, e)
    ensures Healthy(Apply(s, e)) <==> KeepsHealthy(s, e)
  {
    if e.Finish? {
      FinishHealthyExactly(s, e);
    }
  }

  /** Along a run of such steps, every queued workflow not being retried has exactly one pending timer, with
      the backoff for its failures as the delay, and one being retried has none. */
  lemma {:induction false} OnePendingTimer(run: seq<Event>, id: WorkflowId)
    requires Legal(run) && Undisturbed(run)
    ensures Healthy(Run(run))
    ensures var s := Run(run);
            id in s.queued ==>
              TimersOf(s, id) == if Retrying(s, id) then {} else {s.queued[id].timer}
    ensures var s := Run(run);
            forall t :: t in TimersOf(s, id) ==> s.timers[t].delay == Backoff(FailuresSinceAdd(run, id))
  {
    RunsStayFresh(run);
    UndisturbedHealthy(run);
    var s := Run(run);
    if id in s.queued {
      assert Attended(s, id);
      TimeoutIsBackoff(run, id);
      assert s.queued[id].timer in s.inFlight ==> s.inFlight[s.queued[id].timer] in s.inFlight.Values;
    }
  }

  /** A retry is followed by another one exactly if it failed with its workflow still in the queue: not if it
      activated the workflow, not if it was skipped, and not if it failed after taking it off the queue. */
  lemma RetriedExactly(s: Queue, t: TimerId, id: WorkflowId, outcome: Outcome)
    requires Fresh(s) && Healthy(s) && Enabled(s, Finish(t, id, outcome))
    ensures TimersOf(Apply(s, Finish(t, id, outcome)), id) != {} <==> outcome.Failed?
  {
    if outcome.Failed? {
      assert s.next in TimersOf(Apply(s, Finish(t, id, outcome)), id);
    }
  }

  /** No timer and no retry: nothing will activate the workflow, whether it still has an entry or not. */
  predicate GivenUp(s: Queue, id: WorkflowId) {
    TimersOf(s, id) == {} && !Retrying(s, id)
  }

  lemma GivenUpStep(s: Queue, e: Event, id: WorkflowId)
    requires Enabled(s, e) && GivenUp(s, id) && e != Add(id)
    ensures GivenUp(Apply(s, e), id)
    ensures id !in s.queued ==> id !in Apply(s, e).queued
  {
    var s' := Apply(s, e);
    assert forall t :: t in s.timers ==> t in TimersOf(s, id) || s.timers[t].workflowId != id;
    assert forall t :: t in s.inFlight ==> s.inFlight[t] in s.inFlight.Values;
    forall t | t in s'.inFlight
      ensures s'.inFlight[t] != id
    {
    }
    forall t | t in s'.timers
      ensures s'.timers[t].workflowId != id
    {
    }
  }

  lemma EndGivesUp(s: Queue, t: TimerId, id: WorkflowId, outcome: Outcome)
    requires Fresh(s) && Healthy(s) && Enabled(s, Finish(t, id, outcome)) && !outcome.Failed?
    ensures GivenUp(Apply(s, Finish(t, id, outcome)), id)
    ensures id in Apply(s, Finish(t, id, outcome)).queued <==> outcome.Skipped?
  {
    var s' := Apply(s, Finish(t, id, outcome));
    forall u | u in s'.timers
      ensures s'.timers[u].workflowId != id
    {
    }
    forall u | u in s'.inFlight
      ensures s'.inFlight[u] != id
    {
    }
  }

  /** With any other end the workflow is not retried in any later run until it is queued anew, although a late
      failure is reported as one and a skipped retry leaves the workflow's entry behind. */
  lemma {:induction false} OtherEndsAreFinal(run: seq<Event>, t: TimerId, id: WorkflowId, outcome: Outcome, more: seq<Event>)
    requires Legal(run) && Undisturbed(run) && Enabled(Run(run), Finish(t, id, outcome)) && !outcome.Failed?
    requires Legal(run + [Finish(t, id, outcome)] + more) && Add(id) !in more
    ensures var s := Run(run + [Finish(t, id, outcome)] + more);
            GivenUp(s, id) && (!outcome.Skipped? ==> id !in s.queued)
    decreases |more|
  {
    var ended := run + [Finish(t, id, outcome)];
    if more == [] {
      assert ended + more == ended && ended[..|run|] == run;
      RunsStayFresh(run);
      UndisturbedHealthy(run);
      EndGivesUp(Run(run), t, id, outcome);
    } else {
      var init, last := more[..|more| - 1], more[|more| - 1];
      assert (ended + more)[..|ended + more| - 1] == ended + init;
      OtherEndsAreFinal(run, t, id, outcome, init);
      GivenUpStep(Run(ended + init), last, id);
    }
  }

  const RETRYING := [Add("w"), Fire(0)]

  /** Both are reached: a retry in flight in an undisturbed run, which may fail late or be skipped. */
  lemma LateFailureAndSkipReached()
    ensures Legal(RETRYING) && Undisturbed(RETRYING)
    ensures Enabled(Run(RETRYING), Finish(0, "w", FailedLate)) && Enabled(Run(RETRYING), Finish(0, "w", Skipped))
    ensures var s := Apply(Run(RETRYING), Finish(0, "w", FailedLate)); "w" !in s.queued && GivenUp(s, "w")
    ensures var s := Apply(Run(RETRYING), Finish(0, "w", Skipped)); "w" in s.queued && GivenUp(s, "w")
  {
    RunSnoc([], Add("w"));
    RunSnoc([] + [Add("w")], Fire(0));
    assert RETRYING == [] + [Add("w")] + [Fire(0)];
    assert RETRYING[..1] == [] + [Add("w")] && ([] + [Add("w")])[..0] == [];
    assert !Retrying(EMPTY, "w");
    assert Undisturbed([] + [Add("w")]);
    RunsStayFresh(RETRYING);
    UndisturbedHealthy(RETRYING);
    EndGivesUp(Run(RETRYING), 0, "w", FailedLate);
    EndGivesUp(Run(RETRYING), 0, "w", Skipped);
  }

  predicate Undisturbed(run: seq<Event>)
    requires Legal(run)
  {
    run == [] || (Undisturbed(run[..|run| - 1]) && KeepsHealthy(Run(run[..|run| - 1]), run[|run| - 1]))
  }

  lemma {:induction false} UndisturbedHealthy(run: seq<Event>)
    requires Legal(run) && Undisturbed(run)
    ensures Healthy(Run(run))
  {
    if run != [] {
      UndisturbedHealthy(run[..|run| - 1]);
      RunsStayFresh(run[..|run| - 1]);
      HealthyExactly(Run(run[..|run| - 1]), run[|run| - 1]);
    }
  }

  const REQUEUED := [Add("w"), Fire(0), Add("w"), Finish(0, "w", Failed(false))]

  lemma RunSnoc(run: seq<Event>, e: Event)
    requires Legal(run) && Enabled(Run(run), e)
    ensures Legal(run + [e]) && Run(run + [e]) == Apply(Run(run), e)
  {
    assert (run + [e])[..|run|] == run;
  }

  /** Queueing a workflow again while its retry is in flight, and then that retry failing, leaves it with two
      timers; removing it from the queue cancels only the later one. */
  lemma RequeuedDuringRetry()
    ensures Legal(REQUEUED) && TimersOf(Run(REQUEUED), "w") == {1, 2}
    ensures TimersOf(Apply(Run(REQUEUED), Remove("w")), "w") == {1}
  {
    RunSnoc([], REQUEUED[0]);
    RunSnoc([] + [REQUEUED[0]], REQUEUED[1]);
    RunSnoc([] + [REQUEUED[0]] + [REQUEUED[1]], REQUEUED[2]);
    RunSnoc([] + [REQUEUED[0]] + [REQUEUED[1]] + [REQUEUED[2]], REQUEUED[3]);
    assert REQUEUED == [] + [REQUEUED[0]] + [REQUEUED[1]] + [REQUEUED[2]] + [REQUEUED[3]];
    var s := Run(REQUEUED);
    assert s.queued["w"] == Entry(2000, 2) && s.timers.Keys == {1, 2};
  }

  // ---------------------------------------------------------------- The queue itself

  /** Emptying the queue clears the timers that entries stand for, and no other timer and no retry. */
  lemma RemoveAllExactly(s: Queue)
    ensures var s' := Apply(s, RemoveAll);
            && s'.queued == map[] && s'.inFlight == s.inFlight && s'.next == s.next
            && (forall t :: t in s'.timers <==> t in s.timers && forall id :: id in s.queued ==> s.queued[id].timer != t)
            && (forall t :: t in s'.timers ==> s'.timers[t] == s.timers[t])
  {
  }

  lemma DropsOneMore(s: Queue, ids: set<WorkflowId>, id: WorkflowId)
    requires id in s.queued && id !in ids
    ensures Drop(Without(s, ids), id) == Without(s, ids + {id})
  {
    var before, after := Without(s, ids), Without(s, ids + {id});
    assert before.queued[id] == s.queued[id];
    assert before.timers - {s.queued[id].timer} == after.timers;
    assert before.queued - {id} == after.queued;
  }

  class ActivationQueue {
    var queuedActivations: map<WorkflowId, Entry>
    var timers: map<TimerId, Timer>
    var inFlight: map<TimerId, WorkflowId>
    var nextTimer: TimerId

    function State(): Queue
      reads this
    {
      Queue(queuedActivations, timers, inFlight, nextTimer)
    }

    constructor ()
      ensures State() == EMPTY
    {
      queuedActivations, timers, inFlight, nextTimer := map[], map[], map[], 0;
    }

    method SetTimeout(id: WorkflowId, timeout: nat)
      modifies this
      ensures State() == Arm(old(State()), id, timeout)
      ensures timers == old(timers)[old(nextTimer) := Timer(id, timeout)]
      ensures queuedActivations == old(queuedActivations)[id := Entry(timeout, old(nextTimer))]
      ensures nextTimer == old(nextTimer) + 1 && inFlight == old(inFlight)
    {
      timers := timers[nextTimer := Timer(id, timeout)];
      queuedActivations := queuedActivations[id := Entry(timeout, nextTimer)];
      nextTimer := nextTimer + 1;
    }

    method AddQueuedWorkflowActivation(id: WorkflowId)
      modifies this
      ensures State() == Apply(old(State()), Add(id))
      ensures queuedActivations == old(queuedActivations)[id := Entry(1000, old(nextTimer))]
      ensures timers == (if id in old(queuedActivations) then old(timers) - {old(queuedActivations)[id].timer} else old(timers))
                        [old(nextTimer) := Timer(id, 1000)]
      ensures nextTimer == old(nextTimer) + 1 && inFlight == old(inFlight)
    {
      RemoveQueuedWorkflowActivation(id);
      SetTimeout(id, INITIAL_TIMEOUT);
    }

    method RemoveQueuedWorkflowActivation(id: WorkflowId)
      modifies this
      ensures State() == Drop(old(State()), id)
      ensures queuedActivations == old(queuedActivations) - {id}
      ensures timers == old(timers) - if id in old(queuedActivations) then {old(queuedActivations)[id].timer} else {}
      ensures unchanged(`nextTimer, `inFlight)
    {
      if id in queuedActivations {
        timers := timers - {queuedActivations[id].timer};
        queuedActivations := queuedActivations - {id};
      }
    }

    method RemoveAllQueuedWorkflowActivations()
      modifies this
      ensures State() == Apply(old(State()), RemoveAll)
    {
      ghost var start := State();
      ghost var done: set<WorkflowId> := {};
      assert Without(start, {}).timers == timers && Without(start, {}).queued == queuedActivations;
      var ids := queuedActivations.Keys;
      while ids != {}
        invariant State() == Without(start, done) && done !! ids && done + ids == start.queued.Keys
        decreases ids
      {
        var id :| id in ids;
        DropsOneMore(start, done, id);
        RemoveQueuedWorkflowActivation(id);
        done, ids := done + {id}, ids - {id};
      }
    }

    method TimerFires(t: TimerId)
      requires t in timers
      modifies this
      ensures State() == Apply(old(State()), Fire(t))
      ensures timers == old(timers) - {t} && inFlight == old(inFlight)[t := old(timers)[t].workflowId]
      ensures unchanged(`queuedActivations, `nextTimer)
    {
      inFlight := inFlight[t := timers[t].workflowId];
      timers := timers - {t};
    }

    /** The rest of the retry, once the activation has ended. */
    method RetryEnds(t: TimerId, id: WorkflowId, outcome: Outcome)
      requires t in inFlight && inFlight[t] == id
      modifies this
      ensures State() == Apply(old(State()), Finish(t, id, outcome))
      ensures inFlight == old(inFlight) - {t}
      ensures outcome in {Activated, FailedLate} ==>
              && queuedActivations == old(queuedActivations) - {id} && nextTimer == old(nextTimer)
              && timers == old(timers) - if id in old(queuedActivations) then {old(queuedActivations)[id].timer} else {}
      ensures outcome == Skipped || (outcome.Failed? && id !in old(queuedActivations)) ==>
              unchanged(`queuedActivations, `timers, `nextTimer)
      ensures outcome.Failed? && id in old(queuedActivations) ==>
              var last := old(queuedActivations)[id].lastTimeout;
              var timeout := if outcome.isolateError || last >= 86400000 then last
                             else if last * 2 <= 86400000 then last * 2 else 86400000;
              && queuedActivations == old(queuedActivations)[id := Entry(timeout, old(nextTimer))]
              && timers == old(timers)[old(nextTimer) := Timer(id, timeout)] && nextTimer == old(nextTimer) + 1
    {
      inFlight := inFlight - {t};
      match outcome
      case Activated => RemoveQueuedWorkflowActivation(id);
      case FailedLate =>
        // The handler looks for the entry that the activation has just removed, and ends in an exception.
        RemoveQueuedWorkflowActivation(id);
      case Skipped =>
      case Failed(isolateError) =>
        if id !in queuedActivations {
          return;
        }
        var lastTimeout := queuedActivations[id].lastTimeout;
        if !isolateError && lastTimeout < MAX_TIMEOUT {
          lastTimeout := Min(lastTimeout * 2, MAX_TIMEOUT);
        }
        SetTimeout(id, lastTimeout);
    }
  }
}
