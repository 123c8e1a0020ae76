/** The queue behind the concurrency limit: who is admitted, who waits, and when the limit really holds. */
module ConcurrencyQueue {
  import opened Wrappers

  type ExecutionId = string

  /** `running` are the executions let through that have not given their slot back yet. */
  datatype Queue = Queue(limit: nat, capacity: int, waiting: seq<ExecutionId>, running: multiset<ExecutionId>)

  datatype Event = Enqueue(id: ExecutionId) | Dequeue(holder: ExecutionId) | Remove(id: ExecutionId)

  function Created(limit: nat): Queue {
    Queue(limit, limit, [], multiset{})
  }

  function FindIndex(s: seq<ExecutionId>, id: ExecutionId): (i: Option<nat>)
    ensures i.Some? <==> id in s
    ensures i.Some? ==> i.value < |s| && s[i.value] == id && id !in s[..i.value]
  {
    if s == [] then None
    else if s[0] == id then Some(0)
    else match FindIndex(s[1..], id)
      case None => None
      case Some(i) => assert s[1..][..i] == s[1..i + 1]; assert s[..i + 1] == [s[0]] + s[1..i + 1]; Some(i + 1)
  }

  function ResolveNext(q: Queue): Queue {
    if q.waiting == [] then q
    else q.(waiting := q.waiting[1..], running := q.running + multiset{q.waiting[0]})
  }

  function Apply(q: Queue, e: Event): Queue {
    match e
    case Enqueue(id) =>
      var q' := q.(capacity := q.capacity - 1);
      if q'.capacity < 0 then q'.(waiting := q.waiting + [id]) else q'.(running := q.running + multiset{id})
    case Dequeue(holder) =>
      ResolveNext(q.(capacity := q.capacity + 1, running := q.running - multiset{holder}))
    case Remove(id) =>
      match FindIndex(q.waiting, id)
      case None => q
      case Some(i) => ResolveNext(q.(capacity := q.capacity + 1, waiting := q.waiting[..i] + q.waiting[i + 1..]))
  }

  /** Only an admitted execution gives a slot back. */
  predicate Enabled(q: Queue, e: Event) {
    e.Dequeue? ==> e.holder in q.running
  }

  function After(q: Queue, events: seq<Event>): Queue {
    if events == [] then q else Apply(After(q, events[..|events| - 1]), events[|events| - 1])
  }

  ghost predicate IsRun(q: Queue, events: seq<Event>) {
    forall i :: 0 <= i < |events| ==> Enabled(After(q, events[..i]), events[i])
  }

  // ---------------------------------------------------------------- conservation

  predicate Conserved(q: Queue) {
    q.capacity == q.limit - |q.running| - |q.waiting|
  }

  lemma ApplyConserves(q: Queue, e: Event)
    requires Conserved(q) && Enabled(q, e)
    ensures Conserved(Apply(q, e)) && Apply(q, e).limit == q.limit
  {
  }

  /** In every run the counter is the limit less the admitted and the waiting executions. */
  lemma {:induction false} RunConserves(limit: nat, events: seq<Event>)
    requires IsRun(Created(limit), events)
    ensures Conserved(After(Created(limit), events)) && After(Created(limit), events).limit == limit
  {
    if events != [] {
      var before := events[..|events| - 1];
      RunPrefix(Created(limit), events, |events| - 1);
      RunConserves(limit, before);
      ApplyConserves(After(Created(limit), before), events[|events| - 1]);
    }
  }

  lemma RunPrefix(q: Queue, events: seq<Event>, n: nat)
    requires IsRun(q, events) && n <= |events|
    ensures IsRun(q, events[..n])
  {
    forall i | 0 <= i < n ensures Enabled(After(q, events[..n][..i]), events[..n][i]) {
      assert events[..n][..i] == events[..i];
    }
  }

  // ---------------------------------------------------------------- the limit

  /** No more are admitted than the limit allows, and nobody waits while a slot is free. */
  predicate Capped(q: Queue) {
    |q.running| <= q.limit && (q.waiting != [] ==> |q.running| == q.limit)
  }

  /** The event takes a waiting execution out of the queue while another one waits. */
  predicate JumpsQueue(q: Queue, e: Event) {
    e.Remove? && e.id in q.waiting && |q.waiting| >= 2
  }

  /** One step keeps the limit exactly when it does not remove one of several waiting executions. */
  lemma StepCapped(q: Queue, e: Event)
    requires Conserved(q) && Capped(q) && Enabled(q, e)
    ensures Capped(Apply(q, e)) <==> !JumpsQueue(q, e)
    ensures JumpsQueue(q, e) ==> |Apply(q, e).running| == q.limit + 1
  {
  }

  ghost predicate JumpsAt(q: Queue, events: seq<Event>, i: nat)
    requires i < |events|
  {
    JumpsQueue(After(q, events[..i]), events[i])
  }

  /**
   * The limit holds all along a run exactly when no removal hits one of several waiting
   * executions: such a removal hands the next one a slot that nobody gave back.
   */
  lemma {:induction false} LimitHoldsIff(limit: nat, events: seq<Event>)
    requires IsRun(Created(limit), events)
    ensures (forall i :: 0 <= i <= |events| ==> |After(Created(limit), events[..i]).running| <= limit)
       <==> (forall i :: 0 <= i < |events| ==> !JumpsAt(Created(limit), events, i))
  {
    var q := Created(limit);
    if j :| 0 <= j < |events| && JumpsAt(q, events, j) {
      var i := FirstJump(q, events, j);
      JumpBreaksLimit(limit, events, i);
    } else {
      forall i | 0 <= i <= |events| ensures |After(q, events[..i]).running| <= limit {
        CappedBeforeJump(limit, events, i);
      }
    }
  }

  lemma JumpBreaksLimit(limit: nat, events: seq<Event>, i: nat)
    requires IsRun(Created(limit), events) && i < |events| && JumpsAt(Created(limit), events, i)
    requires forall n :: 0 <= n < i ==> !JumpsAt(Created(limit), events, n)
    ensures |After(Created(limit), events[..i + 1]).running| == limit + 1
  {
    CappedBeforeJump(limit, events, i);
    StepCapped(After(Created(limit), events[..i]), events[i]);
    assert events[..i + 1][..i] == events[..i];
  }

  lemma {:induction false} FirstJump(q: Queue, events: seq<Event>, j: nat) returns (i: nat)
    requires j < |events| && JumpsAt(q, events, j)
    ensures i <= j && JumpsAt(q, events, i)
    ensures forall n :: 0 <= n < i ==> !JumpsAt(q, events, n)
  {
    if n: nat :| n < j && JumpsAt(q, events, n) {
      i := FirstJump(q, events, n);
    } else {
      i := j;
    }
  }

  lemma {:induction false} CappedBeforeJump(limit: nat, events: seq<Event>, i: nat)
    requires IsRun(Created(limit), events) && i <= |events|
    requires forall n :: 0 <= n < i ==> !JumpsAt(Created(limit), events, n)
    ensures var q := After(Created(limit), events[..i]); Conserved(q) && Capped(q) && q.limit == limit
  {
    if i > 0 {
      CappedBeforeJump(limit, events, i - 1);
      var before := After(Created(limit), events[..i - 1]);
      assert events[..i][..i - 1] == events[..i - 1];
      ApplyConserves(before, events[i - 1]);
      assert !JumpsAt(Created(limit), events, i - 1);
      StepCapped(before, events[i - 1]);
    }
  }

  const JUMP := [Enqueue("a"), Enqueue("b"), Enqueue("c"), Remove("b")]

  lemma OneMoreEvent(q: Queue, events: seq<Event>, e: Event)
    requires IsRun(q, events) && Enabled(After(q, events), e)
    ensures IsRun(q, events + [e]) && After(q, events + [e]) == Apply(After(q, events), e)
  {
    assert (events + [e])[..|events|] == events;
    forall i | 0 <= i < |events + [e]|
      ensures Enabled(After(q, (events + [e])[..i]), (events + [e])[i])
    {
      if i < |events| {
        assert (events + [e])[..i] == events[..i];
      }
    }
  }

  /** Three ask where one may run; the second is taken out of the queue, and the third runs beside the first. */
  lemma RemovalExceedsLimit()
    ensures IsRun(Created(1), JUMP) && JumpsAt(Created(1), JUMP, 3)
    ensures After(Created(1), JUMP).running == multiset{"a", "c"}
  {
    var q, asked := Created(1), [] + [JUMP[0]] + [JUMP[1]] + [JUMP[2]];
    OneMoreEvent(q, [], JUMP[0]);
    OneMoreEvent(q, [] + [JUMP[0]], JUMP[1]);
    OneMoreEvent(q, [] + [JUMP[0]] + [JUMP[1]], JUMP[2]);
    assert After(q, asked) == Queue(1, -2, ["b", "c"], multiset{"a"});
    RemovesSecond(After(q, asked));
    OneMoreEvent(q, asked, JUMP[3]);
    assert JUMP[..3] == asked && JUMP == asked + [JUMP[3]];
  }

  lemma RemovesSecond(q: Queue)
    requires q == Queue(1, -2, ["b", "c"], multiset{"a"})
    ensures JumpsQueue(q, Remove("b")) && Apply(q, Remove("b")).running == multiset{"a", "c"}
  {
    assert FindIndex(q.waiting, "b") == Some(0);
    assert q.waiting[..0] + q.waiting[1..] == ["c"];
  }

  // ---------------------------------------------------------------- the class

  /** The execution at `i` leaves the line, its slot comes back, and the first of the others is admitted. */
  predicate LeavesQueue(q: Queue, i: nat, q': Queue)
    requires i < |q.waiting|
  {
    var others := q.waiting[..i] + q.waiting[i + 1..];
    && q'.capacity == q.capacity + 1 && q'.limit == q.limit
    && q'.waiting == (if others == [] then [] else others[1..])
    && q'.running == (if others == [] then q.running else q.running + multiset{others[0]})
  }

  class ConcurrencyQueue {
    var capacity: int
    var queue: seq<ExecutionId>
    ghost const limit: nat
    ghost var running: multiset<ExecutionId>

    ghost function State(): Queue
      reads this
    {
      Queue(limit, capacity, queue, running)
    }

    constructor (capacity: nat)
      ensures State() == Created(capacity)
    {
      this.capacity, this.queue := capacity, [];
      this.limit, this.running := capacity, multiset{};
    }

    method Enqueue(executionId: ExecutionId) returns (admitted: bool)
      modifies this
      ensures State() == Apply(old(State()), Event.Enqueue(executionId))
      ensures admitted <==> running != old(running)
      ensures (admitted <==> old(capacity) > 0) && capacity == old(capacity) - 1
      ensures queue == old(queue) + (if admitted then [] else [executionId])
      ensures running == if admitted then old(running) + multiset{executionId} else old(running)
    {
      capacity := capacity - 1;
      if capacity < 0 {
        queue := queue + [executionId];
        return false;
      }
      running := running + multiset{executionId};
      return true;
    }

    method Dequeue(ghost holder: ExecutionId)
      modifies this
      ensures State() == Apply(old(State()), Event.Dequeue(holder))
      ensures capacity == old(capacity) + 1
      ensures queue == if old(queue) == [] then [] else old(queue)[1..]
      ensures running == old(running) - multiset{holder} + if old(queue) == [] then multiset{} else multiset{old(queue)[0]}
    {
      capacity := capacity + 1;
      running := running - multiset{holder};
      ReleaseNext();
    }

    method Remove(executionId: ExecutionId)
      modifies this
      ensures State() == Apply(old(State()), Event.Remove(executionId))
      ensures executionId !in old(queue) ==> unchanged(this)
      ensures executionId in old(queue) ==>
              exists i :: 0 <= i < |old(queue)| && old(queue)[i] == executionId && executionId !in old(queue)[..i]
                          && LeavesQueue(old(State()), i, State())
    {
      var index := FindIndex(queue, executionId);
      if index.Some? {
        queue := queue[..index.value] + queue[index.value + 1..];
        capacity := capacity + 1;
        ReleaseNext();
      }
    }

    method ReleaseNext()
      modifies this
      ensures State() == ResolveNext(old(State()))
      ensures queue == (if old(queue) == [] then [] else old(queue)[1..]) && capacity == old(capacity)
    {
      if queue != [] {
        running := running + multiset{queue[0]};
        queue := queue[1..];
      }
    }
  }
}
