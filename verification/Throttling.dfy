/**
 * Adds and the concurrency queue together: an add of a limited mode asks the queue for capacity and goes
 * on only once it is let through; its reservation is given back to the queue when it fails or its run
 * settles. Covers everything before shutdown switches the limit off.
 */
module Throttling {
  import opened Wrappers
  import A = ActiveExecutions
  import Q = ConcurrencyQueue

  /** `tickets` are the adds that have asked, with the execution ids they asked for; `throttled` are those
      still in the queue, in its order; `admitted` have been let through but not gone on yet. */
  datatype System = System(registry: A.Registry, queue: Q.Queue, tickets: map<A.Generation, A.ExecutionId>,
                           throttled: seq<A.Generation>, admitted: set<A.Generation>)

  datatype Step =
    | Ask(g: A.Generation)
    | GoOn(g: A.Generation)
    | ReserveUnlimited(g: A.Generation)
    | Abort(g: A.Generation)
    | Settle(g: A.Generation)
    | RemoveThrottled(id: A.ExecutionId)
    | Other(event: A.Event)

  /** The registry's own events: they neither ask for capacity nor give it back. */
  predicate Uncapped(e: A.Event) {
    !e.ReserveCapacity? && !e.AbortAdd? && !e.PromiseSettled? && !e.Sweep?
  }

  predicate CanTake(s: System, step: Step) {
    match step
    case Ask(g) => g in s.registry.adds && A.Limited(s.registry.adds[g].mode) && g !in s.tickets
    case GoOn(g) => g in s.admitted && A.Enabled(s.registry, A.ReserveCapacity(g))
    case ReserveUnlimited(g) =>
      A.Enabled(s.registry, A.ReserveCapacity(g)) && !A.Limited(s.registry.adds[g].mode)
    case Abort(g) => g in s.registry.adds && (g in s.tickets ==> s.registry.adds[g].reserved)
    case Settle(g) => A.Enabled(s.registry, A.PromiseSettled(g))
    case RemoveThrottled(_) => true
    case Other(e) => A.Enabled(s.registry, e) && Uncapped(e) && (e.BeginAdd? ==> e.g !in s.tickets)
  }

  /** The head of the queue is let through. */
  function LetNextThrough(s: System): System {
    if s.throttled == [] then s
    else s.(throttled := s.throttled[1..], admitted := s.admitted + {s.throttled[0]})
  }

  /** The registry becomes `next`, in which `g` no longer holds a reservation. */
  function GiveBack(s: System, g: A.Generation, next: A.Registry): System {
    if A.IsHolder(s.registry, g) && g in s.tickets then
      LetNextThrough(s.(registry := next, queue := Q.Apply(s.queue, Q.Dequeue(s.tickets[g]))))
    else s.(registry := next)
  }

  function Take(s: System, step: Step): System
    requires A.Valid(s.registry) && CanTake(s, step) && |s.throttled| == |s.queue.waiting|
  {
    match step
    case Ask(g) =>
      var id := s.registry.adds[g].executionId;
      var asked := s.(queue := Q.Apply(s.queue, Q.Enqueue(id)), tickets := s.tickets[g := id]);
      if s.queue.capacity - 1 < 0 then asked.(throttled := s.throttled + [g])
      else asked.(admitted := s.admitted + {g})
    case GoOn(g) => s.(registry := A.Apply(s.registry, A.ReserveCapacity(g)), admitted := s.admitted - {g})
    case ReserveUnlimited(g) => s.(registry := A.Apply(s.registry, A.ReserveCapacity(g)))
    case Abort(g) => GiveBack(s, g, A.Apply(s.registry, A.AbortAdd(g)))
    case Settle(g) => GiveBack(s, g, A.Apply(s.registry, A.PromiseSettled(g)))
    case RemoveThrottled(id) =>
      (match Q.FindIndex(s.queue.waiting, id)
       case None => s
       case Some(i) => LetNextThrough(s.(queue := Q.Apply(s.queue, Q.Remove(id)),
                                         throttled := s.throttled[..i] + s.throttled[i + 1..])))
    case Other(e) => s.(registry := A.Apply(s.registry, e))
  }

  // ---------------------------------------------------------------- Who holds capacity

  /** The adds and running executions that the queue has let through and that have not given back. */
  function LetThrough(s: System): set<A.Generation> {
    s.admitted + A.Holders(s.registry)
  }

  /** Counted by execution id, the queue's account is exactly the tickets of `holders`. */
  ghost predicate Accounts(running: multiset<A.ExecutionId>, holders: set<A.Generation>,
                           tickets: map<A.Generation, A.ExecutionId>) {
    && holders <= tickets.Keys && |running| == |holders|
    && forall id :: running[id] == |TicketsFor(holders, tickets, id)|
  }

  function TicketsFor(holders: set<A.Generation>, tickets: map<A.Generation, A.ExecutionId>, id: A.ExecutionId)
    : set<A.Generation>
  {
    set g | g in holders && g in tickets && tickets[g] == id
  }

  lemma OneMoreTicket(holders: set<A.Generation>, tickets: map<A.Generation, A.ExecutionId>, g: A.Generation,
                      id: A.ExecutionId)
    requires g in tickets && g !in holders
    ensures |TicketsFor(holders + {g}, tickets, id)|
         == |TicketsFor(holders, tickets, id)| + (if tickets[g] == id then 1 else 0)
  {
    var before := TicketsFor(holders, tickets, id);
    assert TicketsFor(holders + {g}, tickets, id) == if tickets[g] == id then before + {g} else before;
  }

  lemma AccountsAdd(running: multiset<A.ExecutionId>, holders: set<A.Generation>,
                    tickets: map<A.Generation, A.ExecutionId>, g: A.Generation)
    requires Accounts(running, holders, tickets) && g in tickets && g !in holders
    ensures Accounts(running + multiset{tickets[g]}, holders + {g}, tickets)
  {
    forall id
      ensures (running + multiset{tickets[g]})[id] == |TicketsFor(holders + {g}, tickets, id)|
    {
      OneMoreTicket(holders, tickets, g, id);
    }
  }

  lemma AccountsRemove(running: multiset<A.ExecutionId>, holders: set<A.Generation>,
                       tickets: map<A.Generation, A.ExecutionId>, g: A.Generation)
    requires Accounts(running, holders, tickets) && g in holders
    ensures tickets[g] in running && Accounts(running - multiset{tickets[g]}, holders - {g}, tickets)
  {
    assert g in TicketsFor(holders, tickets, tickets[g]);
    forall id
      ensures (running - multiset{tickets[g]})[id] == |TicketsFor(holders - {g}, tickets, id)|
    {
      var before := TicketsFor(holders, tickets, id);
      assert TicketsFor(holders - {g}, tickets, id) == before - {g};
      assert g in before <==> tickets[g] == id;
    }
  }

  lemma AccountsNewTicket(running: multiset<A.ExecutionId>, holders: set<A.Generation>,
                          tickets: map<A.Generation, A.ExecutionId>, g: A.Generation, id: A.ExecutionId)
    requires Accounts(running, holders, tickets) && g !in tickets
    ensures Accounts(running, holders, tickets[g := id])
  {
    forall i
      ensures running[i] == |TicketsFor(holders, tickets[g := id], i)|
    {
      assert TicketsFor(holders, tickets[g := id], i) == TicketsFor(holders, tickets, i);
    }
  }

  // ---------------------------------------------------------------- The invariant

  /** An add that has asked and awaits the answer. */
  predicate Awaits(s: System, g: A.Generation) {
    g in s.tickets && g in s.registry.adds && !s.registry.adds[g].reserved && A.Limited(s.registry.adds[g].mode)
  }

  /** The queue holds the throttled adds, in order and once each. */
  predicate InLine(s: System) {
    && |s.throttled| == |s.queue.waiting|
    && (forall i :: 0 <= i < |s.throttled| ==>
          Awaits(s, s.throttled[i]) && s.tickets[s.throttled[i]] == s.queue.waiting[i]
          && s.throttled[i] !in s.admitted)
    && (forall i, j :: 0 <= i < j < |s.throttled| ==> s.throttled[i] != s.throttled[j])
  }

  /** What the queue and the adds in it have to satisfy, whoever has been let through. */
  ghost predicate LineInv(s: System) {
    && A.Valid(s.registry) && A.Conserved(s.registry) && s.registry.concurrencyEnabled
    && InLine(s) && (forall g :: g in s.admitted ==> Awaits(s, g))
  }

  /** The queue's account is in order too. */
  ghost predicate Inv(s: System) {
    LineInv(s) && Q.Conserved(s.queue) && Accounts(s.queue.running, LetThrough(s), s.tickets)
  }

  lemma EmptyInv(limit: nat)
    ensures Inv(System(A.EMPTY, Q.Created(limit), map[], [], {}))
  {
    var s := System(A.EMPTY, Q.Created(limit), map[], [], {});
    assert A.Holders(A.EMPTY) == {};
    forall id
      ensures s.queue.running[id] == |TicketsFor(LetThrough(s), s.tickets, id)|
    {
      assert TicketsFor(LetThrough(s), s.tickets, id) == {};
    }
  }

  /** A process that has just started. */
  ghost function Start(limit: nat): (s: System)
    ensures Inv(s)
  {
    EmptyInv(limit);
    System(A.EMPTY, Q.Created(limit), map[], [], {})
  }

  lemma NextStaysInLine(s: System, q: Q.Queue)
    requires LineInv(s) && q.waiting == s.queue.waiting
    ensures LineInv(LetNextThrough(s.(queue := Q.ResolveNext(q))))
  {
  }

  /** Letting the head through keeps the account, with the head on it. */
  lemma NextInLine(s: System, q: Q.Queue)
    requires LineInv(s) && q.waiting == s.queue.waiting && Accounts(q.running, LetThrough(s), s.tickets)
    requires Q.Conserved(Q.ResolveNext(q))
    ensures Inv(LetNextThrough(s.(queue := Q.ResolveNext(q))))
  {
    NextStaysInLine(s, q);
    var s' := LetNextThrough(s.(queue := Q.ResolveNext(q)));
    if s.throttled != [] {
      var head := s.throttled[0];
      assert Awaits(s, head) && !A.IsHolder(s.registry, head);
      AccountsAdd(q.running, LetThrough(s), s.tickets, head);
      assert LetThrough(s') == LetThrough(s) + {head};
    } else {
      assert LetThrough(s') == LetThrough(s);
    }
  }

  // ---------------------------------------------------------------- Steps

  lemma RegistryEvent(s: System, e: A.Event)
    requires Inv(s) && A.Enabled(s.registry, e) && !e.Sweep?
    ensures var r := A.Apply(s.registry, e);
            A.Valid(r) && A.Conserved(r) && r.concurrencyEnabled
  {
    A.ApplyValid(s.registry, e);
    A.ConservedStep(s.registry, e);
  }

  /** An add that awaits its answer is not touched by the events of others. */
  lemma AwaitsOn(s: System, e: A.Event, g: A.Generation)
    requires A.Valid(s.registry) && A.Enabled(s.registry, e) && !e.Sweep? && Awaits(s, g)
    requires e.ReserveCapacity? || e.AbortAdd? ==> e.g != g
    ensures Awaits(s.(registry := A.Apply(s.registry, e)), g)
  {
  }

  lemma RegistryKeepsLine(s: System, e: A.Event)
    requires Inv(s) && A.Enabled(s.registry, e) && !e.Sweep?
    requires e.ReserveCapacity? || e.AbortAdd? ==> e.g !in s.throttled && e.g !in s.admitted
    ensures LineInv(s.(registry := A.Apply(s.registry, e)))
  {
    RegistryEvent(s, e);
    var s' := s.(registry := A.Apply(s.registry, e));
    forall i | 0 <= i < |s.throttled|
      ensures Awaits(s', s.throttled[i])
    {
      AwaitsOn(s, e, s.throttled[i]);
    }
    forall g | g in s.admitted
      ensures Awaits(s', g)
    {
      AwaitsOn(s, e, g);
    }
  }

  lemma AskKeepsLine(s: System, g: A.Generation)
    requires LineInv(s) && CanTake(s, Ask(g)) && !s.registry.adds[g].reserved
    ensures LineInv(Take(s, Ask(g)))
  {
    var s' := Take(s, Ask(g));
    forall h | h in s.tickets && Awaits(s, h)
      ensures Awaits(s', h) && h != g && s'.tickets[h] == s.tickets[h]
    {
    }
    forall i | 0 <= i < |s'.throttled|
      ensures Awaits(s', s'.throttled[i]) && s'.tickets[s'.throttled[i]] == s'.queue.waiting[i]
      ensures s'.throttled[i] !in s'.admitted
    {
      if i < |s.throttled| {
        assert s'.throttled[i] == s.throttled[i] && Awaits(s, s.throttled[i]);
      }
    }
  }

  /** Who has not asked holds nothing: every reservation of a limited mode has a ticket. */
  lemma NotYetReserved(s: System, g: A.Generation)
    requires Inv(s) && CanTake(s, Ask(g))
    ensures !s.registry.adds[g].reserved && g !in LetThrough(s)
  {
    assert g !in LetThrough(s);
    assert A.IsHolder(s.registry, g) ==> g in A.Holders(s.registry);
  }

  lemma AskKeepsAccount(s: System, g: A.Generation)
    requires A.Valid(s.registry) && CanTake(s, Ask(g)) && |s.throttled| == |s.queue.waiting|
    requires Accounts(s.queue.running, LetThrough(s), s.tickets) && g !in LetThrough(s)
    ensures var s' := Take(s, Ask(g)); Accounts(s'.queue.running, LetThrough(s'), s'.tickets)
  {
    var s' := Take(s, Ask(g));
    AccountsNewTicket(s.queue.running, LetThrough(s), s.tickets, g, s.registry.adds[g].executionId);
    if s.queue.capacity - 1 < 0 {
      assert LetThrough(s') == LetThrough(s);
    } else {
      AccountsAdd(s.queue.running, LetThrough(s), s'.tickets, g);
      assert LetThrough(s') == LetThrough(s) + {g};
    }
  }

  lemma AskKeepsInv(s: System, g: A.Generation)
    requires Inv(s) && CanTake(s, Ask(g))
    ensures Inv(Take(s, Ask(g)))
  {
    NotYetReserved(s, g);
    AskKeepsLine(s, g);
    AskKeepsAccount(s, g);
    Q.ApplyConserves(s.queue, Q.Enqueue(s.registry.adds[g].executionId));
  }

  lemma GoOnKeepsInv(s: System, g: A.Generation)
    requires Inv(s) && CanTake(s, GoOn(g))
    ensures Inv(Take(s, GoOn(g)))
  {
    var e := A.ReserveCapacity(g);
    var s' := Take(s, GoOn(g));
    assert Awaits(s, g) && A.TakesSlot(s.registry, e);
    RegistryEvent(s, e);
    A.HoldersStep(s.registry, e);
    assert LetThrough(s') == LetThrough(s);
    forall i | 0 <= i < |s.throttled|
      ensures Awaits(s', s.throttled[i])
    {
      AwaitsOn(s, e, s.throttled[i]);
    }
    forall h | h in s'.admitted
      ensures Awaits(s', h)
    {
      AwaitsOn(s, e, h);
    }
  }

  lemma OtherKeepsInv(s: System, e: A.Event)
    requires Inv(s) && CanTake(s, Other(e))
    ensures Inv(Take(s, Other(e)))
  {
    RegistryKeepsLine(s, e);
    A.HoldersStep(s.registry, e);
    assert LetThrough(Take(s, Other(e))) == LetThrough(s);
  }

  lemma UnlimitedKeepsInv(s: System, g: A.Generation)
    requires Inv(s) && CanTake(s, ReserveUnlimited(g))
    ensures Inv(Take(s, ReserveUnlimited(g)))
  {
    var e := A.ReserveCapacity(g);
    RegistryKeepsLine(s, e);
    A.HoldersStep(s.registry, e);
    assert LetThrough(Take(s, ReserveUnlimited(g))) == LetThrough(s);
  }

  lemma HolderLeaves(s: System, g: A.Generation, next: A.Registry)
    requires A.Valid(s.registry) && (g in s.admitted ==> Awaits(s, g))
    requires A.Holders(next) == A.Holders(s.registry) - {g}
    ensures A.IsHolder(s.registry, g) ==>
              g in LetThrough(s) && LetThrough(s.(registry := next)) == LetThrough(s) - {g}
    ensures !A.IsHolder(s.registry, g) ==> LetThrough(s.(registry := next)) == LetThrough(s)
  {
    var h := A.Holders(s.registry);
    assert A.IsHolder(s.registry, g) <==> g in h;
    if g in h {
      LeavesUnion(s.admitted, h, g);
    } else {
      assert h - {g} == h;
    }
  }

  lemma LeavesUnion(a: set<A.Generation>, h: set<A.Generation>, g: A.Generation)
    requires g !in a
    ensures a + (h - {g}) == a + h - {g}
  {
  }

  lemma NextAfter(s: System, g: A.Generation, next: A.Registry)
    requires LineInv(s.(registry := next)) && Q.Conserved(s.queue) && g in LetThrough(s)
    requires Accounts(s.queue.running, LetThrough(s), s.tickets)
    requires LetThrough(s.(registry := next)) == LetThrough(s) - {g}
    ensures Inv(LetNextThrough(s.(registry := next, queue := Q.Apply(s.queue, Q.Dequeue(s.tickets[g])))))
  {
    AccountsRemove(s.queue.running, LetThrough(s), s.tickets, g);
    Q.ApplyConserves(s.queue, Q.Dequeue(s.tickets[g]));
    NextInLine(s.(registry := next),
               s.queue.(capacity := s.queue.capacity + 1, running := s.queue.running - multiset{s.tickets[g]}));
  }

  /** The failed add or the settled run that held capacity gives it to the next in line. */
  lemma GiveBackKeepsInv(s: System, g: A.Generation, next: A.Registry)
    requires Inv(s) && LineInv(s.(registry := next)) && A.Holders(next) == A.Holders(s.registry) - {g}
    ensures Inv(GiveBack(s, g, next))
  {
    HolderLeaves(s, g, next);
    if A.IsHolder(s.registry, g) {
      NextAfter(s, g, next);
    }
  }

  /** What one holder gives back goes to the add that has waited longest, and to nobody else; who held nothing
      gives nothing back. */
  lemma PassedOnInOrder(s: System, g: A.Generation, next: A.Registry)
    requires A.Valid(s.registry) && (g in s.admitted ==> Awaits(s, g)) && LetThrough(s) <= s.tickets.Keys
    requires A.Holders(next) == A.Holders(s.registry) - {g}
    ensures var s' := GiveBack(s, g, next);
            if !A.IsHolder(s.registry, g) then s'.throttled == s.throttled && LetThrough(s') == LetThrough(s)
            else if s.throttled == [] then s'.throttled == [] && LetThrough(s') == LetThrough(s) - {g}
            else s'.throttled == s.throttled[1..] && LetThrough(s') == LetThrough(s) - {g} + {s.throttled[0]}
  {
    HolderLeaves(s, g, next);
    if A.IsHolder(s.registry, g) && s.throttled != [] {
      assert LetThrough(GiveBack(s, g, next)) == LetThrough(s.(registry := next)) + {s.throttled[0]};
    }
  }

  lemma AbortKeepsInv(s: System, g: A.Generation)
    requires Inv(s) && CanTake(s, Abort(g))
    ensures Inv(Take(s, Abort(g)))
  {
    assert forall h :: Awaits(s, h) ==> h != g;
    RegistryKeepsLine(s, A.AbortAdd(g));
    A.HoldersStep(s.registry, A.AbortAdd(g));
    GiveBackKeepsInv(s, g, A.Apply(s.registry, A.AbortAdd(g)));
  }

  lemma SettleKeepsInv(s: System, g: A.Generation)
    requires Inv(s) && CanTake(s, Settle(g))
    ensures Inv(Take(s, Settle(g)))
  {
    RegistryKeepsLine(s, A.PromiseSettled(g));
    A.HoldersStep(s.registry, A.PromiseSettled(g));
    GiveBackKeepsInv(s, g, A.Apply(s.registry, A.PromiseSettled(g)));
  }

  lemma RemoveKeepsInv(s: System, id: A.ExecutionId)
    requires Inv(s)
    ensures Inv(Take(s, RemoveThrottled(id)))
  {
    var index := Q.FindIndex(s.queue.waiting, id);
    if index.Some? {
      var line := WithoutThrottled(s, index.value);
      DropFromLine(s, index.value);
      Q.ApplyConserves(s.queue, Q.Remove(id));
      assert LetThrough(line) == LetThrough(s);
      var q := line.queue.(capacity := s.queue.capacity + 1);
      assert Q.Apply(s.queue, Q.Remove(id)) == Q.ResolveNext(q);
      NextInLine(line, q);
    }
  }

  function WithoutThrottled(s: System, i: nat): System
    requires i < |s.throttled| == |s.queue.waiting|
  {
    s.(queue := s.queue.(waiting := s.queue.waiting[..i] + s.queue.waiting[i + 1..]),
       throttled := s.throttled[..i] + s.throttled[i + 1..])
  }

  lemma DropFromLine(s: System, i: nat)
    requires LineInv(s) && i < |s.throttled|
    ensures LineInv(WithoutThrottled(s, i))
  {
    var line := WithoutThrottled(s, i);
    forall k | 0 <= k < |line.throttled|
      ensures Awaits(line, line.throttled[k]) && line.tickets[line.throttled[k]] == line.queue.waiting[k]
      ensures line.throttled[k] !in line.admitted
    {
      var was := if k < i then k else k + 1;
      assert line.throttled[k] == s.throttled[was] && line.queue.waiting[k] == s.queue.waiting[was];
    }
  }

  lemma TakeKeepsInv(s: System, step: Step)
    requires Inv(s) && CanTake(s, step)
    ensures Inv(Take(s, step))
  {
    match step
    case Ask(g) => AskKeepsInv(s, g);
    case GoOn(g) => GoOnKeepsInv(s, g);
    case ReserveUnlimited(g) => UnlimitedKeepsInv(s, g);
    case Abort(g) => AbortKeepsInv(s, g);
    case Settle(g) => SettleKeepsInv(s, g);
    case RemoveThrottled(id) => RemoveKeepsInv(s, id);
    case Other(e) => OtherKeepsInv(s, e);
  }

  // ---------------------------------------------------------------- Runs

  ghost predicate IsRun(s: System, run: seq<Step>)
    requires Inv(s)
    decreases |run|
  {
    run != [] ==> CanTake(s, run[0]) && (TakeKeepsInv(s, run[0]); IsRun(Take(s, run[0]), run[1..]))
  }

  /** In every state of the run at most `limit` limited executions have been let through. */
  ghost predicate WithinLimit(s: System, run: seq<Step>, limit: nat)
    requires Inv(s) && IsRun(s, run)
    decreases |run|
  {
    |LetThrough(s)| <= limit
    && (run != [] ==> (TakeKeepsInv(s, run[0]); WithinLimit(Take(s, run[0]), run[1..], limit)))
  }

  /** The step removes a throttled execution while another one is throttled. */
  predicate JumpsLine(s: System, step: Step) {
    step.RemoveThrottled? && step.id in s.queue.waiting && |s.throttled| >= 2
  }

  ghost predicate NeverJumps(s: System, run: seq<Step>)
    requires Inv(s) && IsRun(s, run)
    decreases |run|
  {
    run != [] ==>
      !JumpsLine(s, run[0]) && (TakeKeepsInv(s, run[0]); NeverJumps(Take(s, run[0]), run[1..]))
  }

  /** The event a step is for the queue, if it is one. */
  function QueueEvent(s: System, step: Step): Option<Q.Event>
    requires CanTake(s, step)
  {
    match step
    case Ask(g) => Some(Q.Enqueue(s.registry.adds[g].executionId))
    case Abort(g) =>
      if A.IsHolder(s.registry, g) && g in s.tickets then Some(Q.Dequeue(s.tickets[g])) else None
    case Settle(g) =>
      if A.IsHolder(s.registry, g) && g in s.tickets then Some(Q.Dequeue(s.tickets[g])) else None
    case RemoveThrottled(id) => Some(Q.Remove(id))
    case _ => None
  }

  lemma HolderIsRunning(s: System, g: A.Generation)
    requires Inv(s) && A.IsHolder(s.registry, g)
    ensures g in s.tickets && s.tickets[g] in s.queue.running
  {
    assert g in A.Holders(s.registry) && g in LetThrough(s);
    AccountsRemove(s.queue.running, LetThrough(s), s.tickets, g);
  }

  lemma TakesQueueEvent(s: System, step: Step)
    requires Inv(s) && CanTake(s, step)
    ensures var e := QueueEvent(s, step);
            && (e.Some? ==> Q.Enabled(s.queue, e.value) && Take(s, step).queue == Q.Apply(s.queue, e.value))
            && (e.None? ==> Take(s, step).queue == s.queue)
  {
    if (step.Abort? || step.Settle?) && A.IsHolder(s.registry, step.g) {
      HolderIsRunning(s, step.g);
    }
    TakeActsOnQueue(s, step);
  }

  lemma TakeActsOnQueue(s: System, step: Step)
    requires A.Valid(s.registry) && CanTake(s, step) && |s.throttled| == |s.queue.waiting|
    requires (step.Abort? || step.Settle?) && A.IsHolder(s.registry, step.g) ==>
               step.g in s.tickets && s.tickets[step.g] in s.queue.running
    ensures var e := QueueEvent(s, step);
            && (e.Some? ==> Q.Enabled(s.queue, e.value) && Take(s, step).queue == Q.Apply(s.queue, e.value))
            && (e.None? ==> Take(s, step).queue == s.queue)
  {
  }

  /** A step keeps the limit exactly if it does not remove one of several throttled executions. */
  lemma StepWithinLimit(s: System, step: Step)
    requires Inv(s) && Q.Capped(s.queue) && CanTake(s, step)
    ensures Inv(Take(s, step)) && Take(s, step).queue.limit == s.queue.limit
    ensures Q.Capped(Take(s, step).queue) <==> !JumpsLine(s, step)
    ensures JumpsLine(s, step) ==> |LetThrough(Take(s, step))| == s.queue.limit + 1
  {
    TakeKeepsInv(s, step);
    TakesQueueEvent(s, step);
    var e := QueueEvent(s, step);
    if e.Some? {
      Q.StepCapped(s.queue, e.value);
      Q.ApplyConserves(s.queue, e.value);
    }
  }

  /** As long as the limit holds, an add that asks is let through at once exactly if fewer than the limit have
      been, and otherwise goes to the end of the line; nobody else moves. */
  lemma AskExactly(s: System, g: A.Generation)
    requires Inv(s) && Q.Capped(s.queue) && CanTake(s, Ask(g))
    ensures var s' := Take(s, Ask(g));
            if |LetThrough(s)| < s.queue.limit
            then s'.throttled == s.throttled == [] && LetThrough(s') == LetThrough(s) + {g} && g !in LetThrough(s)
            else s'.throttled == s.throttled + [g] && LetThrough(s') == LetThrough(s)
  {
    NotYetReserved(s, g);
    assert |s.queue.running| == |LetThrough(s)|;
    assert s.queue.capacity == s.queue.limit - |LetThrough(s)| - |s.throttled|;
    var s' := Take(s, Ask(g));
    if |LetThrough(s)| < s.queue.limit {
      assert LetThrough(s') == LetThrough(s) + {g};
    } else {
      assert LetThrough(s') == LetThrough(s);
    }
  }

  lemma {:induction false} WithinLimitFrom(s: System, run: seq<Step>)
    requires Inv(s) && Q.Capped(s.queue) && IsRun(s, run)
    ensures WithinLimit(s, run, s.queue.limit) <==> NeverJumps(s, run)
    decreases |run|
  {
    if run != [] {
      StepWithinLimit(s, run[0]);
      if !JumpsLine(s, run[0]) {
        WithinLimitFrom(Take(s, run[0]), run[1..]);
      }
    }
  }

  /** From the start of the process, no more limited executions than the limit are ever let through exactly if
      no execution is taken out of the queue while another one is in it. */
  lemma LimitHoldsExactly(limit: nat, run: seq<Step>)
    requires IsRun(Start(limit), run)
    ensures WithinLimit(Start(limit), run, limit) <==> NeverJumps(Start(limit), run)
  {
    WithinLimitFrom(Start(limit), run);
  }

  /** A run on which the limit of one is exceeded, by a removal. */
  ghost predicate Exceeds(s: System, run: seq<Step>) {
    Inv(s) && IsRun(s, run) && !NeverJumps(s, run) && !WithinLimit(s, run, 1)
  }

  lemma StepThen(s: System, step: Step, rest: seq<Step>)
    requires Inv(s) && CanTake(s, step) && Exceeds(Take(s, step), rest)
    ensures Exceeds(s, [step] + rest)
  {
    assert ([step] + rest)[1..] == rest;
  }

  const REMOVE := [RemoveThrottled("b")]
  const ASK_ONE := [Ask(2)] + REMOVE
  const ASK_TWO := [Ask(1)] + ASK_ONE
  const ASK_ALL := [Ask(0)] + ASK_TWO

  lemma RemoveOneOfTwo(s: System)
    requires Inv(s) && s.queue == Q.Queue(1, -2, ["b", "c"], multiset{"a"})
    ensures Exceeds(s, REMOVE)
  {
    StepWithinLimit(s, REMOVE[0]);
    assert s.queue.waiting[0] == "b" && JumpsLine(s, REMOVE[0]);
    assert REMOVE[1..] == [];
    assert IsRun(Take(s, REMOVE[0]), []);
  }

  /** An add of BEGUN that has not asked yet. */
  predicate MayAsk(s: System, g: A.Generation) {
    s.registry == BEGUN && g in BEGUN_IDS && g !in s.tickets
  }

  lemma BegunAdds(g: A.Generation)
    requires g in BEGUN_IDS
    ensures g in BEGUN.adds && BEGUN.adds[g] == A.PendingAdd(BEGUN_IDS[g], A.Webhook, false)
  {
  }

  lemma AskEffect(s: System, g: A.Generation)
    requires A.Valid(s.registry) && |s.throttled| == |s.queue.waiting| && MayAsk(s, g)
    ensures CanTake(s, Ask(g))
    ensures var s' := Take(s, Ask(g));
            && s'.queue == Q.Apply(s.queue, Q.Enqueue(BEGUN_IDS[g]))
            && s'.registry == BEGUN && s'.tickets.Keys == s.tickets.Keys + {g}
  {
    BegunAdds(g);
  }

  lemma Asks(s: System, g: A.Generation)
    requires Inv(s) && MayAsk(s, g)
    ensures CanTake(s, Ask(g)) && Inv(Take(s, Ask(g)))
    ensures var s' := Take(s, Ask(g));
            && s'.queue == Q.Apply(s.queue, Q.Enqueue(BEGUN_IDS[g]))
            && s'.registry == BEGUN && s'.tickets.Keys == s.tickets.Keys + {g}
  {
    AskEffect(s, g);
    TakeKeepsInv(s, Ask(g));
  }

  lemma ThirdAsks(s: System)
    requires Inv(s) && MayAsk(s, 2) && s.queue == Q.Queue(1, -1, ["b"], multiset{"a"})
    ensures Exceeds(s, ASK_ONE)
  {
    Asks(s, 2);
    RemoveOneOfTwo(Take(s, Ask(2)));
    StepThen(s, Ask(2), REMOVE);
  }

  lemma SecondAsks(s: System)
    requires Inv(s) && MayAsk(s, 1) && MayAsk(s, 2) && s.queue == Q.Queue(1, 0, [], multiset{"a"})
    ensures Exceeds(s, ASK_TWO)
  {
    Asks(s, 1);
    ThirdAsks(Take(s, Ask(1)));
    StepThen(s, Ask(1), ASK_ONE);
  }

  lemma FirstAsks(s: System)
    requires Inv(s) && MayAsk(s, 0) && MayAsk(s, 1) && MayAsk(s, 2) && s.queue == Q.Created(1)
    ensures Exceeds(s, ASK_ALL)
  {
    Asks(s, 0);
    SecondAsks(Take(s, Ask(0)));
    StepThen(s, Ask(0), ASK_TWO);
  }

  // Three webhook executions are added.
  const BEGIN_A := A.BeginAdd(0, "a", A.Webhook)
  const BEGIN_B := A.BeginAdd(1, "b", A.Webhook)
  const BEGIN_C := A.BeginAdd(2, "c", A.Webhook)
  const BEGUN_A := A.Apply(A.EMPTY, BEGIN_A)
  const BEGUN_B := A.Apply(BEGUN_A, BEGIN_B)
  const BEGUN := A.Apply(BEGUN_B, BEGIN_C)
  const BEGUN_IDS: map<A.Generation, A.ExecutionId> := map[0 := "a", 1 := "b", 2 := "c"]

  const RUN_OF_THREE := [Other(BEGIN_A)] + ([Other(BEGIN_B)] + ([Other(BEGIN_C)] + ASK_ALL))

  /** From the start of a process with a limit of one, three executions are added and ask, the second is removed
      from the queue, and two have been let through. */
  lemma RemovalLetsTwoThrough()
    ensures Exceeds(Start(1), RUN_OF_THREE)
  {
    var s0 := Start(1);
    var s1 := s0.(registry := BEGUN_A);
    var s2 := s0.(registry := BEGUN_B);
    var s3 := s0.(registry := BEGUN);
    assert Take(s0, Other(BEGIN_A)) == s1;
    TakeKeepsInv(s0, Other(BEGIN_A));
    assert Take(s1, Other(BEGIN_B)) == s2;
    TakeKeepsInv(s1, Other(BEGIN_B));
    assert Take(s2, Other(BEGIN_C)) == s3;
    TakeKeepsInv(s2, Other(BEGIN_C));
    FirstAsks(s3);
    StepThen(s2, Other(BEGIN_C), ASK_ALL);
    StepThen(s1, Other(BEGIN_B), [Other(BEGIN_C)] + ASK_ALL);
    StepThen(s0, Other(BEGIN_A), [Other(BEGIN_B)] + ([Other(BEGIN_C)] + ASK_ALL));
  }

  /** In every reachable state the slots the registry counts are those of the queue, less the executions let
      through whose add has not gone on yet. */
  lemma OneCount(s: System)
    requires Inv(s)
    ensures s.registry.slots + |s.admitted| == |s.queue.running|
  {
    assert s.admitted !! A.Holders(s.registry);
    assert |LetThrough(s)| == |s.admitted| + |A.Holders(s.registry)|;
  }
}
