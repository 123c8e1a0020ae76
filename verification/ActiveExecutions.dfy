/**
 * The executions a process is running: the in-memory map, the capacity slots they hold, and the
 * closure that removes an entry once its post-execute promise settles.
 *
 * Every `add` makes a new entry object with its own promise and closure, also when it resumes an
 * execution that is already in the map. A generation number stands for the identity of that object.
 */
module ActiveExecutions {
  import opened Wrappers

  type ExecutionId = string
  type Generation = nat
  type ResponseMode = string

  datatype Mode = Cli | Error | Integrated | Internal | Manual | Retry | Trigger | Webhook | Chat | Evaluation
  datatype Status = New | Running | Waiting | Success | Failed | Canceled | Crashed | Unknown
  datatype PromiseState = Pending | Resolved | Rejected

  /** `cleaned` says the closure attached to the promise has run. */
  datatype Execution = Execution(executionId: ExecutionId, mode: Mode, status: Status, startedAt: int,
                                 promise: PromiseState, cleaned: bool)

  /** An `add` that has not reached its synchronous tail yet. */
  datatype PendingAdd = PendingAdd(executionId: ExecutionId, mode: Mode, reserved: bool)

  datatype Registry = Registry(active: map<ExecutionId, Generation>,
                               executions: map<Generation, Execution>,
                               adds: map<Generation, PendingAdd>,
                               responseModes: map<ExecutionId, ResponseMode>,
                               slots: int,
                               concurrencyEnabled: bool)

  /** The synchronous stretches between two awaits. */
  datatype Event =
    | BeginAdd(g: Generation, id: ExecutionId, mode: Mode)
    | ReserveCapacity(g: Generation)
    | AbortAdd(g: Generation)
    | CompleteAdd(g: Generation, now: int)
    | SetStatus(id: ExecutionId, status: Status)
    | SetResponseMode(id: ExecutionId, responseMode: ResponseMode)
    | Stop(id: ExecutionId)
    | Finalize(id: ExecutionId)
    | PromiseSettled(g: Generation)
    | Sweep(regularMode: bool, cancelAll: bool)

  const EMPTY := Registry(map[], map[], map[], map[], 0, true)

  predicate Valid(r: Registry) {
    && (forall g :: g in r.adds ==> g !in r.executions)
    && forall id :: id in r.active ==> r.active[id] in r.executions && r.executions[r.active[id]].executionId == id
  }

  /** The entry the map holds for `id`. */
  predicate IsCurrent(r: Registry, id: ExecutionId, g: Generation) {
    id in r.active && r.active[id] == g
  }

  predicate Enabled(r: Registry, e: Event) {
    match e
    case BeginAdd(g, _, _) => g !in r.adds && g !in r.executions
    case ReserveCapacity(g) => g in r.adds && !r.adds[g].reserved && r.adds[g].mode != Evaluation
    case AbortAdd(g) => g in r.adds
    case CompleteAdd(g, _) => g in r.adds && (r.adds[g].reserved || r.adds[g].mode == Evaluation)
    case PromiseSettled(g) => g in r.executions && r.executions[g].promise != Pending && !r.executions[g].cleaned
    case _ => true
  }

  /** The modes that production concurrency limits; a reservation in any other takes no slot. */
  predicate Limited(mode: Mode) {
    mode in {Webhook, Trigger, Chat}
  }

  /** Reserving and releasing do nothing for unlimited modes, nor once the limit is switched off. */
  function TakeSlot(r: Registry, mode: Mode): Registry {
    if r.concurrencyEnabled && Limited(mode) then r.(slots := r.slots + 1) else r
  }

  function Release(r: Registry, reserved: bool, mode: Mode): Registry {
    if reserved && r.concurrencyEnabled && Limited(mode) then r.(slots := r.slots - 1) else r
  }

  /** A deferred promise settles once; later calls are ignored. */
  function Settle(x: Execution, outcome: PromiseState): Execution {
    if x.promise == Pending then x.(promise := outcome) else x
  }

  function SettleCurrent(r: Registry, id: ExecutionId, outcome: PromiseState): Registry
    requires Valid(r) && id in r.active
  {
    r.(executions := r.executions[r.active[id] := Settle(r.executions[r.active[id]], outcome)])
  }

  function Forget(r: Registry, id: ExecutionId): Registry {
    r.(active := r.active - {id}, responseModes := r.responseModes - {id})
  }

  function StopOne(r: Registry, id: ExecutionId): Registry
    requires Valid(r)
  {
    if id !in r.active then r
    else if r.executions[r.active[id]].status == Waiting then Forget(r, id)
    else SettleCurrent(r, id, Rejected)
  }

  /** What the shutdown loop does to one id. */
  function SweepOne(r: Registry, id: ExecutionId, regularMode: bool, cancelAll: bool): Registry
    requires Valid(r)
  {
    if id !in r.active then r
    else if regularMode && cancelAll then StopOne(r, id)
    else if r.executions[r.active[id]].status in {Waiting, New} then r.(active := r.active - {id})
    else r
  }

  predicate SweptAway(r: Registry, id: ExecutionId, regularMode: bool, cancelAll: bool)
    requires Valid(r) && id in r.active
  {
    var status := r.executions[r.active[id]].status;
    status == Waiting || (status == New && !(regularMode && cancelAll))
  }

  function Gone(r: Registry, ids: set<ExecutionId>, regularMode: bool, cancelAll: bool): set<ExecutionId>
    requires Valid(r)
  {
    set id | id in r.active && id in ids && SweptAway(r, id, regularMode, cancelAll)
  }

  /** The shutdown loop over all of `ids`: independent of their order. */
  function SweepAll(r: Registry, ids: set<ExecutionId>, regularMode: bool, cancelAll: bool): Registry
    requires Valid(r)
  {
    var cancel := regularMode && cancelAll;
    var gone := Gone(r, ids, regularMode, cancelAll);
    r.(active := r.active - gone,
       responseModes := if cancel then r.responseModes - gone else r.responseModes,
       executions := if cancel then CanceledEntries(r, ids) else r.executions)
  }

  function CanceledEntries(r: Registry, ids: set<ExecutionId>): map<Generation, Execution> {
    map g | g in r.executions :: CanceledBySweep(r, ids, g)
  }

  function CanceledBySweep(r: Registry, ids: set<ExecutionId>, g: Generation): Execution
    requires g in r.executions
  {
    var x := r.executions[g];
    if x.executionId in ids && IsCurrent(r, x.executionId, g) && x.status != Waiting then Settle(x, Rejected) else x
  }

  function Apply(r: Registry, e: Event): Registry
    requires Valid(r) && Enabled(r, e)
  {
    match e
    case BeginAdd(g, id, mode) => r.(adds := r.adds[g := PendingAdd(id, mode, false)])
    case ReserveCapacity(g) =>
      TakeSlot(r, r.adds[g].mode).(adds := r.adds[g := r.adds[g].(reserved := true)])
    case AbortAdd(g) => Release(r, r.adds[g].reserved, r.adds[g].mode).(adds := r.adds - {g})
    case CompleteAdd(g, now) =>
      var id := r.adds[g].executionId;
      var startedAt := if id in r.active then r.executions[r.active[id]].startedAt else now;
      r.(adds := r.adds - {g},
         executions := r.executions[g := Execution(id, r.adds[g].mode, Running, startedAt, Pending, false)],
         active := r.active[id := g])
    case SetStatus(id, status) =>
      if id in r.active then r.(executions := r.executions[r.active[id] := r.executions[r.active[id]].(status := status)]) else r
    case SetResponseMode(id, responseMode) => r.(responseModes := r.responseModes[id := responseMode])
    case Stop(id) => StopOne(r, id)
    case Finalize(id) => if id in r.active then SettleCurrent(r, id, Resolved) else r
    case PromiseSettled(g) =>
      var x := r.executions[g];
      var released := Release(r, x.mode != Evaluation, x.mode).(executions := r.executions[g := x.(cleaned := true)]);
      if x.status == Waiting then released else Forget(released, x.executionId)
    case Sweep(regularMode, cancelAll) =>
      SweepAll(if regularMode then r.(concurrencyEnabled := false) else r, r.active.Keys, regularMode, cancelAll)
  }

  lemma ApplyValid(r: Registry, e: Event)
    requires Valid(r) && Enabled(r, e)
    ensures Valid(Apply(r, e))
  {
    if e.Sweep? {
      SweepValid(if e.regularMode then r.(concurrencyEnabled := false) else r, r.active.Keys, e.regularMode, e.cancelAll);
    } else if IsAddEvent(e) {
      AddEventValid(r, e);
    } else if e.PromiseSettled? {
      SettledValid(r, e.g);
    } else {
      CallValid(r, e);
    }
  }

  predicate IsAddEvent(e: Event) {
    e.BeginAdd? || e.ReserveCapacity? || e.AbortAdd? || e.CompleteAdd?
  }

  lemma AddEventValid(r: Registry, e: Event)
    requires Valid(r) && Enabled(r, e) && IsAddEvent(e)
    ensures Valid(Apply(r, e))
  {
  }

  lemma SettledValid(r: Registry, g: Generation)
    requires Valid(r) && Enabled(r, PromiseSettled(g))
    ensures Valid(Apply(r, PromiseSettled(g)))
  {
  }

  lemma CallValid(r: Registry, e: Event)
    requires Valid(r) && Enabled(r, e) && !IsAddEvent(e) && !e.PromiseSettled? && !e.Sweep?
    ensures Valid(Apply(r, e))
  {
  }

  lemma SweepValid(r: Registry, ids: set<ExecutionId>, regularMode: bool, cancelAll: bool)
    requires Valid(r)
    ensures Valid(SweepAll(r, ids, regularMode, cancelAll))
  {
  }

  // ---------------------------------------------------------------- runs

  ghost predicate IsRun(r: Registry, events: seq<Event>)
    requires Valid(r)
    decreases |events|
  {
    events != [] ==> Enabled(r, events[0]) && (ApplyValid(r, events[0]); IsRun(Apply(r, events[0]), events[1..]))
  }

  ghost function After(r: Registry, events: seq<Event>): (r': Registry)
    requires Valid(r) && IsRun(r, events)
    ensures Valid(r')
    decreases |events|
  {
    if events == [] then r else ApplyValid(r, events[0]); After(Apply(r, events[0]), events[1..])
  }

  // ---------------------------------------------------------------- slots

  /** Its reservation is made and not released yet, and its mode is a limited one. */
  predicate IsHolder(r: Registry, g: Generation) {
    || (g in r.adds && r.adds[g].reserved && Limited(r.adds[g].mode))
    || (g in r.executions && !r.executions[g].cleaned && Limited(r.executions[g].mode))
  }

  function Holders(r: Registry): set<Generation> {
    set g | g in r.adds.Keys + r.executions.Keys && IsHolder(r, g)
  }

  predicate Conserved(r: Registry) {
    r.concurrencyEnabled ==> r.slots == |Holders(r)|
  }

  predicate TakesSlot(r: Registry, e: Event)
    requires Enabled(r, e)
  {
    e.ReserveCapacity? && Limited(r.adds[e.g].mode)
  }

  lemma HolderStep(r: Registry, e: Event, g: Generation)
    requires Valid(r) && Enabled(r, e)
    ensures IsHolder(Apply(r, e), g) <==>
      if e.ReserveCapacity? then IsHolder(r, g) || (TakesSlot(r, e) && g == e.g)
      else if e.AbortAdd? || e.PromiseSettled? then IsHolder(r, g) && g != e.g
      else IsHolder(r, g)
  {
    if IsAddEvent(e) {
      HolderAddStep(r, e, g);
    } else {
      HolderCallStep(r, e, g);
    }
  }

  lemma HolderAddStep(r: Registry, e: Event, g: Generation)
    requires Valid(r) && Enabled(r, e) && IsAddEvent(e)
    ensures IsHolder(Apply(r, e), g) <==>
      if e.ReserveCapacity? then IsHolder(r, g) || (TakesSlot(r, e) && g == e.g)
      else if e.AbortAdd? then IsHolder(r, g) && g != e.g
      else IsHolder(r, g)
  {
  }

  lemma HolderCallStep(r: Registry, e: Event, g: Generation)
    requires Valid(r) && Enabled(r, e) && !IsAddEvent(e)
    ensures IsHolder(Apply(r, e), g) <==> IsHolder(r, g) && !(e.PromiseSettled? && g == e.g)
  {
  }

  /** Who takes and who gives back: one holder comes or goes per event, and only by these three. */
  lemma HoldersStep(r: Registry, e: Event)
    requires Valid(r) && Enabled(r, e)
    ensures e.ReserveCapacity? ==> e.g !in Holders(r)
    ensures Holders(Apply(r, e)) ==
      if e.ReserveCapacity? then (if TakesSlot(r, e) then Holders(r) + {e.g} else Holders(r))
      else if e.AbortAdd? || e.PromiseSettled? then Holders(r) - {e.g}
      else Holders(r)
  {
    var h := Holders(Apply(r, e));
    forall g ensures g in h <==> IsHolder(Apply(r, e), g) && (g in Holders(r) <==> IsHolder(r, g)) {
      HolderStep(r, e, g);
    }
    forall g ensures IsHolder(Apply(r, e), g) <==>
      if e.ReserveCapacity? then IsHolder(r, g) || (TakesSlot(r, e) && g == e.g)
      else if e.AbortAdd? || e.PromiseSettled? then IsHolder(r, g) && g != e.g
      else IsHolder(r, g)
    {
      HolderStep(r, e, g);
    }
  }

  lemma ConservedStep(r: Registry, e: Event)
    requires Valid(r) && Conserved(r) && Enabled(r, e)
    ensures Conserved(Apply(r, e))
  {
    HoldersStep(r, e);
    SlotsStep(r, e);
    var h, h' := Holders(r), Holders(Apply(r, e));
    assert |h'| == |h| + SlotChange(r, e) by {
      if TakesSlot(r, e) {
        assert h' == h + {e.g};
      } else if e.AbortAdd? || e.PromiseSettled? {
        assert h' == h - {e.g} && (e.g in h <==> IsHolder(r, e.g));
      }
    }
  }

  function SlotChange(r: Registry, e: Event): int
    requires Enabled(r, e)
  {
    if TakesSlot(r, e) then 1
    else if (e.AbortAdd? || e.PromiseSettled?) && IsHolder(r, e.g) then -1
    else 0
  }

  lemma SlotsStep(r: Registry, e: Event)
    requires Valid(r) && Enabled(r, e)
    ensures Apply(r, e).concurrencyEnabled ==> r.concurrencyEnabled
    ensures Apply(r, e).concurrencyEnabled ==> Apply(r, e).slots == r.slots + SlotChange(r, e)
  {
  }

  /** Slot conservation: in every run the slots in use are those of the current holders. */
  lemma {:induction false} SlotConservation(r: Registry, events: seq<Event>)
    requires Valid(r) && IsRun(r, events) && Conserved(r)
    ensures Conserved(After(r, events))
    decreases |events|
  {
    if events != [] {
      ApplyValid(r, events[0]);
      ConservedStep(r, events[0]);
      SlotConservation(Apply(r, events[0]), events[1..]);
    }
  }

  // ---------------------------------------------------------------- promises that can no longer settle

  /** Its promise is pending but the map no longer leads to it. */
  predicate Orphaned(r: Registry, g: Generation) {
    g in r.executions && r.executions[g].promise == Pending && !IsCurrent(r, r.executions[g].executionId, g)
  }

  /**
   * The exact ways to lose a running generation: stopping it while it is marked waiting, resuming
   * its execution over it, the closure of another generation, or a shutdown that drops it.
   */
  lemma OrphanedBy(r: Registry, g: Generation, e: Event)
    requires Valid(r) && Enabled(r, e) && g in r.executions && r.executions[g].promise == Pending
    requires IsCurrent(r, r.executions[g].executionId, g)
    ensures var x := r.executions[g];
      Orphaned(Apply(r, e), g) <==>
        || (e == Stop(x.executionId) && x.status == Waiting)
        || (e.CompleteAdd? && r.adds[e.g].executionId == x.executionId)
        || (e.PromiseSettled? && r.executions[e.g].executionId == x.executionId && r.executions[e.g].status != Waiting)
        || (e.Sweep? && SweptAway(r, x.executionId, e.regularMode, e.cancelAll))
  {
    if e.Sweep? {
    } else if e.PromiseSettled? {
    } else if IsAddEvent(e) {
    } else {
      OrphanedByCall(r, g, e);
    }
  }

  lemma OrphanedByCall(r: Registry, g: Generation, e: Event)
    requires Valid(r) && Enabled(r, e) && g in r.executions && r.executions[g].promise == Pending
    requires IsCurrent(r, r.executions[g].executionId, g) && !IsAddEvent(e) && !e.PromiseSettled? && !e.Sweep?
    ensures Orphaned(Apply(r, e), g) <==> e == Stop(r.executions[g].executionId) && r.executions[g].status == Waiting
  {
  }

  lemma OrphanStep(r: Registry, g: Generation, e: Event)
    requires Valid(r) && Enabled(r, e) && Orphaned(r, g)
    ensures Orphaned(Apply(r, e), g) && (IsHolder(r, g) ==> IsHolder(Apply(r, e), g))
  {
  }

  /** An orphan never settles, so it keeps its slot through every later run. */
  lemma {:induction false} OrphanKeepsSlot(r: Registry, g: Generation, events: seq<Event>)
    requires Valid(r) && IsRun(r, events) && Orphaned(r, g) && g in Holders(r)
    ensures Orphaned(After(r, events), g) && g in Holders(After(r, events))
    decreases |events|
  {
    if events != [] {
      ApplyValid(r, events[0]);
      OrphanStep(r, g, events[0]);
      OrphanKeepsSlot(Apply(r, events[0]), g, events[1..]);
    }
  }

  lemma TwoEvents(r: Registry, first: Event, second: Event)
    requires Valid(r) && Enabled(r, first) && Valid(Apply(r, first)) && Enabled(Apply(r, first), second)
    ensures IsRun(r, [first, second])
    ensures Valid(Apply(Apply(r, first), second)) && After(r, [first, second]) == Apply(Apply(r, first), second)
  {
    var r1, rest := Apply(r, first), [second];
    ApplyValid(r1, second);
    assert rest[0] == second && rest[1..] == [];
    assert IsRun(r1, rest);
    assert After(r1, rest) == After(Apply(r1, rest[0]), rest[1..]);
    var both := [first, second];
    assert both[0] == first && both[1..] == rest;
  }

  /**
   * `finalizeExecution` finds the entry by execution id. When an execution is resumed between its
   * row turning waiting and its own run finalizing it, that late call settles the promise of the
   * resumed generation instead, and the one that finished can never settle.
   */
  lemma ResumeBeforeFinalize(r: Registry, id: ExecutionId, finished: Generation, resumed: Generation, now: int)
    requires Valid(r) && IsCurrent(r, id, finished) && r.executions[finished].promise == Pending
    requires Enabled(r, CompleteAdd(resumed, now)) && r.adds[resumed].executionId == id
    ensures IsRun(r, [CompleteAdd(resumed, now), Finalize(id)])
    ensures var r' := After(r, [CompleteAdd(resumed, now), Finalize(id)]);
      resumed in r'.executions && r'.executions[resumed].promise == Resolved && Orphaned(r', finished)
  {
    ApplyValid(r, CompleteAdd(resumed, now));
    TwoEvents(r, CompleteAdd(resumed, now), Finalize(id));
  }

  // ---------------------------------------------------------------- shutdown

  lemma SweepStep(r: Registry, ids: set<ExecutionId>, id: ExecutionId, regularMode: bool, cancelAll: bool)
    requires Valid(r) && id !in ids
    ensures Valid(SweepAll(r, ids, regularMode, cancelAll))
    ensures id in r.active ==> id in SweepAll(r, ids, regularMode, cancelAll).active
    ensures SweepOne(SweepAll(r, ids, regularMode, cancelAll), id, regularMode, cancelAll)
         == SweepAll(r, ids + {id}, regularMode, cancelAll)
  {
    SweepValid(r, ids, regularMode, cancelAll);
    var s := SweepAll(r, ids, regularMode, cancelAll);
    assert id in s.active <==> id in r.active;
    if id in r.active { assert s.executions[s.active[id]] == r.executions[r.active[id]]; }
    SweepStepEntries(r, ids, id, regularMode, cancelAll);
    SweepStepActive(r, ids, id, regularMode, cancelAll);
  }

  lemma SweepStepEntries(r: Registry, ids: set<ExecutionId>, id: ExecutionId, regularMode: bool, cancelAll: bool)
    requires Valid(r) && Valid(SweepAll(r, ids, regularMode, cancelAll)) && id !in ids
    ensures SweepOne(SweepAll(r, ids, regularMode, cancelAll), id, regularMode, cancelAll).executions
         == SweepAll(r, ids + {id}, regularMode, cancelAll).executions
  {
    if regularMode && cancelAll {
      OneMoreCanceled(r, ids, id);
    }
    var s := SweepAll(r, ids, regularMode, cancelAll);
    assert id in s.active <==> id in r.active;
    if id in r.active {
      assert s.active[id] == r.active[id] && s.executions[r.active[id]] == r.executions[r.active[id]];
    }
  }

  lemma OneMoreCanceled(r: Registry, ids: set<ExecutionId>, id: ExecutionId)
    requires Valid(r) && id !in ids
    ensures CanceledEntries(r, ids + {id})
         == if id in r.active && r.executions[r.active[id]].status != Waiting
            then CanceledEntries(r, ids)[r.active[id] := Settle(r.executions[r.active[id]], Rejected)]
            else CanceledEntries(r, ids)
    ensures id in r.active ==> CanceledEntries(r, ids)[r.active[id]] == r.executions[r.active[id]]
  {
  }

  lemma GoneNext(r: Registry, ids: set<ExecutionId>, id: ExecutionId, regularMode: bool, cancelAll: bool)
    requires Valid(r)
    ensures Gone(r, ids + {id}, regularMode, cancelAll)
         == Gone(r, ids, regularMode, cancelAll)
            + (if id in r.active && SweptAway(r, id, regularMode, cancelAll) then {id} else {})
  {
  }

  lemma SweepStepActive(r: Registry, ids: set<ExecutionId>, id: ExecutionId, regularMode: bool, cancelAll: bool)
    requires Valid(r) && Valid(SweepAll(r, ids, regularMode, cancelAll)) && id !in ids
    ensures var one := SweepOne(SweepAll(r, ids, regularMode, cancelAll), id, regularMode, cancelAll);
      var all := SweepAll(r, ids + {id}, regularMode, cancelAll);
      one.active == all.active && one.responseModes == all.responseModes
  {
    var gone := Gone(r, ids, regularMode, cancelAll);
    var s := SweepAll(r, ids, regularMode, cancelAll);
    GoneNext(r, ids, id, regularMode, cancelAll);
    RemoveOneMore(r.active, gone, id);
    RemoveOneMore(r.responseModes, gone, id);
    assert gone + {} == gone;
    if id in r.active {
      assert id in s.active && s.active[id] == r.active[id] && s.executions[s.active[id]] == r.executions[r.active[id]];
    }
  }

  lemma RemoveOneMore<T>(m: map<ExecutionId, T>, gone: set<ExecutionId>, id: ExecutionId)
    ensures m - gone - {id} == m - (gone + {id})
  {
  }

  /** After the sweep no waiting entry is left; a cancelling sweep leaves no pending one, any other no new one. */
  lemma SweepLeaves(r: Registry, regularMode: bool, cancelAll: bool, id: ExecutionId)
    requires Valid(r) && id in Apply(r, Sweep(regularMode, cancelAll)).active
    ensures var r' := Apply(r, Sweep(regularMode, cancelAll));
      && IsCurrent(r, id, r'.active[id])
      && r'.executions[r'.active[id]].status != Waiting
      && (regularMode && cancelAll ==> r'.executions[r'.active[id]].promise != Pending)
      && (!(regularMode && cancelAll) ==> r'.executions[r'.active[id]] == r.executions[r.active[id]] && r.executions[r.active[id]].status != New)
  {
  }

  /** What the sweep leaves, entry by entry and promise by promise: only in regular mode does it stop the release
      of capacity, and only a cancelling sweep in that mode rejects promises and forgets response modes. */
  lemma SweepExactly(r: Registry, regularMode: bool, cancelAll: bool)
    requires Valid(r)
    ensures var r', cancel := Apply(r, Sweep(regularMode, cancelAll)), regularMode && cancelAll;
      && r'.concurrencyEnabled == (r.concurrencyEnabled && !regularMode) && r'.slots == r.slots && r'.adds == r.adds
      && (forall id :: id in r'.active <==>
            id in r.active && r.executions[r.active[id]].status != Waiting
            && (r.executions[r.active[id]].status == New ==> cancel))
      && (forall id :: id in r'.active ==> r'.active[id] == r.active[id])
      && (forall id :: id in r'.responseModes <==>
            id in r.responseModes && !(cancel && id in r.active && r.executions[r.active[id]].status == Waiting))
      && (forall id :: id in r'.responseModes ==> r'.responseModes[id] == r.responseModes[id])
  {
  }

  lemma SweepRejectsExactly(r: Registry, regularMode: bool, cancelAll: bool, g: Generation)
    requires Valid(r) && g in r.executions
    ensures Apply(r, Sweep(regularMode, cancelAll)).executions.Keys == r.executions.Keys
    ensures var x := r.executions[g];
      Apply(r, Sweep(regularMode, cancelAll)).executions[g]
      == if regularMode && cancelAll && x.executionId in r.active && r.active[x.executionId] == g
            && x.status != Waiting && x.promise == Pending
         then x.(promise := Rejected) else x
  {
  }

  // ---------------------------------------------------------------- the recorded start

  /** When the run recorded for the entry of `id` started. */
  function StartedAt(r: Registry, id: ExecutionId): int
    requires Valid(r) && id in r.active
  {
    r.executions[r.active[id]].startedAt
  }

  lemma StartedAtStep(r: Registry, e: Event, id: ExecutionId)
    requires Valid(r) && Enabled(r, e) && Valid(Apply(r, e)) && id in r.active && id in Apply(r, e).active
    ensures StartedAt(Apply(r, e), id) == StartedAt(r, id)
  {
    if e.PromiseSettled? || e.Sweep? || IsAddEvent(e) {
    } else {
      CallKeepsStart(r, e, id);
    }
  }

  lemma CallKeepsStart(r: Registry, e: Event, id: ExecutionId)
    requires Valid(r) && Enabled(r, e) && Valid(Apply(r, e)) && id in r.active && id in Apply(r, e).active
    requires !IsAddEvent(e) && !e.PromiseSettled? && !e.Sweep?
    ensures StartedAt(Apply(r, e), id) == StartedAt(r, id)
  {
  }

  /** The map holds an entry for `id` all along the run. */
  ghost predicate StaysActive(r: Registry, events: seq<Event>, id: ExecutionId)
    requires Valid(r) && IsRun(r, events)
    decreases |events|
  {
    id in r.active
    && (events != [] ==> (ApplyValid(r, events[0]); StaysActive(Apply(r, events[0]), events[1..], id)))
  }

  /** While an execution stays in the map its recorded start never changes, through any number of waits and
      resumes, however late the resumed entries are added. */
  lemma {:induction false} StartedAtStays(r: Registry, events: seq<Event>, id: ExecutionId)
    requires Valid(r) && IsRun(r, events) && StaysActive(r, events, id)
    ensures id in After(r, events).active && StartedAt(After(r, events), id) == StartedAt(r, id)
    decreases |events|
  {
    if events != [] {
      ApplyValid(r, events[0]);
      var r1 := Apply(r, events[0]);
      assert StaysActive(r1, events[1..], id);
      StartedAtStays(r1, events[1..], id);
      StartedAtStep(r, events[0], id);
    }
  }

  /** A first add records the instant it is made, and one that resumes an entry keeps the entry's. */
  lemma StartsWhenFirstAdded(r: Registry, g: Generation, now: int, events: seq<Event>)
    requires Valid(r) && Enabled(r, CompleteAdd(g, now)) && Valid(Apply(r, CompleteAdd(g, now)))
    requires IsRun(Apply(r, CompleteAdd(g, now)), events)
    requires StaysActive(Apply(r, CompleteAdd(g, now)), events, r.adds[g].executionId)
    ensures var id, r' := r.adds[g].executionId, After(Apply(r, CompleteAdd(g, now)), events);
            id in r'.active && StartedAt(r', id) == if id in r.active then StartedAt(r, id) else now
  {
    StartedAtStays(Apply(r, CompleteAdd(g, now)), events, r.adds[g].executionId);
  }

  // ---------------------------------------------------------------- entries that linger

  /** The entry of `id` is waiting, and no closure still to run would delete it. */
  predicate Lingers(r: Registry, id: ExecutionId)
    requires Valid(r)
  {
    && id in r.active && r.executions[r.active[id]].status == Waiting
    && forall g :: g in r.executions && r.executions[g].executionId == id ==> r.executions[g].status == Waiting || r.executions[g].cleaned
  }

  /** Nobody stops, resumes or sweeps `id` or gives it another status. */
  predicate LeavesWaiting(r: Registry, e: Event, id: ExecutionId)
    requires Valid(r) && Enabled(r, e)
  {
    && e != Stop(id) && !e.Sweep? && (e.SetStatus? && e.id == id ==> e.status == Waiting)
    && (e.CompleteAdd? ==> r.adds[e.g].executionId != id)
  }

  ghost predicate LeftWaiting(r: Registry, events: seq<Event>, id: ExecutionId)
    requires Valid(r) && IsRun(r, events)
    decreases |events|
  {
    events != [] ==>
      LeavesWaiting(r, events[0], id) && (ApplyValid(r, events[0]); LeftWaiting(Apply(r, events[0]), events[1..], id))
  }

  /** One step keeps the entry lingering exactly if it does not stop, resume, sweep or wake it. */
  lemma LingersStep(r: Registry, e: Event, id: ExecutionId)
    requires Valid(r) && Enabled(r, e) && Lingers(r, id)
    ensures Valid(Apply(r, e)) && (Lingers(Apply(r, e), id) <==> LeavesWaiting(r, e, id))
  {
    ApplyValid(r, e);
    if LeavesWaiting(r, e, id) {
      StaysLingering(r, e, id);
    } else {
      StopsLingering(r, e, id);
    }
  }

  lemma StopsLingering(r: Registry, e: Event, id: ExecutionId)
    requires Valid(r) && Enabled(r, e) && Lingers(r, id) && !LeavesWaiting(r, e, id) && Valid(Apply(r, e))
    ensures !Lingers(Apply(r, e), id)
  {
  }

  lemma StaysLingering(r: Registry, e: Event, id: ExecutionId)
    requires Valid(r) && Enabled(r, e) && Lingers(r, id) && LeavesWaiting(r, e, id) && Valid(Apply(r, e))
    ensures Lingers(Apply(r, e), id)
  {
    if IsAddEvent(e) {
      AddKeepsWaitingEntry(r, e, id);
    } else if e.PromiseSettled? {
      SettledKeepsWaitingEntry(r, e, id);
    } else {
      CallKeepsWaitingEntry(r, e, id);
    }
    var r' := Apply(r, e);
    forall g | g in r'.executions && r'.executions[g].executionId == id
      ensures r'.executions[g].status == Waiting || r'.executions[g].cleaned
    {
      KeepsHarmless(r, e, id, g);
    }
  }

  lemma AddKeepsWaitingEntry(r: Registry, e: Event, id: ExecutionId)
    requires Valid(r) && Enabled(r, e) && Lingers(r, id) && LeavesWaiting(r, e, id) && Valid(Apply(r, e))
    requires IsAddEvent(e)
    ensures id in Apply(r, e).active && Apply(r, e).executions[Apply(r, e).active[id]].status == Waiting
  {
  }

  lemma SettledKeepsWaitingEntry(r: Registry, e: Event, id: ExecutionId)
    requires Valid(r) && Enabled(r, e) && Lingers(r, id) && LeavesWaiting(r, e, id) && Valid(Apply(r, e))
    requires e.PromiseSettled?
    ensures id in Apply(r, e).active && Apply(r, e).executions[Apply(r, e).active[id]].status == Waiting
  {
    var x := r.executions[e.g];
    assert x.executionId == id ==> x.status == Waiting;
  }

  lemma CallKeepsWaitingEntry(r: Registry, e: Event, id: ExecutionId)
    requires Valid(r) && Enabled(r, e) && Lingers(r, id) && LeavesWaiting(r, e, id) && Valid(Apply(r, e))
    requires !IsAddEvent(e) && !e.PromiseSettled?
    ensures id in Apply(r, e).active && Apply(r, e).executions[Apply(r, e).active[id]].status == Waiting
  {
  }

  lemma KeepsHarmless(r: Registry, e: Event, id: ExecutionId, g: Generation)
    requires Valid(r) && Enabled(r, e) && Lingers(r, id) && LeavesWaiting(r, e, id)
    requires g in Apply(r, e).executions && Apply(r, e).executions[g].executionId == id
    ensures Apply(r, e).executions[g].status == Waiting || Apply(r, e).executions[g].cleaned
  {
  }

  /** The entry lingers from `r` to the end of the run. */
  ghost predicate LingersThroughout(r: Registry, events: seq<Event>, id: ExecutionId)
    requires Valid(r) && IsRun(r, events)
    decreases |events|
  {
    Lingers(r, id)
    && (events != [] ==> (ApplyValid(r, events[0]); LingersThroughout(Apply(r, events[0]), events[1..], id)))
  }

  /**
   * An execution that starts waiting after the sweep is never removed by its own closure: it stays in
   * the map, waiting, all along a run exactly if nobody stops, resumes, sweeps or wakes it. The loop in
   * which `shutdown` waits for an empty map does none of that, so it cannot end on its own.
   */
  lemma {:induction false} WaitingBlocksShutdown(r: Registry, id: ExecutionId, events: seq<Event>)
    requires Valid(r) && IsRun(r, events) && Lingers(r, id)
    ensures LingersThroughout(r, events, id) <==> LeftWaiting(r, events, id)
    ensures LeftWaiting(r, events, id) ==> id in After(r, events).active
    decreases |events|
  {
    if events != [] {
      LingersStep(r, events[0], id);
      var r1 := Apply(r, events[0]);
      if Lingers(r1, id) {
        WaitingBlocksShutdown(r1, id, events[1..]);
      }
    }
  }

  const LATE := PendingAdd("e", Webhook, false)
  const LATE_RUN := Execution("e", Webhook, Running, 0, Pending, false)

  /** An execution that runs during the sweep and begins to wait after it. */
  const LATE_WAIT := [
    BeginAdd(0, "e", Webhook), ReserveCapacity(0), CompleteAdd(0, 0), Sweep(true, false), SetStatus("e", Waiting)
  ]

  const LATE_RUNNING :=
    Registry(map["e" := 0], map[0 := LATE_RUN], map[], map[], 1, true)

  const LATE_WAITING :=
    Registry(map["e" := 0], map[0 := LATE_RUN.(status := Waiting)], map[], map[], 1, false)

  lemma LateAdd()
    ensures Apply(EMPTY, LATE_WAIT[0]) == EMPTY.(adds := map[0 := LATE])
    ensures Apply(EMPTY.(adds := map[0 := LATE]), LATE_WAIT[1])
         == EMPTY.(adds := map[0 := LATE.(reserved := true)], slots := 1)
    ensures Apply(EMPTY.(adds := map[0 := LATE.(reserved := true)], slots := 1), LATE_WAIT[2]) == LATE_RUNNING
  {
    assert Apply(EMPTY.(adds := map[0 := LATE]), LATE_WAIT[1]).adds == map[0 := LATE.(reserved := true)];
    assert Apply(EMPTY.(adds := map[0 := LATE.(reserved := true)], slots := 1), LATE_WAIT[2]).adds == map[];
  }

  lemma LateSweep()
    ensures Valid(LATE_RUNNING)
    ensures Apply(LATE_RUNNING, Sweep(true, false)) == LATE_RUNNING.(concurrencyEnabled := false)
    ensures Apply(LATE_RUNNING.(concurrencyEnabled := false), SetStatus("e", Waiting)) == LATE_WAITING
  {
    var r := LATE_RUNNING.(concurrencyEnabled := false);
    assert Gone(r, LATE_RUNNING.active.Keys, true, false) == {};
    assert r.active - {} == r.active;
    assert Apply(LATE_RUNNING, Sweep(true, false)).executions == r.executions;
    assert Apply(r, SetStatus("e", Waiting)).executions == LATE_WAITING.executions;
  }

  lemma PrependEvent(r: Registry, e: Event, rest: seq<Event>)
    requires Valid(r) && Enabled(r, e) && Valid(Apply(r, e)) && IsRun(Apply(r, e), rest)
    ensures IsRun(r, [e] + rest) && After(r, [e] + rest) == After(Apply(r, e), rest)
  {
    assert ([e] + rest)[1..] == rest;
  }

  /** The first add of either run. */
  lemma AddedLate(rest: seq<Event>)
    requires Valid(LATE_RUNNING) && IsRun(LATE_RUNNING, rest)
    ensures var run := [LATE_WAIT[0]] + ([LATE_WAIT[1]] + ([LATE_WAIT[2]] + rest));
            IsRun(EMPTY, run) && After(EMPTY, run) == After(LATE_RUNNING, rest)
  {
    LateAdd();
    var r1 := EMPTY.(adds := map[0 := LATE]);
    var r2 := EMPTY.(adds := map[0 := LATE.(reserved := true)], slots := 1);
    PrependEvent(r2, LATE_WAIT[2], rest);
    PrependEvent(r1, LATE_WAIT[1], [LATE_WAIT[2]] + rest);
    PrependEvent(EMPTY, LATE_WAIT[0], [LATE_WAIT[1]] + ([LATE_WAIT[2]] + rest));
  }

  /** Such a state is reached from an empty map, with a shutdown sweep on the way. */
  lemma ShutdownCanBlock()
    ensures IsRun(EMPTY, LATE_WAIT) && After(EMPTY, LATE_WAIT) == LATE_WAITING
    ensures Lingers(LATE_WAITING, "e")
  {
    LateSweep();
    var r4 := LATE_RUNNING.(concurrencyEnabled := false);
    assert IsRun(LATE_WAITING, []);
    PrependEvent(r4, LATE_WAIT[4], []);
    PrependEvent(LATE_RUNNING, LATE_WAIT[3], [LATE_WAIT[4]] + []);
    AddedLate([LATE_WAIT[3]] + ([LATE_WAIT[4]] + []));
    assert LATE_WAIT == [LATE_WAIT[0]] + ([LATE_WAIT[1]] + ([LATE_WAIT[2]] + ([LATE_WAIT[3]] + ([LATE_WAIT[4]] + []))));
  }

  const WAITED := [
    BeginAdd(0, "e", Webhook), ReserveCapacity(0), CompleteAdd(0, 0), SetStatus("e", Waiting), Stop("e")
  ]

  /** The entry is forgotten, its promise pending and its slot taken. */
  const STOPPED :=
    Registry(map[], map[0 := LATE_RUN.(status := Waiting)], map[], map[], 1, true)

  lemma LateStop()
    ensures Valid(LATE_RUNNING) && Valid(LATE_WAITING.(concurrencyEnabled := true))
    ensures Apply(LATE_RUNNING, WAITED[3]) == LATE_WAITING.(concurrencyEnabled := true)
    ensures Apply(LATE_WAITING.(concurrencyEnabled := true), WAITED[4]) == STOPPED
    ensures Valid(STOPPED) && Orphaned(STOPPED, 0) && 0 in Holders(STOPPED)
  {
    var r4 := LATE_WAITING.(concurrencyEnabled := true);
    assert Apply(LATE_RUNNING, WAITED[3]).executions == r4.executions;
    assert Apply(r4, WAITED[4]).active == map[] && Apply(r4, WAITED[4]).responseModes == map[];
  }

  /** Such a loss is reached from an empty map by stopping an execution that is marked waiting. */
  lemma StoppedWhileWaiting()
    ensures IsRun(EMPTY, WAITED) && After(EMPTY, WAITED) == STOPPED
    ensures Valid(STOPPED) && Orphaned(STOPPED, 0) && 0 in Holders(STOPPED)
  {
    LateStop();
    var r4 := LATE_WAITING.(concurrencyEnabled := true);
    assert IsRun(STOPPED, []);
    PrependEvent(r4, WAITED[4], []);
    PrependEvent(LATE_RUNNING, WAITED[3], [WAITED[4]] + []);
    AddedLate([WAITED[3]] + ([WAITED[4]] + []));
    assert WAITED == [LATE_WAIT[0]] + ([LATE_WAIT[1]] + ([LATE_WAIT[2]] + ([WAITED[3]] + ([WAITED[4]] + []))));
  }

  // ---------------------------------------------------------------- the class

  datatype ExecutionNotFound = ExecutionNotFound(id: ExecutionId)

  class ActiveExecutions {
    var activeExecutions: map<ExecutionId, Generation>
    var executions: map<Generation, Execution>
    var pendingAdds: map<Generation, PendingAdd>
    var responseModes: map<ExecutionId, ResponseMode>
    var slots: int
    var concurrencyEnabled: bool
    var nextGeneration: Generation

    ghost function State(): Registry
      reads this
    {
      Registry(activeExecutions, executions, pendingAdds, responseModes, slots, concurrencyEnabled)
    }

    ghost predicate IsValid()
      reads this
    {
      Valid(State()) && forall g :: g in executions || g in pendingAdds ==> g < nextGeneration
    }

    constructor ()
      ensures IsValid() && State() == EMPTY
    {
      activeExecutions, executions, pendingAdds, responseModes := map[], map[], map[], map[];
      slots, concurrencyEnabled, nextGeneration := 0, true, 0;
    }

    predicate Has(executionId: ExecutionId)
      reads this
    {
      executionId in activeExecutions
    }

    /** `add` up to its first await; `executionId` is the row's id, just created or being resumed. */
    method BeginAdd(executionId: ExecutionId, mode: Mode) returns (g: Generation)
      requires IsValid()
      modifies this
      ensures IsValid() && Enabled(old(State()), Event.BeginAdd(g, executionId, mode))
      ensures State() == Apply(old(State()), Event.BeginAdd(g, executionId, mode))
      ensures g !in old(executions) && g !in old(pendingAdds)
      ensures pendingAdds == old(pendingAdds)[g := PendingAdd(executionId, mode, false)]
      ensures unchanged(`activeExecutions, `executions, `responseModes, `slots, `concurrencyEnabled)
    {
      g := nextGeneration;
      nextGeneration := nextGeneration + 1;
      pendingAdds := pendingAdds[g := PendingAdd(executionId, mode, false)];
    }

    method ReserveCapacity(g: Generation)
      requires IsValid() && Enabled(State(), Event.ReserveCapacity(g))
      modifies this
      ensures IsValid() && State() == Apply(old(State()), Event.ReserveCapacity(g))
      ensures slots == old(slots) + if concurrencyEnabled && old(pendingAdds)[g].mode in {Webhook, Trigger, Chat} then 1 else 0
      ensures pendingAdds == old(pendingAdds)[g := old(pendingAdds)[g].(reserved := true)]
      ensures unchanged(`activeExecutions, `executions, `responseModes, `concurrencyEnabled)
    {
      if concurrencyEnabled && Limited(pendingAdds[g].mode) { slots := slots + 1; }
      pendingAdds := pendingAdds[g := pendingAdds[g].(reserved := true)];
    }

    method ReleaseCapacity(reserved: bool, mode: Mode)
      modifies this`slots
      ensures State() == Release(old(State()), reserved, mode)
    {
      if reserved && concurrencyEnabled && Limited(mode) { slots := slots - 1; }
    }

    method AbortAdd(g: Generation)
      requires IsValid() && g in pendingAdds
      modifies this
      ensures IsValid() && State() == Apply(old(State()), Event.AbortAdd(g))
      ensures slots == old(slots) -
              if concurrencyEnabled && old(pendingAdds)[g].reserved && old(pendingAdds)[g].mode in {Webhook, Trigger, Chat} then 1 else 0
      ensures pendingAdds == old(pendingAdds) - {g}
      ensures unchanged(`activeExecutions, `executions, `responseModes, `concurrencyEnabled)
    {
      ReleaseCapacity(pendingAdds[g].reserved, pendingAdds[g].mode);
      pendingAdds := pendingAdds - {g};
    }

    method CompleteAdd(g: Generation, now: int) returns (executionId: ExecutionId)
      requires IsValid() && Enabled(State(), Event.CompleteAdd(g, now))
      modifies this
      ensures IsValid() && State() == Apply(old(State()), Event.CompleteAdd(g, now))
      ensures executionId == old(pendingAdds[g].executionId) && IsCurrent(State(), executionId, g)
      ensures activeExecutions == old(activeExecutions)[executionId := g] && pendingAdds == old(pendingAdds) - {g}
      ensures executions.Keys == old(executions).Keys + {g}
      ensures forall h :: h in old(executions) ==> executions[h] == old(executions)[h]
      ensures var x := executions[g];
              && x.executionId == executionId && x.mode == old(pendingAdds)[g].mode
              && x.status == Running && x.promise == Pending && !x.cleaned
              && x.startedAt == (if executionId in old(activeExecutions)
                                 then old(executions)[old(activeExecutions)[executionId]].startedAt else now)
      ensures unchanged(`responseModes, `slots, `concurrencyEnabled)
    {
      var add := pendingAdds[g];
      executionId := add.executionId;
      var startedAt := now;
      if executionId in activeExecutions {
        startedAt := executions[activeExecutions[executionId]].startedAt;
      }
      pendingAdds := pendingAdds - {g};
      executions := executions[g := Execution(executionId, add.mode, Running, startedAt, Pending, false)];
      activeExecutions := activeExecutions[executionId := g];
    }

    /** The closure on the post-execute promise; it deletes by execution id. */
    method OnPromiseSettled(g: Generation)
      requires IsValid() && Enabled(State(), Event.PromiseSettled(g))
      modifies this
      ensures IsValid() && State() == Apply(old(State()), Event.PromiseSettled(g))
      ensures executions == old(executions)[g := old(executions)[g].(cleaned := true)]
      ensures slots == old(slots) - if concurrencyEnabled && old(executions)[g].mode in {Webhook, Trigger, Chat} then 1 else 0
      ensures old(executions)[g].status == Waiting ==> unchanged(`activeExecutions, `responseModes)
      ensures old(executions)[g].status != Waiting ==>
              && activeExecutions == old(activeExecutions) - {old(executions)[g].executionId}
              && responseModes == old(responseModes) - {old(executions)[g].executionId}
      ensures unchanged(`pendingAdds, `concurrencyEnabled)
    {
      var execution := executions[g];
      ReleaseCapacity(execution.mode != Evaluation, execution.mode);
      executions := executions[g := execution.(cleaned := true)];
      if execution.status != Waiting {
        activeExecutions := activeExecutions - {execution.executionId};
        responseModes := responseModes - {execution.executionId};
      }
    }

    method StopExecution(executionId: ExecutionId)
      requires IsValid()
      modifies this`activeExecutions, this`executions, this`responseModes
      ensures IsValid() && State() == Apply(old(State()), Event.Stop(executionId))
      ensures executionId !in old(activeExecutions) ==> unchanged(this)
      ensures executionId in old(activeExecutions) ==>
              var g := old(activeExecutions)[executionId];
              var x := old(executions)[g];
              if x.status == Waiting then
                && activeExecutions == old(activeExecutions) - {executionId}
                && responseModes == old(responseModes) - {executionId} && executions == old(executions)
              else
                && unchanged(`activeExecutions, `responseModes)
                && executions == old(executions)[g := if x.promise == Pending then x.(promise := Rejected) else x]
    {
      if executionId !in activeExecutions { return; }
      var g := activeExecutions[executionId];
      if executions[g].status == Waiting {
        activeExecutions := activeExecutions - {executionId};
        responseModes := responseModes - {executionId};
      } else {
        executions := executions[g := Settle(executions[g], Rejected)];
      }
    }

    method FinalizeExecution(executionId: ExecutionId)
      requires IsValid()
      modifies this`executions
      ensures IsValid() && State() == Apply(old(State()), Event.Finalize(executionId))
      ensures executionId !in activeExecutions ==> unchanged(this)
      ensures executionId in activeExecutions ==>
              var g := activeExecutions[executionId];
              var x := old(executions)[g];
              executions == old(executions)[g := if x.promise == Pending then x.(promise := Resolved) else x]
    {
      if !Has(executionId) { return; }
      var g := activeExecutions[executionId];
      executions := executions[g := Settle(executions[g], Resolved)];
    }

    method SetStatus(executionId: ExecutionId, status: Status) returns (r: Result<(), ExecutionNotFound>)
      requires IsValid()
      modifies this`executions
      ensures IsValid() && State() == Apply(old(State()), Event.SetStatus(executionId, status))
      ensures r == if executionId in activeExecutions then Result.Success(()) else Result.Failure(ExecutionNotFound(executionId))
      ensures executions == if executionId !in activeExecutions then old(executions)
                            else var g := activeExecutions[executionId];
                                 old(executions)[g := old(executions)[g].(status := status)]
    {
      if executionId !in activeExecutions { return Result.Failure(ExecutionNotFound(executionId)); }
      var g := activeExecutions[executionId];
      executions := executions[g := executions[g].(status := status)];
      return Result.Success(());
    }

    method SetResponseMode(executionId: ExecutionId, responseMode: ResponseMode)
      requires IsValid()
      modifies this`responseModes
      ensures IsValid() && State() == Apply(old(State()), Event.SetResponseMode(executionId, responseMode))
      ensures responseModes == old(responseModes)[executionId := responseMode]
    {
      responseModes := responseModes[executionId := responseMode];
    }

    method SweepExecution(executionId: ExecutionId, regularMode: bool, cancelAll: bool)
      requires IsValid() && executionId in activeExecutions
      modifies this`activeExecutions, this`executions, this`responseModes
      ensures IsValid() && State() == SweepOne(old(State()), executionId, regularMode, cancelAll)
    {
      var status := executions[activeExecutions[executionId]].status;
      if regularMode && cancelAll {
        StopExecution(executionId);
      } else if status == Waiting || status == New {
        activeExecutions := activeExecutions - {executionId};
      }
    }

    /** The sweep that `shutdown` makes before it waits for the remaining entries. */
    method ShutdownSweep(regularMode: bool, cancelAll: bool)
      requires IsValid()
      modifies this
      ensures IsValid() && State() == Apply(old(State()), Event.Sweep(regularMode, cancelAll))
    {
      if regularMode { concurrencyEnabled := false; }
      ghost var start := State();
      var executionIds := activeExecutions.Keys;
      var todo := executionIds;
      SweepNone(start, regularMode, cancelAll);
      while todo != {}
        invariant todo <= executionIds == start.active.Keys
        invariant IsValid() && State() == SweepAll(start, executionIds - todo, regularMode, cancelAll)
        decreases todo
      {
        var id :| id in todo;
        SweepStep(start, executionIds - todo, id, regularMode, cancelAll);
        assert executionIds - todo + {id} == executionIds - (todo - {id});
        SweepExecution(id, regularMode, cancelAll);
        todo := todo - {id};
      }
      assert executionIds - todo == executionIds;
    }
  }

  lemma SweepNone(r: Registry, regularMode: bool, cancelAll: bool)
    requires Valid(r)
    ensures SweepAll(r, {}, regularMode, cancelAll) == r
  {
  }
}
