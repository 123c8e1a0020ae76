/**
 * Any number of processes sharing the execution rows of one database: creating executions, putting
 * them to wait, and resuming them through a compare-and-set on the row's status.
 *
 * Assumed of the environment: only the run that holds a row writes it to waiting, and it has marked
 * its in-memory entry waiting before that; the in-memory status is only ever set to waiting.
 */
module ResumeProtocol {
  import opened ActiveExecutions

  type ProcessId = nat
  datatype RowStatus = RowWaiting | RowOther

  /** `waits` counts how often the row entered waiting, `resumes` how often a resume won it. */
  datatype Row = Row(status: RowStatus, waits: nat, resumes: nat)

  datatype Holder = Holder(p: ProcessId, g: Generation)

  /** `owner` is the generation that created the row or last won it. */
  datatype World = World(rows: map<ExecutionId, Row>,
                         procs: map<ProcessId, Registry>,
                         owner: map<ExecutionId, Holder>)

  datatype Step =
    | Local(p: ProcessId, event: Event)
    | CreateRow(p: ProcessId, g: Generation)
    | CompareAndSet(p: ProcessId, g: Generation)
    | FinishAdd(p: ProcessId, g: Generation, now: int)
    | PutToWait(p: ProcessId, g: Generation)
    | Overwrite(id: ExecutionId)

  predicate WorldValid(w: World) {
    forall p :: p in w.procs ==> Valid(w.procs[p])
  }

  /** An `add` whose reservation is done or skipped. */
  predicate Ready(r: Registry, g: Generation) {
    g in r.adds && (r.adds[g].reserved || r.adds[g].mode == Evaluation)
  }

  predicate CanTake(w: World, s: Step)
    requires WorldValid(w)
  {
    match s
    case Local(p, e) =>
      p in w.procs && Enabled(w.procs[p], e) && !e.CompleteAdd? && (e.SetStatus? ==> e.status == Waiting)
    case CreateRow(p, g) =>
      p in w.procs && g in w.procs[p].adds && w.procs[p].adds[g].executionId !in w.rows
    case CompareAndSet(p, g) =>
      p in w.procs && Ready(w.procs[p], g) && w.procs[p].adds[g].executionId in w.rows
      && w.rows[w.procs[p].adds[g].executionId].status == RowWaiting
    case FinishAdd(p, g, _) =>
      p in w.procs && Ready(w.procs[p], g) && Owns(w, w.procs[p].adds[g].executionId, p, g)
    case PutToWait(p, g) =>
      && p in w.procs && g in w.procs[p].executions && w.procs[p].executions[g].status == Waiting
      && Owns(w, w.procs[p].executions[g].executionId, p, g)
      && w.procs[p].executions[g].executionId in w.rows
      && w.rows[w.procs[p].executions[g].executionId].status == RowOther
    case Overwrite(id) => id in w.rows
  }

  predicate Owns(w: World, id: ExecutionId, p: ProcessId, g: Generation) {
    id in w.owner && w.owner[id] == Holder(p, g)
  }

  function Take(w: World, s: Step): World
    requires WorldValid(w) && CanTake(w, s)
  {
    match s
    case Local(p, e) => w.(procs := w.procs[p := Apply(w.procs[p], e)])
    case CreateRow(p, g) =>
      var id := w.procs[p].adds[g].executionId;
      w.(rows := w.rows[id := Row(RowOther, 0, 0)], owner := w.owner[id := Holder(p, g)])
    case CompareAndSet(p, g) =>
      var id := w.procs[p].adds[g].executionId;
      var row := w.rows[id];
      w.(rows := w.rows[id := Row(RowOther, row.waits, row.resumes + 1)], owner := w.owner[id := Holder(p, g)])
    case FinishAdd(p, g, now) => w.(procs := w.procs[p := Apply(w.procs[p], CompleteAdd(g, now))])
    case PutToWait(p, g) =>
      var id := w.procs[p].executions[g].executionId;
      var row := w.rows[id];
      w.(rows := w.rows[id := Row(RowWaiting, row.waits + 1, row.resumes)])
    case Overwrite(id) => w.(rows := w.rows[id := w.rows[id].(status := RowOther)])
  }

  // ---------------------------------------------------------------- the invariant

  /** A generation whose closure would still delete by id owns the row and is the one in the map. */
  predicate DeleterIsOwner(w: World, p: ProcessId, g: Generation)
    requires p in w.procs && g in w.procs[p].executions
  {
    var x := w.procs[p].executions[g];
    x.cleaned || x.status == Waiting
    || (x.status == Running && Owns(w, x.executionId, p, g) && IsCurrent(w.procs[p], x.executionId, g))
  }

  /** While a row waits, whoever owns it has been told so in memory. */
  predicate OwnerKnowsWaiting(w: World, id: ExecutionId)
    requires id in w.owner && id in w.rows
  {
    var h := w.owner[id];
    w.rows[id].status == RowWaiting ==>
      h.p in w.procs && h.g in w.procs[h.p].executions && w.procs[h.p].executions[h.g].status == Waiting
  }

  predicate Paid(row: Row) {
    row.resumes + (if row.status == RowWaiting then 1 else 0) <= row.waits
  }

  ghost predicate Inv(w: World) {
    && WorldValid(w)
    && w.rows.Keys == w.owner.Keys
    && (forall p, g {:trigger DeleterIsOwner(w, p, g)} :: p in w.procs && g in w.procs[p].executions ==> DeleterIsOwner(w, p, g))
    && (forall id {:trigger OwnerKnowsWaiting(w, id)} :: id in w.rows ==> OwnerKnowsWaiting(w, id))
    && (forall id :: id in w.rows ==> Paid(w.rows[id]))
  }

  lemma TakeKeepsValid(w: World, s: Step)
    requires WorldValid(w) && CanTake(w, s)
    ensures WorldValid(Take(w, s))
  {
    if s.Local? { ApplyValid(w.procs[s.p], s.event); }
    if s.FinishAdd? { ApplyValid(w.procs[s.p], CompleteAdd(s.g, s.now)); }
  }

  lemma TakeKeepsInv(w: World, s: Step)
    requires Inv(w) && CanTake(w, s)
    ensures Inv(Take(w, s))
  {
    TakeKeepsValid(w, s);
    var w' := Take(w, s);
    forall p, g | p in w'.procs && g in w'.procs[p].executions ensures DeleterIsOwner(w', p, g) {
      DeleterStep(w, s, p, g);
    }
    forall id | id in w'.rows ensures OwnerKnowsWaiting(w', id) {
      OwnerStep(w, s, id);
    }
  }

  /** What a synchronous stretch other than the tail of `add` does to one entry. */
  lemma LocalEffect(r: Registry, e: Event, g: Generation)
    requires Valid(r) && Enabled(r, e) && !e.CompleteAdd? && (e.SetStatus? ==> e.status == Waiting)
    requires g in r.executions
    ensures g in Apply(r, e).executions && SameOrWaiting(r.executions[g], Apply(r, e).executions[g])
    ensures var x, r' := r.executions[g], Apply(r, e);
      x.status == Running && !r'.executions[g].cleaned && IsCurrent(r, x.executionId, g) ==>
        || IsCurrent(r', x.executionId, g)
        || (e.PromiseSettled? && e.g != g && r.executions[e.g].executionId == x.executionId && r.executions[e.g].status != Waiting)
  {
    if e.Sweep? {
      SweepEffect(r, e, g);
    } else if e.PromiseSettled? {
      SettledEffect(r, e.g, g);
    } else if IsAddEvent(e) {
      AddEffect(r, e, g);
    } else {
      CallEffect(r, e, g);
    }
  }

  predicate SameOrWaiting(x: Execution, x': Execution) {
    && x'.executionId == x.executionId && (x.cleaned ==> x'.cleaned)
    && (x'.status == x.status || x'.status == Waiting)
  }

  lemma SettledEffect(r: Registry, h: Generation, g: Generation)
    requires Valid(r) && Enabled(r, PromiseSettled(h)) && g in r.executions
    ensures var r' := Apply(r, PromiseSettled(h));
      g in r'.executions && SameOrWaiting(r.executions[g], r'.executions[g])
    ensures var x, r' := r.executions[g], Apply(r, PromiseSettled(h));
      !r'.executions[g].cleaned && IsCurrent(r, x.executionId, g) ==>
        || IsCurrent(r', x.executionId, g)
        || (h != g && r.executions[h].executionId == x.executionId && r.executions[h].status != Waiting)
  {
  }

  lemma AddEffect(r: Registry, e: Event, g: Generation)
    requires Valid(r) && Enabled(r, e) && IsAddEvent(e) && !e.CompleteAdd? && g in r.executions
    ensures g in Apply(r, e).executions && Apply(r, e).executions[g] == r.executions[g]
    ensures Apply(r, e).active == r.active
  {
  }

  lemma CallEffect(r: Registry, e: Event, g: Generation)
    requires Valid(r) && Enabled(r, e) && !IsAddEvent(e) && !e.Sweep? && !e.PromiseSettled?
    requires (e.SetStatus? ==> e.status == Waiting) && g in r.executions
    ensures g in Apply(r, e).executions && SameOrWaiting(r.executions[g], Apply(r, e).executions[g])
    ensures r.executions[g].status == Running && IsCurrent(r, r.executions[g].executionId, g) ==>
              IsCurrent(Apply(r, e), r.executions[g].executionId, g)
  {
  }

  lemma SweepEffect(r: Registry, e: Event, g: Generation)
    requires Valid(r) && e.Sweep? && g in r.executions
    ensures g in Apply(r, e).executions && SameOrWaiting(r.executions[g], Apply(r, e).executions[g])
    ensures r.executions[g].status == Running && IsCurrent(r, r.executions[g].executionId, g) ==>
              IsCurrent(Apply(r, e), r.executions[g].executionId, g)
  {
    var s := if e.regularMode then r.(concurrencyEnabled := false) else r;
    var id := r.executions[g].executionId;
    if r.executions[g].status == Running && IsCurrent(r, id, g) {
      assert id !in Gone(s, r.active.Keys, e.regularMode, e.cancelAll);
    }
  }

  lemma LocalKeepsGenerations(r: Registry, e: Event)
    requires Valid(r) && Enabled(r, e) && !e.CompleteAdd?
    ensures Apply(r, e).executions.Keys == r.executions.Keys
  {
  }

  lemma DeleterStep(w: World, s: Step, p: ProcessId, g: Generation)
    requires Inv(w) && CanTake(w, s)
    requires p in Take(w, s).procs && g in Take(w, s).procs[p].executions
    ensures DeleterIsOwner(Take(w, s), p, g)
  {
    match s
    case Local(q, e) => if q == p { DeleterLocalStep(w, p, e, g); } else { assert DeleterIsOwner(w, p, g); }
    case CreateRow(_, _) => assert DeleterIsOwner(w, p, g);
    case CompareAndSet(q, h) =>
      assert DeleterIsOwner(w, p, g);
      assert OwnerKnowsWaiting(w, w.procs[q].adds[h].executionId);
    case FinishAdd(q, h, now) =>
      if q != p || g != h {
        assert g in w.procs[p].executions && DeleterIsOwner(w, p, g);
      }
    case PutToWait(_, _) => assert DeleterIsOwner(w, p, g);
    case Overwrite(_) => assert DeleterIsOwner(w, p, g);
  }

  lemma DeleterLocalStep(w: World, p: ProcessId, e: Event, g: Generation)
    requires Inv(w) && CanTake(w, Local(p, e)) && g in Apply(w.procs[p], e).executions
    ensures DeleterIsOwner(Take(w, Local(p, e)), p, g)
  {
    LocalKeepsGenerations(w.procs[p], e);
    LocalEffect(w.procs[p], e, g);
    assert DeleterIsOwner(w, p, g);
    if e.PromiseSettled? { assert DeleterIsOwner(w, p, e.g); }
  }

  lemma OwnerStep(w: World, s: Step, id: ExecutionId)
    requires Inv(w) && CanTake(w, s) && id in Take(w, s).rows
    ensures id in Take(w, s).owner && OwnerKnowsWaiting(Take(w, s), id)
  {
    if id in w.rows { assert OwnerKnowsWaiting(w, id); }
    match s
    case Local(q, e) =>
      var h := w.owner[id];
      if h.p == q && w.rows[id].status == RowWaiting { LocalEffect(w.procs[q], e, h.g); }
    case CreateRow(_, _) =>
    case CompareAndSet(_, _) =>
    case FinishAdd(q, g, now) =>
    case PutToWait(_, _) =>
    case Overwrite(_) =>
  }

  // ---------------------------------------------------------------- runs

  ghost predicate IsRun(w: World, steps: seq<Step>)
    requires WorldValid(w)
    decreases |steps|, 0
  {
    steps == [] || (IsRun(w, Front(steps)) && CanTake(After(w, Front(steps)), steps[|steps| - 1]))
  }

  ghost function After(w: World, steps: seq<Step>): (w': World)
    requires WorldValid(w) && IsRun(w, steps)
    ensures WorldValid(w')
    decreases |steps|, 1
  {
    if steps == [] then w
    else
      TakeKeepsValid(After(w, Front(steps)), steps[|steps| - 1]);
      Take(After(w, Front(steps)), steps[|steps| - 1])
  }

  function Front(steps: seq<Step>): seq<Step>
    requires steps != []
  {
    steps[..|steps| - 1]
  }

  /** Any number of processes, nothing running, no rows. */
  predicate Initial(w: World) {
    w.rows == map[] && w.owner == map[] && forall p :: p in w.procs ==> w.procs[p] == EMPTY
  }

  lemma {:induction false} RunKeepsInv(w: World, steps: seq<Step>)
    requires Inv(w) && IsRun(w, steps)
    ensures Inv(After(w, steps))
  {
    if steps != [] {
      RunKeepsInv(w, Front(steps));
      TakeKeepsInv(After(w, Front(steps)), steps[|steps| - 1]);
    }
  }

  /**
   * Generation safety, in every reachable state of every process: when the closure of a generation
   * runs, whatever it removes from the map and the response modes is its own.
   */
  lemma GenerationSafety(w: World, steps: seq<Step>, p: ProcessId, g: Generation)
    requires Initial(w) && IsRun(w, steps) && CanTake(After(w, steps), Local(p, PromiseSettled(g)))
    ensures var r := After(w, steps).procs[p];
      var r' := Apply(r, PromiseSettled(g));
      && (forall id :: id in r.active && !IsCurrent(r, id, g) ==> IsCurrent(r', id, r.active[id]))
      && (forall id :: id in r.responseModes && !IsCurrent(r, id, g) ==> id in r'.responseModes && r'.responseModes[id] == r.responseModes[id])
  {
    RunKeepsInv(w, steps);
    assert DeleterIsOwner(After(w, steps), p, g);
  }

  /** However many processes, timers, children and retries race: never more resumes than waits. */
  lemma ResumesNeverExceedWaits(w: World, steps: seq<Step>, id: ExecutionId)
    requires Initial(w) && IsRun(w, steps) && id in After(w, steps).rows
    ensures After(w, steps).rows[id].resumes <= After(w, steps).rows[id].waits
  {
    RunKeepsInv(w, steps);
    assert Paid(After(w, steps).rows[id]);
  }

  /** The step writes the row of `id` to waiting. */
  predicate Rewaits(w: World, s: Step, id: ExecutionId)
    requires WorldValid(w) && CanTake(w, s)
  {
    s.PutToWait? && w.procs[s.p].executions[s.g].executionId == id
  }

  /** The step is a resume of `id` winning its row. */
  predicate Wins(w: World, s: Step, id: ExecutionId)
    requires WorldValid(w) && CanTake(w, s)
  {
    s.CompareAndSet? && w.procs[s.p].adds[s.g].executionId == id
  }

  /** How many steps of the run write the row of `id` to waiting. */
  ghost function Rewaitings(w: World, steps: seq<Step>, id: ExecutionId): nat
    requires WorldValid(w) && IsRun(w, steps)
    decreases |steps|
  {
    if steps == [] then 0
    else
      Rewaitings(w, Front(steps), id)
      + (if Rewaits(After(w, Front(steps)), steps[|steps| - 1], id) then 1 else 0)
  }

  /** How many steps of the run are a resume winning the row of `id`. */
  ghost function Winnings(w: World, steps: seq<Step>, id: ExecutionId): nat
    requires WorldValid(w) && IsRun(w, steps)
    decreases |steps|
  {
    if steps == [] then 0
    else
      Winnings(w, Front(steps), id)
      + (if Wins(After(w, Front(steps)), steps[|steps| - 1], id) then 1 else 0)
  }

  /** The counters of a row are the steps of the run, and a row that is not there was neither. */
  lemma {:induction false} CountersCount(w: World, steps: seq<Step>, id: ExecutionId)
    requires Initial(w) && WorldValid(w) && IsRun(w, steps)
    ensures var rows := After(w, steps).rows;
      && Rewaitings(w, steps, id) == (if id in rows then rows[id].waits else 0)
      && Winnings(w, steps, id) == (if id in rows then rows[id].resumes else 0)
  {
    if steps != [] {
      CountersCount(w, Front(steps), id);
      CounterStep(After(w, Front(steps)), steps[|steps| - 1], id);
    }
  }

  lemma CounterStep(w: World, s: Step, id: ExecutionId)
    requires WorldValid(w) && CanTake(w, s)
    ensures var rows, rows' := w.rows, Take(w, s).rows;
      && (if id in rows' then rows'[id].waits else 0)
         == (if id in rows then rows[id].waits else 0) + (if Rewaits(w, s, id) then 1 else 0)
      && (if id in rows' then rows'[id].resumes else 0)
         == (if id in rows then rows[id].resumes else 0) + (if Wins(w, s, id) then 1 else 0)
  {
  }

  /** A row waits once it is written to waiting, and stops to when a resume wins it or somebody writes it to another
      status; no other step touches it. */
  lemma RowWaitsExactly(w: World, s: Step, id: ExecutionId)
    requires WorldValid(w) && CanTake(w, s)
    ensures id in w.rows ==> id in Take(w, s).rows
    ensures id in w.rows ==>
      (Take(w, s).rows[id].status == RowWaiting <==>
       Rewaits(w, s, id) || (w.rows[id].status == RowWaiting && !Wins(w, s, id) && s != Overwrite(id)))
    ensures id in Take(w, s).rows && id !in w.rows ==> s.CreateRow? && Take(w, s).rows[id] == Row(RowOther, 0, 0)
  {
  }

  /** In every run of any number of processes a row is won at most as often as it was written to waiting before. */
  lemma WinsNeverExceedWaits(w: World, steps: seq<Step>, id: ExecutionId)
    requires Initial(w) && WorldValid(w) && IsRun(w, steps)
    ensures Winnings(w, steps, id) <= Rewaitings(w, steps, id)
  {
    CountersCount(w, steps, id);
    if id in After(w, steps).rows {
      ResumesNeverExceedWaits(w, steps, id);
    }
  }

  ghost predicate NeverRewaits(w: World, steps: seq<Step>, id: ExecutionId)
    requires WorldValid(w) && IsRun(w, steps)
    decreases |steps|
  {
    steps != [] ==> NeverRewaits(w, Front(steps), id) && !Rewaits(After(w, Front(steps)), steps[|steps| - 1], id)
  }

  /** Once a resume has won, no other attempt wins until the execution waits again. */
  lemma {:induction false} WonOnce(w: World, id: ExecutionId, steps: seq<Step>, p: ProcessId, g: Generation)
    requires WorldValid(w) && IsRun(w, steps) && NeverRewaits(w, steps, id)
    requires id in w.rows && w.rows[id].status == RowOther
    ensures var w' := After(w, steps);
      && id in w'.rows && w'.rows[id] == w.rows[id]
      && (p in w'.procs && g in w'.procs[p].adds && w'.procs[p].adds[g].executionId == id ==> !CanTake(w', CompareAndSet(p, g)))
  {
    if steps != [] {
      var s := steps[|steps| - 1];
      if s.CompareAndSet? {
        WonOnce(w, id, Front(steps), s.p, s.g);
      } else {
        WonOnce(w, id, Front(steps), p, g);
      }
    }
  }

  // The registry of one process while it runs `e` as generation 0 and then resumes it as generation 1.
  const ADD := PendingAdd("e", Webhook, false)
  const RUN := Execution("e", Webhook, Running, 0, Pending, false)
  const ADDING := EMPTY.(adds := map[0 := ADD])
  const RESERVED := EMPTY.(adds := map[0 := ADD.(reserved := true)], slots := 1)
  const RUNNING := EMPTY.(active := map["e" := 0], executions := map[0 := RUN], slots := 1)
  const WAITING := RUNNING.(executions := map[0 := RUN.(status := Waiting)])
  const READDING := WAITING.(adds := map[1 := ADD])
  const RERESERVED := WAITING.(adds := map[1 := ADD.(reserved := true)], slots := 2)
  const RERUNNING :=
    WAITING.(active := map["e" := 1], executions := map[0 := RUN.(status := Waiting), 1 := RUN], slots := 2)
  const OVERTAKEN :=
    RERUNNING.(executions := map[0 := RUN.(status := Waiting), 1 := RUN.(promise := Resolved)])

  lemma FirstRun()
    ensures Apply(EMPTY, BeginAdd(0, "e", Webhook)) == ADDING
    ensures Apply(ADDING, ReserveCapacity(0)) == RESERVED
    ensures Apply(RESERVED, CompleteAdd(0, 0)) == RUNNING
    ensures Apply(RUNNING, SetStatus("e", Waiting)) == WAITING
  {
    assert Apply(ADDING, ReserveCapacity(0)).adds == RESERVED.adds;
    assert Apply(RESERVED, CompleteAdd(0, 0)).adds == map[];
    assert Apply(RUNNING, SetStatus("e", Waiting)).executions == WAITING.executions;
  }

  lemma SecondRun()
    ensures Apply(WAITING, BeginAdd(1, "e", Webhook)) == READDING
    ensures Apply(READDING, ReserveCapacity(1)) == RERESERVED
    ensures Apply(RERESERVED, CompleteAdd(1, 0)) == RERUNNING
    ensures Apply(RERUNNING, Finalize("e")) == OVERTAKEN
  {
    assert Apply(READDING, ReserveCapacity(1)).adds == RERESERVED.adds;
    var r := Apply(RERESERVED, CompleteAdd(1, 0));
    assert r.adds == map[] && r.active == RERUNNING.active && r.executions == RERUNNING.executions;
    assert Apply(RERUNNING, Finalize("e")).executions == OVERTAKEN.executions;
  }

  ghost predicate Reachable(w: World) {
    exists start, steps :: Initial(start) && IsRun(start, steps) && After(start, steps) == w
  }

  lemma ReachNext(w: World, s: Step, w': World)
    requires Reachable(w) && WorldValid(w) && CanTake(w, s) && Take(w, s) == w'
    ensures Reachable(w') && WorldValid(w')
  {
    var start, steps :| Initial(start) && IsRun(start, steps) && After(start, steps) == w;
    assert Front(steps + [s]) == steps;
    assert After(start, steps + [s]) == w';
  }

  /** A single process; `row` and `owner` are those of `e`. */
  function OneProcess(r: Registry, row: Row, owner: Generation): World {
    World(map["e" := row], map[0 := r], map["e" := Holder(0, owner)])
  }

  lemma LocalNext(r: Registry, row: Row, owner: Generation, e: Event, r': Registry)
    requires Reachable(OneProcess(r, row, owner)) && Valid(r) && Enabled(r, e) && Apply(r, e) == r'
    requires !e.CompleteAdd? && (e.SetStatus? ==> e.status == Waiting)
    ensures Reachable(OneProcess(r', row, owner)) && Valid(r')
  {
    ApplyValid(r, e);
    ReachNext(OneProcess(r, row, owner), Local(0, e), OneProcess(r', row, owner));
  }

  lemma FinishNext(r: Registry, row: Row, g: Generation, r': Registry)
    requires Reachable(OneProcess(r, row, g)) && Valid(r) && Ready(r, g) && r.adds[g].executionId == "e"
    requires Apply(r, CompleteAdd(g, 0)) == r'
    ensures Reachable(OneProcess(r', row, g)) && Valid(r')
  {
    ApplyValid(r, CompleteAdd(g, 0));
    ReachNext(OneProcess(r, row, g), FinishAdd(0, g, 0), OneProcess(r', row, g));
  }

  lemma WaitNext(r: Registry, g: Generation)
    requires Reachable(OneProcess(r, Row(RowOther, 0, 0), g)) && Valid(r)
    requires g in r.executions && r.executions[g].status == Waiting && r.executions[g].executionId == "e"
    ensures Reachable(OneProcess(r, Row(RowWaiting, 1, 0), g))
  {
    ReachNext(OneProcess(r, Row(RowOther, 0, 0), g), PutToWait(0, g), OneProcess(r, Row(RowWaiting, 1, 0), g));
  }

  lemma WinNext(r: Registry, h: Generation, g: Generation)
    requires Reachable(OneProcess(r, Row(RowWaiting, 1, 0), h)) && Valid(r)
    requires Ready(r, g) && r.adds[g].executionId == "e"
    ensures Reachable(OneProcess(r, Row(RowOther, 1, 1), g))
  {
    ReachNext(OneProcess(r, Row(RowWaiting, 1, 0), h), CompareAndSet(0, g), OneProcess(r, Row(RowOther, 1, 1), g));
  }

  lemma ReservedReachable()
    ensures Reachable(OneProcess(RESERVED, Row(RowOther, 0, 0), 0)) && Valid(RESERVED)
  {
    FirstRun();
    var w0 := World(map[], map[0 := EMPTY], map[]);
    var w1 := w0.(procs := map[0 := ADDING]);
    var w2 := w0.(procs := map[0 := RESERVED]);
    assert Initial(w0) && IsRun(w0, []) && After(w0, []) == w0;
    ReachNext(w0, Local(0, BeginAdd(0, "e", Webhook)), w1);
    ReachNext(w1, Local(0, ReserveCapacity(0)), w2);
    ReachNext(w2, CreateRow(0, 0), OneProcess(RESERVED, Row(RowOther, 0, 0), 0));
  }

  lemma WaitingReachable()
    ensures Reachable(OneProcess(WAITING, Row(RowWaiting, 1, 0), 0)) && Valid(WAITING)
  {
    ReservedReachable();
    FirstRun();
    FinishNext(RESERVED, Row(RowOther, 0, 0), 0, RUNNING);
    LocalNext(RUNNING, Row(RowOther, 0, 0), 0, SetStatus("e", Waiting), WAITING);
    WaitNext(WAITING, 0);
  }

  lemma RerunningReachable()
    ensures Reachable(OneProcess(RERUNNING, Row(RowOther, 1, 1), 1)) && Valid(RERUNNING)
  {
    WaitingReachable();
    SecondRun();
    LocalNext(WAITING, Row(RowWaiting, 1, 0), 0, BeginAdd(1, "e", Webhook), READDING);
    LocalNext(READDING, Row(RowWaiting, 1, 0), 0, ReserveCapacity(1), RERESERVED);
    WinNext(RERESERVED, 0, 1);
    FinishNext(RERESERVED, Row(RowOther, 1, 1), 1, RERUNNING);
  }

  /**
   * What the assumptions do not rule out: a resume that slips in after the row was written to
   * waiting and before the run that wrote it finalizes. That run then settles the promise of the
   * resumed generation, whose closure takes the running execution out of the map, while its own
   * slot is never given back.
   */
  lemma ResumeCanOvertakeFinalize(w: World)
    requires w == OneProcess(OVERTAKEN, Row(RowOther, 1, 1), 1)
    ensures Reachable(w) && WorldValid(w) && Owns(w, "e", 0, 1)
    ensures Enabled(OVERTAKEN, PromiseSettled(1))
    ensures var r := Apply(OVERTAKEN, PromiseSettled(1));
      "e" !in r.active && Orphaned(r, 0) && IsHolder(r, 0) && r.slots == 1
  {
    RerunningReachable();
    SecondRun();
    LocalNext(RERUNNING, Row(RowOther, 1, 1), 1, Finalize("e"), OVERTAKEN);
  }
}
