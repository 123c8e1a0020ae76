/**
 * Which main instance holds the non-webhook triggers of which workflow, with leadership moving between
 * any number of mains. Losing and winning leadership, the check of the leader flag at the start of an
 * activation, its end, and each removal of the stepdown loop are separate steps.
 *
 * Leadership is granted by a key in Redis that expires on its own; the flag of a main is its own opinion.
 */
module LeaderTriggers {
  import opened Wrappers

  type MainId = nat
  type AddId = nat
  type WorkflowId = string

  /** An activation under way; `mayAdd` is the leader flag as read at its start. */
  datatype Adding = Adding(workflowId: WorkflowId, mayAdd: bool)

  /** `pending` are the workflows the stepdown loop still has to remove: those active when it began. */
  datatype Main = Main(isLeader: bool, triggers: set<WorkflowId>, pending: set<WorkflowId>,
                       queued: set<WorkflowId>, adding: map<AddId, Adding>)

  const FOLLOWER := Main(false, {}, {}, {}, map[])

  // ---------------------------------------------------------------- One instance

  datatype Event =
    | BecomeLeader
    | StepDown
    | RemoveOne(id: WorkflowId)
    | AbortRemoval
    | BeginAdd(a: AddId, id: WorkflowId)
    | CommitAdd(a: AddId)
    | FailAdd(a: AddId, requeue: bool)
    | TriggerFails(id: WorkflowId)
    | Deactivate(id: WorkflowId, multiMain: bool)

  predicate Enabled(m: Main, e: Event) {
    match e
    case BecomeLeader => !m.isLeader
    case StepDown => m.isLeader
    case RemoveOne(id) => id in m.pending
    case AbortRemoval => true
    case BeginAdd(a, _) => a !in m.adding
    case CommitAdd(a) => a in m.adding
    case FailAdd(a, _) => a in m.adding
    case TriggerFails(id) => id in m.triggers
    case Deactivate(_, _) => m.isLeader
  }

  function Apply(m: Main, e: Event): Main
    requires Enabled(m, e)
  {
    match e
    case BecomeLeader => m.(isLeader := true)
    case StepDown => m.(isLeader := false, queued := {}, pending := m.pending + m.triggers)
    case RemoveOne(id) => m.(pending := m.pending - {id}, triggers := m.triggers - {id})
    case AbortRemoval => m.(pending := {})
    case BeginAdd(a, id) => m.(adding := m.adding[a := Adding(id, m.isLeader)])
    case CommitAdd(a) =>
      var id := m.adding[a].workflowId;
      m.(adding := m.adding - {a}, queued := m.queued - {id},
         triggers := if m.adding[a].mayAdd then m.triggers + {id} else m.triggers)
    case FailAdd(a, requeue) =>
      m.(adding := m.adding - {a}, queued := if requeue then m.queued + {m.adding[a].workflowId} else m.queued)
    case TriggerFails(id) => m.(triggers := m.triggers - {id}, queued := m.queued + {id})
    case Deactivate(id, multiMain) =>
      // The leader's handler in a multi-main setup leaves a queued retry in place.
      m.(triggers := m.triggers - {id}, queued := if multiMain then m.queued else m.queued - {id})
  }

  /** Every trigger a main holds is there because it leads, or is about to be removed. */
  predicate Accounted(m: Main) {
    m.isLeader || m.triggers <= m.pending
  }

  /** The two ways for triggers to outlive leadership: an activation that began under it and ends after the
      stepdown loop took its list, and a stepdown loop that a failing close function cuts short. */
  predicate KeepsAccounted(m: Main, e: Event)
    requires Enabled(m, e)
  {
    match e
    case CommitAdd(a) => m.adding[a].mayAdd ==> m.isLeader || m.adding[a].workflowId in m.pending
    case AbortRemoval => m.isLeader || m.triggers == {}
    case _ => true
  }

  lemma AccountedExactly(m: Main, e: Event)
    requires Enabled(m, e) && Accounted(m)
    ensures Accounted(Apply(m, e)) <==> KeepsAccounted(m, e)
  {
  }

  // ---------------------------------------------------------------- A leader's own triggers

  predicate LocalRun(m: Main, run: seq<Event>)
    decreases |run|
  {
    run == [] || (Enabled(m, run[0]) && LocalRun(Apply(m, run[0]), run[1..]))
  }

  predicate WithinTerm(run: seq<Event>) {
    StepDown !in run
  }

  /** The main holds the workflow's triggers from `m` to the end of the run. */
  predicate HoldsThroughout(m: Main, run: seq<Event>, id: WorkflowId)
    requires LocalRun(m, run)
    decreases |run|
  {
    id in m.triggers && (run != [] ==> HoldsThroughout(Apply(m, run[0]), run[1..], id))
  }

  predicate TakesAway(e: Event, id: WorkflowId) {
    e == RemoveOne(id) || e == TriggerFails(id) || e == Deactivate(id, true) || e == Deactivate(id, false)
  }

  /** Triggers once added survive all along a leadership term exactly if they do not fail, the workflow is not
      deactivated, and no removal left over from an earlier stepdown comes for them; and such a removal can only
      come for a workflow that was still to be removed. */
  lemma {:induction false} LeaderHoldsExactly(m: Main, run: seq<Event>, id: WorkflowId)
    requires LocalRun(m, run) && WithinTerm(run) && id in m.triggers
    ensures HoldsThroughout(m, run, id) <==> forall i :: 0 <= i < |run| ==> !TakesAway(run[i], id)
    ensures id !in m.pending ==> RemoveOne(id) !in run
    decreases |run|
  {
    if run != [] {
      var m1, rest := Apply(m, run[0]), run[1..];
      assert run == [run[0]] + rest;
      PendingShrinks(m, run, id);
      if TakesAway(run[0], id) {
        assert id !in m1.triggers;
      } else {
        LeaderHoldsExactly(m1, rest, id);
        assert forall i :: 0 <= i < |rest| ==> rest[i] == run[i + 1];
        assert (forall i :: 0 <= i < |rest| ==> !TakesAway(rest[i], id)) ==>
               forall i :: 0 <= i < |run| ==> !TakesAway(run[i], id) by {
          assert forall i :: 0 < i < |run| ==> run[i] == rest[i - 1];
        }
      }
    }
  }

  lemma {:induction false} PendingShrinks(m: Main, run: seq<Event>, id: WorkflowId)
    requires LocalRun(m, run) && WithinTerm(run)
    ensures id !in m.pending ==> RemoveOne(id) !in run
    decreases |run|
  {
    if run != [] {
      assert run == [run[0]] + run[1..];
      PendingShrinks(Apply(m, run[0]), run[1..], id);
    }
  }

  // ---------------------------------------------------------------- Workflows queued for another attempt

  /** A failed trigger or activation queues its workflow; an activation that ends, a stepdown and, outside a
      multi-main setup, the deactivation take it off the queue, and nothing else does either. */
  lemma QueuedExactly(m: Main, e: Event, id: WorkflowId)
    requires Enabled(m, e)
    ensures id in Apply(m, e).queued <==>
            || e == TriggerFails(id)
            || (e.FailAdd? && e.requeue && m.adding[e.a].workflowId == id)
            || (id in m.queued && !e.StepDown? && e != Deactivate(id, false)
                && !(e.CommitAdd? && m.adding[e.a].workflowId == id))
  {
  }

  /** Some activation of `id` is under way. */
  predicate Activating(m: Main, id: WorkflowId) {
    exists a :: a in m.adding && m.adding[a].workflowId == id
  }

  /** A trigger that fails is off, and its workflow stays queued until the leader steps down, deactivates it, or
      begins to activate it once more. */
  lemma {:induction false} FailedTriggerStaysQueued(m: Main, id: WorkflowId, run: seq<Event>)
    requires Enabled(m, TriggerFails(id)) && !Activating(m, id) && LocalRun(Apply(m, TriggerFails(id)), run)
    requires forall i :: 0 <= i < |run| ==>
               !run[i].StepDown? && run[i] != Deactivate(id, false) && !(run[i].BeginAdd? && run[i].id == id)
    ensures var m' := AfterRun(Apply(m, TriggerFails(id)), run); id in m'.queued && id !in m'.triggers
  {
    StaysQueued(Apply(m, TriggerFails(id)), id, run);
  }

  lemma {:induction false} StaysQueued(m: Main, id: WorkflowId, run: seq<Event>)
    requires LocalRun(m, run) && id in m.queued && id !in m.triggers && !Activating(m, id)
    requires forall i :: 0 <= i < |run| ==>
               !run[i].StepDown? && run[i] != Deactivate(id, false) && !(run[i].BeginAdd? && run[i].id == id)
    ensures id in AfterRun(m, run).queued && id !in AfterRun(m, run).triggers
    decreases |run|
  {
    if run != [] {
      QueuedExactly(m, run[0], id);
      StaysQueued(Apply(m, run[0]), id, run[1..]);
    }
  }

  const LEADING := FOLLOWER.(isLeader := true, triggers := {"w"})

  /** A first term, in which "w" is activated. */
  const FIRST_TERM := [BecomeLeader, BeginAdd(0, "w"), CommitAdd(0)]

  /** It steps down and leads again before its removal loop has come to "w". */
  const BACK_AGAIN := [StepDown, BecomeLeader, BeginAdd(0, "w"), CommitAdd(0)]

  lemma EventThen(m: Main, e: Event, rest: seq<Event>)
    requires Enabled(m, e) && LocalRun(Apply(m, e), rest)
    ensures LocalRun(m, [e] + rest) && AfterRun(m, [e] + rest) == AfterRun(Apply(m, e), rest)
  {
    assert ([e] + rest)[1..] == rest;
  }

  function AfterRun(m: Main, run: seq<Event>): Main
    requires LocalRun(m, run)
    decreases |run|
  {
    if run == [] then m else AfterRun(Apply(m, run[0]), run[1..])
  }

  lemma FirstTerm()
    ensures LocalRun(FOLLOWER, FIRST_TERM) && AfterRun(FOLLOWER, FIRST_TERM) == LEADING
  {
    var m1 := FOLLOWER.(isLeader := true);
    var m2 := m1.(adding := map[0 := Adding("w", true)]);
    assert Apply(m2, CommitAdd(0)) == LEADING by {
      assert Apply(m2, CommitAdd(0)).adding == map[] && Apply(m2, CommitAdd(0)).triggers == {"w"};
      assert Apply(m2, CommitAdd(0)).queued == {};
    }
    assert LocalRun(LEADING, []);
    EventThen(m2, FIRST_TERM[2], []);
    EventThen(m1, FIRST_TERM[1], [FIRST_TERM[2]]);
    EventThen(FOLLOWER, FIRST_TERM[0], FIRST_TERM[1..]);
    assert FIRST_TERM == [FIRST_TERM[0]] + FIRST_TERM[1..];
  }

  /** So it happens: the loop of the earlier stepdown, removing by id, takes the trigger that the new term has
      just added, and the main leads without it. Each step keeps triggers accounted for. */
  lemma StaleRemovalTakesTrigger()
    ensures LocalRun(FOLLOWER, FIRST_TERM) && AfterRun(FOLLOWER, FIRST_TERM) == LEADING
    ensures LocalRun(LEADING, BACK_AGAIN) && AfterRun(LEADING, BACK_AGAIN) == LEADING.(pending := {"w"})
    ensures var m := LEADING.(pending := {"w"});
            && Enabled(m, RemoveOne("w")) && KeepsAccounted(m, RemoveOne("w"))
            && Apply(m, RemoveOne("w")) == FOLLOWER.(isLeader := true)
  {
    FirstTerm();
    var m1 := FOLLOWER.(triggers := {"w"}, pending := {"w"});
    assert Apply(LEADING, StepDown) == m1 by {
      assert Apply(LEADING, StepDown).pending == {"w"} && Apply(LEADING, StepDown).queued == {};
    }
    var m2 := m1.(isLeader := true);
    var m3 := m2.(adding := map[0 := Adding("w", true)]);
    var m4 := LEADING.(pending := {"w"});
    assert Apply(m3, CommitAdd(0)) == m4 by {
      assert Apply(m3, CommitAdd(0)).adding == map[] && Apply(m3, CommitAdd(0)).triggers == {"w"};
      assert Apply(m3, CommitAdd(0)).queued == {};
    }
    assert LocalRun(m4, []);
    EventThen(m3, BACK_AGAIN[3], []);
    EventThen(m2, BACK_AGAIN[2], [BACK_AGAIN[3]]);
    EventThen(m1, BACK_AGAIN[1], BACK_AGAIN[2..]);
    EventThen(LEADING, BACK_AGAIN[0], BACK_AGAIN[1..]);
    assert BACK_AGAIN == [BACK_AGAIN[0]] + BACK_AGAIN[1..];
    assert Apply(m4, RemoveOne("w")).triggers == {} && Apply(m4, RemoveOne("w")).pending == {};
  }

  // ---------------------------------------------------------------- The instance itself

  class MainInstance {
    var isLeader: bool
    var triggers: set<WorkflowId>
    var pending: set<WorkflowId>
    var queued: set<WorkflowId>
    var adding: map<AddId, Adding>

    function State(): Main
      reads this
    {
      Main(isLeader, triggers, pending, queued, adding)
    }

    constructor ()
      ensures State() == FOLLOWER
    {
      isLeader, triggers, pending, queued, adding := false, {}, {}, {}, map[];
    }

    method MarkAsLeader()
      requires !isLeader
      modifies this
      ensures State() == Apply(old(State()), BecomeLeader)
      ensures isLeader && unchanged(`triggers, `pending, `queued, `adding)
    {
      isLeader := true;
    }

    /** Up to the first removal of the handler: the list of workflows to remove is made here. */
    method StepDownToFollower()
      requires isLeader
      modifies this
      ensures State() == Apply(old(State()), StepDown)
      ensures !isLeader && queued == {} && pending == old(pending) + triggers && unchanged(`triggers, `adding)
    {
      isLeader := false;
      while queued != {}
        invariant isLeader == false && triggers == old(triggers) && pending == old(pending) && adding == old(adding)
        decreases |queued|
      {
        var id :| id in queued;
        queued := queued - {id};
      }
      pending := pending + triggers;
    }

    /** The rest of the handler, if nothing interleaves and nothing fails. */
    method RemoveAllNonWebhookTriggerWorkflows()
      modifies this
      ensures State() == old(State()).(triggers := old(triggers) - old(pending), pending := {})
      ensures !isLeader && old(Accounted(State())) ==> triggers == {}
    {
      while pending != {}
        invariant isLeader == old(isLeader) && queued == old(queued) && adding == old(adding)
        invariant pending <= old(pending) && triggers == old(triggers) - (old(pending) - pending)
        decreases |pending|
      {
        var id :| id in pending;
        pending, triggers := pending - {id}, triggers - {id};
      }
    }

    method StartAdd(a: AddId, id: WorkflowId)
      requires a !in adding
      modifies this
      ensures State() == Apply(old(State()), BeginAdd(a, id))
      ensures adding == old(adding)[a := Adding(id, isLeader)] && unchanged(`isLeader, `triggers, `pending, `queued)
    {
      var shouldAddNonWebhookTriggers := isLeader;
      adding := adding[a := Adding(id, shouldAddNonWebhookTriggers)];
    }

    method FailedAdd(a: AddId, requeue: bool)
      requires a in adding
      modifies this
      ensures State() == Apply(old(State()), FailAdd(a, requeue))
      ensures adding == old(adding) - {a} && unchanged(`isLeader, `triggers, `pending)
      ensures queued == old(queued) + if requeue then {old(adding)[a].workflowId} else {}
    {
      if requeue {
        queued := queued + {adding[a].workflowId};
      }
      adding := adding - {a};
    }

    /** One round of the removal loop. */
    method RemoveNext(id: WorkflowId)
      requires id in pending
      modifies this
      ensures State() == Apply(old(State()), RemoveOne(id))
      ensures pending == old(pending) - {id} && triggers == old(triggers) - {id} && unchanged(`isLeader, `queued, `adding)
    {
      pending, triggers := pending - {id}, triggers - {id};
    }

    /** A close function fails, and the exception ends the removal loop. */
    method CutRemovalShort()
      modifies this
      ensures State() == Apply(old(State()), AbortRemoval)
      ensures pending == {} && unchanged(`isLeader, `triggers, `queued, `adding)
    {
      pending := {};
    }

    method OnTriggerFailure(id: WorkflowId)
      requires id in triggers
      modifies this
      ensures State() == Apply(old(State()), TriggerFails(id))
      ensures triggers == old(triggers) - {id} && queued == old(queued) + {id} && unchanged(`isLeader, `pending, `adding)
    {
      triggers := triggers - {id};
      queued := queued + {id};
    }

    method HandleDeactivation(id: WorkflowId, multiMain: bool)
      requires isLeader
      modifies this
      ensures State() == Apply(old(State()), Deactivate(id, multiMain))
      ensures triggers == old(triggers) - {id} && unchanged(`isLeader, `pending, `adding)
      ensures queued == if multiMain then old(queued) else old(queued) - {id}
    {
      if !multiMain && id in queued {
        queued := queued - {id};
      }
      triggers := triggers - {id};
    }

    method EndAdd(a: AddId)
      requires a in adding
      modifies this
      ensures State() == Apply(old(State()), CommitAdd(a))
      ensures var id := old(adding)[a].workflowId;
              && triggers == (if old(adding)[a].mayAdd then old(triggers) + {id} else old(triggers))
              && queued == old(queued) - {id}
      ensures adding == old(adding) - {a} && unchanged(`isLeader, `pending)
    {
      var id := adding[a].workflowId;
      if adding[a].mayAdd {
        triggers := triggers + {id};
      }
      queued := queued - {id};
      adding := adding - {a};
    }
  }

  // ---------------------------------------------------------------- Many instances and the leader key

  datatype Cluster = Cluster(key: Option<MainId>, mains: map<MainId, Main>)

  datatype Step =
    | KeyExpires
    | TakeOver(m: MainId)
    | ReclaimKey(m: MainId)
    | LoseLease(m: MainId)
    | Within(m: MainId, e: Event)

  predicate CanTake(c: Cluster, s: Step) {
    match s
    case KeyExpires => true
    case TakeOver(m) => m in c.mains && !c.mains[m].isLeader && (c.key.None? || c.key == Some(m))
    case ReclaimKey(m) => m in c.mains && c.mains[m].isLeader && c.key.None?
    case LoseLease(m) => m in c.mains && c.mains[m].isLeader && c.key != Some(m)
    case Within(m, e) => m in c.mains && Enabled(c.mains[m], e) && !e.BecomeLeader? && !e.StepDown?
  }

  function Put(c: Cluster, m: MainId, e: Event): Cluster
    requires m in c.mains && Enabled(c.mains[m], e)
  {
    c.(mains := c.mains[m := Apply(c.mains[m], e)])
  }

  function Take(c: Cluster, s: Step): Cluster
    requires CanTake(c, s)
  {
    match s
    case KeyExpires => c.(key := None)
    case TakeOver(m) => Put(c, m, BecomeLeader).(key := Some(m))
    case ReclaimKey(m) => c.(key := Some(m))
    case LoseLease(m) => Put(c, m, StepDown)
    case Within(m, e) => Put(c, m, e)
  }

  predicate Legal(c: Cluster, run: seq<Step>)
    decreases |run|
  {
    run == [] || (CanTake(c, run[0]) && Legal(Take(c, run[0]), run[1..]))
  }

  function Run(c: Cluster, run: seq<Step>): Cluster
    requires Legal(c, run)
    decreases |run|
  {
    if run == [] then c else Run(Take(c, run[0]), run[1..])
  }

  /** A main that leads or is still removing triggers. Whether it holds any is not part of this. */
  predicate Engaged(m: Main) {
    m.isLeader || m.pending != {}
  }

  predicate OnlyEngaged(c: Cluster, m: MainId) {
    forall n :: n in c.mains && Engaged(c.mains[n]) ==> n == m
  }

  /** A main that is accounted for and neither leads nor has removals pending holds no trigger. */
  lemma DisengagedHoldsNothing(m: Main)
    requires Accounted(m) && !Engaged(m)
    ensures m.triggers == {}
  {
  }

  /** At most one main is engaged, and no trigger is unaccounted for. */
  predicate Orderly(c: Cluster) {
    && (forall m :: m in c.mains ==> Accounted(c.mains[m]))
    && (forall m, n :: m in c.mains && n in c.mains && Engaged(c.mains[m]) && Engaged(c.mains[n]) ==> m == n)
  }

  /** No step lets triggers outlive leadership, and a takeover finds that no other main leads or has removals
      left to do. */
  predicate KeepsOrder(c: Cluster, s: Step)
    requires CanTake(c, s)
  {
    match s
    case TakeOver(m) => OnlyEngaged(c, m)
    case Within(m, e) => KeepsAccounted(c.mains[m], e)
    case _ => true
  }

  lemma {:induction false} OrderlyExactly(c: Cluster, s: Step)
    requires Orderly(c) && CanTake(c, s)
    ensures Orderly(Take(c, s)) <==> KeepsOrder(c, s)
  {
    match s
    case KeyExpires =>
    case ReclaimKey(m) =>
    case TakeOver(m) => TakeOverExactly(c, m);
    case LoseLease(m) =>
      AccountedExactly(c.mains[m], StepDown);
      WithinKeepsApart(c, m, StepDown);
    case Within(m, e) =>
      AccountedExactly(c.mains[m], e);
      if KeepsAccounted(c.mains[m], e) {
        WithinKeepsApart(c, m, e);
      } else {
        assert !Accounted(Take(c, s).mains[m]);
      }
  }

  lemma TakeOverExactly(c: Cluster, m: MainId)
    requires Orderly(c) && CanTake(c, TakeOver(m))
    ensures Orderly(Take(c, TakeOver(m))) <==> OnlyEngaged(c, m)
  {
    var c' := Take(c, TakeOver(m));
    assert Engaged(c'.mains[m]);
    assert forall n :: n in c.mains && n != m ==> c'.mains[n] == c.mains[n];
  }

  lemma WithinKeepsApart(c: Cluster, m: MainId, e: Event)
    requires Orderly(c) && m in c.mains && Enabled(c.mains[m], e) && !e.BecomeLeader? && KeepsAccounted(c.mains[m], e)
    ensures Orderly(Put(c, m, e))
  {
  }

  // ---------------------------------------------------------------- Runs

  predicate WellOrdered(c: Cluster, run: seq<Step>)
    requires Legal(c, run)
    decreases |run|
  {
    run == [] || (KeepsOrder(c, run[0]) && WellOrdered(Take(c, run[0]), run[1..]))
  }

  lemma {:induction false} RunStaysOrderly(c: Cluster, run: seq<Step>)
    requires Orderly(c) && Legal(c, run) && WellOrdered(c, run)
    ensures Orderly(Run(c, run))
    decreases |run|
  {
    if run != [] {
      OrderlyExactly(c, run[0]);
      RunStaysOrderly(Take(c, run[0]), run[1..]);
    }
  }

  function Followers(ids: set<MainId>): Cluster {
    Cluster(None, map m | m in ids :: FOLLOWER)
  }

  /** In every run in which no activation straddles a stepdown, no stepdown is cut short and at every takeover
      no other main leads or has removals pending, at most one main leads; while one leads, no other main holds a trigger;
      and no workflow is triggered by two mains. */
  lemma OnlyTheLeaderTriggers(ids: set<MainId>, run: seq<Step>, m: MainId, n: MainId)
    requires Legal(Followers(ids), run) && WellOrdered(Followers(ids), run)
    requires var c := Run(Followers(ids), run); m in c.mains && n in c.mains && m != n
    ensures var c := Run(Followers(ids), run);
            && (c.mains[m].isLeader ==> !c.mains[n].isLeader && c.mains[n].triggers == {})
            && c.mains[m].triggers !! c.mains[n].triggers
  {
    RunStaysOrderly(Followers(ids), run);
    var c := Run(Followers(ids), run);
    assert !(Engaged(c.mains[m]) && Engaged(c.mains[n]));
    if Engaged(c.mains[m]) {
      DisengagedHoldsNothing(c.mains[n]);
    } else {
      DisengagedHoldsNothing(c.mains[m]);
    }
  }

  // ---------------------------------------------------------------- When it goes wrong

  /** A trigger on a main that neither leads nor is about to remove it. */
  predicate Orphaned(c: Cluster, m: MainId, id: WorkflowId) {
    m in c.mains && !c.mains[m].isLeader && id in c.mains[m].triggers && id !in c.mains[m].pending
  }

  predicate Rescues(s: Step, m: MainId, id: WorkflowId) {
    s == TakeOver(m) || s == Within(m, TriggerFails(id))
  }

  /** Nothing but this main's own takeover, or a failure of the trigger itself, ends an orphaned trigger: not
      the deactivation of the workflow either, which only the leader handles. */
  lemma {:induction false} OrphanStays(c: Cluster, run: seq<Step>, m: MainId, id: WorkflowId)
    requires Legal(c, run) && Orphaned(c, m, id)
    requires forall i :: 0 <= i < |run| ==> !Rescues(run[i], m, id)
    ensures Orphaned(Run(c, run), m, id)
    decreases |run|
  {
    if run != [] {
      assert Orphaned(Take(c, run[0]), m, id);
      OrphanStays(Take(c, run[0]), run[1..], m, id);
    }
  }

  lemma StepThen(c: Cluster, s: Step, rest: seq<Step>)
    requires CanTake(c, s) && KeepsOrder(c, s) && Legal(Take(c, s), rest) && WellOrdered(Take(c, s), rest)
    ensures Legal(c, [s] + rest) && WellOrdered(c, [s] + rest) && Run(c, [s] + rest) == Run(Take(c, s), rest)
  {
    assert ([s] + rest)[1..] == rest;
  }

  lemma CommitOnly(id: WorkflowId, a: AddId, m: Main)
    requires m.triggers == {} && m.queued == {} && m.adding == map[]
    ensures Apply(m.(adding := map[a := Adding(id, true)]), CommitAdd(a)) == m.(triggers := {id})
  {
    var m' := Apply(m.(adding := map[a := Adding(id, true)]), CommitAdd(a));
    assert m'.adding == map[] && m'.triggers == {id} && m'.queued == {};
  }

  const ADDING := FOLLOWER.(adding := map[0 := Adding("w", true)])
  const LED := FOLLOWER.(isLeader := true, triggers := {"w"})

  /** Main 0 starts an activation as leader, then loses the lease and has nothing to clean up; main 1 takes
      over and activates the same workflow. */
  const LOST := [TakeOver(0), Within(0, BeginAdd(0, "w")), KeyExpires, LoseLease(0)]
  const TAKEN_OVER := [TakeOver(1), Within(1, BeginAdd(1, "w")), Within(1, CommitAdd(1))]

  const BETWEEN := Cluster(None, map[0 := ADDING, 1 := FOLLOWER])
  const BOTH_ACTIVATED := Cluster(Some(1), map[0 := ADDING, 1 := LED])

  lemma MainZeroLoses(rest: seq<Step>)
    requires Legal(BETWEEN, rest) && WellOrdered(BETWEEN, rest)
    ensures Legal(Followers({0, 1}), LOST + rest) && WellOrdered(Followers({0, 1}), LOST + rest)
    ensures Run(Followers({0, 1}), LOST + rest) == Run(BETWEEN, rest)
  {
    var c0 := Followers({0, 1});
    var c1 := Take(c0, LOST[0]);
    var c2 := Take(c1, LOST[1]);
    var c3 := Take(c2, LOST[2]);
    assert Take(c3, LOST[3]).mains[0] == ADDING;
    assert Take(c3, LOST[3]).mains == BETWEEN.mains;
    StepThen(c3, LOST[3], rest);
    StepThen(c2, LOST[2], [LOST[3]] + rest);
    StepThen(c1, LOST[1], [LOST[2]] + ([LOST[3]] + rest));
    StepThen(c0, LOST[0], [LOST[1]] + ([LOST[2]] + ([LOST[3]] + rest)));
    assert LOST + rest == [LOST[0]] + ([LOST[1]] + ([LOST[2]] + ([LOST[3]] + rest)));
  }

  lemma MainOneTakesOver()
    ensures Legal(BETWEEN, TAKEN_OVER) && WellOrdered(BETWEEN, TAKEN_OVER)
    ensures Run(BETWEEN, TAKEN_OVER) == BOTH_ACTIVATED
  {
    var c1 := Take(BETWEEN, TAKEN_OVER[0]);
    var c2 := Take(c1, TAKEN_OVER[1]);
    var c3 := Take(c2, TAKEN_OVER[2]);
    CommitOnly("w", 1, FOLLOWER.(isLeader := true));
    assert c2.mains[1] == FOLLOWER.(isLeader := true, adding := map[1 := Adding("w", true)]);
    assert c3.mains == BOTH_ACTIVATED.mains;
    assert Legal(c3, []) && WellOrdered(c3, []);
    StepThen(c2, TAKEN_OVER[2], []);
    StepThen(c1, TAKEN_OVER[1], TAKEN_OVER[2..]);
    StepThen(BETWEEN, TAKEN_OVER[0], TAKEN_OVER[1..]);
  }

  /** Up to here every step keeps the order. */
  lemma CleanTakeover()
    ensures Legal(Followers({0, 1}), LOST + TAKEN_OVER) && WellOrdered(Followers({0, 1}), LOST + TAKEN_OVER)
    ensures Run(Followers({0, 1}), LOST + TAKEN_OVER) == BOTH_ACTIVATED
  {
    MainOneTakesOver();
    MainZeroLoses(TAKEN_OVER);
  }

  const BOTH_HOLD := Cluster(Some(1), map[0 := FOLLOWER.(triggers := {"w"}), 1 := LED])

  /** A run from fresh mains in which every step keeps the order but the last, the end of main 0's activation:
      after it both mains hold the workflow's triggers, and main 0 keeps its own until it leads again or they
      fail. */
  lemma StraddlingAddDuplicates(later: seq<Step>)
    requires Legal(BOTH_HOLD, later) && forall i :: 0 <= i < |later| ==> !Rescues(later[i], 0, "w")
    ensures Legal(Followers({0, 1}), LOST + TAKEN_OVER) && WellOrdered(Followers({0, 1}), LOST + TAKEN_OVER)
    ensures var c, end := Run(Followers({0, 1}), LOST + TAKEN_OVER), Within(0, CommitAdd(0));
            CanTake(c, end) && !KeepsOrder(c, end) && Take(c, end) == BOTH_HOLD
    ensures "w" in BOTH_HOLD.mains[0].triggers && "w" in BOTH_HOLD.mains[1].triggers
    ensures Orphaned(Run(BOTH_HOLD, later), 0, "w")
  {
    CleanTakeover();
    StraddlingAddEnds();
    OrphanStays(BOTH_HOLD, later, 0, "w");
  }

  lemma StraddlingAddEnds()
    ensures var end := Within(0, CommitAdd(0));
            CanTake(BOTH_ACTIVATED, end) && !KeepsOrder(BOTH_ACTIVATED, end) && Take(BOTH_ACTIVATED, end) == BOTH_HOLD
  {
    CommitOnly("w", 0, FOLLOWER);
    assert Take(BOTH_ACTIVATED, Within(0, CommitAdd(0))).mains == BOTH_HOLD.mains;
  }

  lemma LeaseStep(c: Cluster, s: Step, m: MainId)
    requires m in c.mains && c.mains[m].isLeader && c.key == Some(m) && CanTake(c, s) && !s.KeyExpires?
    ensures !s.TakeOver? && s != LoseLease(m)
    ensures Take(c, s).key == Some(m) && m in Take(c, s).mains && Take(c, s).mains[m].isLeader
  {
  }

  /** As long as the key does not expire, the main that leads and holds it keeps both, and in no run of any
      number of mains does another one take over. */
  lemma {:induction false} LeaseIsExclusive(c: Cluster, m: MainId, run: seq<Step>)
    requires m in c.mains && c.mains[m].isLeader && c.key == Some(m) && Legal(c, run) && KeyExpires !in run
    ensures var c' := Run(c, run); c'.key == Some(m) && m in c'.mains && c'.mains[m].isLeader
    ensures forall i :: 0 <= i < |run| ==> !run[i].TakeOver? && run[i] != LoseLease(m)
    decreases |run|
  {
    if run != [] {
      assert run == [run[0]] + run[1..];
      LeaseStep(c, run[0], m);
      LeaseIsExclusive(Take(c, run[0]), m, run[1..]);
      assert forall i :: 0 < i < |run| ==> run[i] == run[1..][i - 1];
    }
  }

  /** A takeover and the reclaiming of a lost key write the key, and nothing else but its expiry changes it. */
  lemma KeyExactly(c: Cluster, s: Step)
    requires CanTake(c, s)
    ensures Take(c, s).key == if s.KeyExpires? then None
                              else if s.TakeOver? || s.ReclaimKey? then Some(s.m) else c.key
    ensures forall m :: m in c.mains ==>
              m in Take(c, s).mains
              && (Take(c, s).mains[m].isLeader <==> s == TakeOver(m) || (c.mains[m].isLeader && s != LoseLease(m)))
  {
  }

  /** A key that expires before its holder notices lets another main take over: both lead. */
  lemma ExpiredKeyMakesTwoLeaders(c: Cluster, m: MainId, n: MainId)
    requires Orderly(c) && m in c.mains && n in c.mains && m != n && c.mains[m].isLeader
    ensures CanTake(Take(c, KeyExpires), TakeOver(n)) && !KeepsOrder(Take(c, KeyExpires), TakeOver(n))
    ensures var c' := Take(Take(c, KeyExpires), TakeOver(n)); c'.mains[m].isLeader && c'.mains[n].isLeader
  {
  }
}
