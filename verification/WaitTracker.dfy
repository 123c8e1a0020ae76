/**
 * The timers that resume waiting executions: a map from execution to timer, filled by a poll of the
 * database while this instance leads, and the retry loop around resuming a parent.
 */
module WaitTracker {
  import opened Arithmetic

  type ExecutionId = string
  type TimerId = nat

  /** A pending timeout: it starts `executionId` once `due` is reached. */
  datatype Timer = Timer(executionId: ExecutionId, due: int)

  datatype WaitingRow = WaitingRow(id: ExecutionId, waitTill: int)

  datatype Poller = NeverStarted | Ticking | Cleared

  datatype Tracker = Tracker(waiting: map<ExecutionId, TimerId>, timers: map<TimerId, Timer>, next: TimerId,
                             poller: Poller)

  datatype Event =
    | StartTracking
    | Poll(rows: seq<WaitingRow>, now: int)
    | StopExecution(id: ExecutionId)
    | Fire(timer: TimerId)
    | StartExecution(id: ExecutionId)
    | StopTracking

  const EMPTY := Tracker(map[], map[], 0, NeverStarted)

  function Arm(s: Tracker, row: WaitingRow, now: int): Tracker {
    if row.id in s.waiting then s
    else s.(waiting := s.waiting[row.id := s.next],
            timers := s.timers[s.next := Timer(row.id, Max(now, row.waitTill))],
            next := s.next + 1)
  }

  function ArmAll(s: Tracker, rows: seq<WaitingRow>, now: int): Tracker {
    if rows == [] then s else Arm(ArmAll(s, rows[..|rows| - 1], now), rows[|rows| - 1], now)
  }

  predicate Enabled(s: Tracker, e: Event) {
    e.Fire? ==> e.timer in s.timers
  }

  function Apply(s: Tracker, e: Event): Tracker
    requires Enabled(s, e)
  {
    match e
    case StartTracking => s.(poller := Ticking)
    case Poll(rows, now) => ArmAll(s, rows, now)
    case StopExecution(id) =>
      if id in s.waiting then s.(timers := s.timers - {s.waiting[id]}, waiting := s.waiting - {id}) else s
    case Fire(t) => s.(timers := s.timers - {t}, waiting := s.waiting - {s.timers[t].executionId})
    case StartExecution(id) => s.(waiting := s.waiting - {id})
    case StopTracking =>
      if s.poller.NeverStarted? then s else s.(poller := Cleared, timers := s.timers - s.waiting.Values)
  }

  // ---------------------------------------------------------------- The poll

  predicate Valid(s: Tracker) {
    && (forall id :: id in s.waiting ==> s.waiting[id] < s.next)
    && (forall t :: t in s.timers ==> t < s.next)
  }

  /** The map and the armed timers correspond one to one. */
  predicate Tidy(s: Tracker) {
    && (forall id :: id in s.waiting ==> s.waiting[id] in s.timers && s.timers[s.waiting[id]].executionId == id)
    && (forall t :: t in s.timers ==>
          s.timers[t].executionId in s.waiting && s.waiting[s.timers[t].executionId] == t)
  }

  function Ids(rows: seq<WaitingRow>): set<ExecutionId> {
    set row | row in rows :: row.id
  }

  /** The timers that will start `id`. */
  function TimersOf(s: Tracker, id: ExecutionId): set<TimerId> {
    set t | t in s.timers && s.timers[t].executionId == id
  }

  /** Known ids and armed timers are as they were. */
  predicate KeepsKnown(s: Tracker, s': Tracker) {
    && s.next <= s'.next && s'.poller == s.poller
    && (forall id :: id in s.waiting ==> id in s'.waiting && s'.waiting[id] == s.waiting[id])
    && (forall t :: t in s.timers ==> t in s'.timers && s'.timers[t] == s.timers[t])
  }

  /** Every new timer stands under its own id, which was unseen. */
  predicate NewTimersAreKeyed(s: Tracker, s': Tracker) {
    forall t :: t in s'.timers && t !in s.timers ==>
      var id := s'.timers[t].executionId;
      id !in s.waiting && id in s'.waiting && s'.waiting[id] == t
  }

  predicate NewKeysAreArmed(s: Tracker, s': Tracker, rows: seq<WaitingRow>, now: int) {
    forall id :: id in s'.waiting && id !in s.waiting ==> NewKeyIsArmed(s, s', rows, now, id)
  }

  /** A new key has a new timer of its own, due when its row says or at once if that has passed. */
  predicate NewKeyIsArmed(s: Tracker, s': Tracker, rows: seq<WaitingRow>, now: int, id: ExecutionId)
    requires id in s'.waiting
  {
    && s'.waiting[id] in s'.timers && s'.waiting[id] !in s.timers
    && s'.timers[s'.waiting[id]].executionId == id
    && DueFromRow(rows, now, id, s'.timers[s'.waiting[id]].due)
  }

  predicate DueFromRow(rows: seq<WaitingRow>, now: int, id: ExecutionId, due: int) {
    exists row :: row in rows && row.id == id && due == Max(now, row.waitTill)
  }

  lemma ArmUnseen(s: Tracker, m: Tracker, rows: seq<WaitingRow>, row: WaitingRow, now: int)
    requires Valid(s) && Valid(m) && KeepsKnown(s, m) && NewTimersAreKeyed(s, m) && NewKeysAreArmed(s, m, rows, now)
    ensures var s' := Arm(m, row, now);
            && Valid(s') && KeepsKnown(s, s') && NewTimersAreKeyed(s, s')
            && NewKeysAreArmed(s, s', rows + [row], now)
  {
  }

  /** A poll leaves every known id and every armed timer alone, and arms one timer for each unseen id. */
  lemma {:induction false} PollArmsUnseen(s: Tracker, rows: seq<WaitingRow>, now: int)
    requires Valid(s)
    ensures var s' := ArmAll(s, rows, now);
            && Valid(s') && KeepsKnown(s, s') && NewTimersAreKeyed(s, s') && NewKeysAreArmed(s, s', rows, now)
            && s'.waiting.Keys == s.waiting.Keys + Ids(rows)
  {
    if rows != [] {
      var init, row := rows[..|rows| - 1], rows[|rows| - 1];
      PollArmsUnseen(s, init, now);
      ArmUnseen(s, ArmAll(s, init, now), init, row, now);
      assert rows == init + [row];
      assert Ids(rows) == Ids(init) + {row.id};
    }
  }

  lemma ValidKept(s: Tracker, e: Event)
    requires Valid(s) && Enabled(s, e)
    ensures Valid(Apply(s, e))
  {
    if e.Poll? {
      PollArmsUnseen(s, e.rows, e.now);
    }
  }

  // ---------------------------------------------------------------- One timer an execution

  /** The two steps that break the correspondence: starting an execution whose timer is still armed, which
      forgets the key but not the timer, and stopping to track, which clears the timers but not the keys. */
  predicate KeepsTidy(s: Tracker, e: Event) {
    && (e.StartExecution? ==> e.id !in s.waiting)
    && (e.StopTracking? ==> s.poller.NeverStarted? || s.waiting == map[])
  }

  lemma PollKeepsTidy(s: Tracker, rows: seq<WaitingRow>, now: int)
    requires Valid(s) && Tidy(s)
    ensures Tidy(ArmAll(s, rows, now))
  {
    PollArmsUnseen(s, rows, now);
    var s' := ArmAll(s, rows, now);
    forall id | id in s'.waiting
      ensures s'.waiting[id] in s'.timers && s'.timers[s'.waiting[id]].executionId == id
    {
      assert id !in s.waiting ==> NewKeyIsArmed(s, s', rows, now, id);
    }
  }

  lemma TidyExactly(s: Tracker, e: Event)
    requires Valid(s) && Tidy(s) && Enabled(s, e)
    ensures Tidy(Apply(s, e)) <==> KeepsTidy(s, e)
  {
    var s' := Apply(s, e);
    if e.Poll? {
      PollKeepsTidy(s, e.rows, e.now);
    } else if e.StartExecution? && e.id in s.waiting {
      assert s.waiting[e.id] in s'.timers;
    } else if e.StopTracking? && !s.poller.NeverStarted? && s.waiting != map[] {
      var id :| id in s.waiting;
      assert s.waiting[id] in s.waiting.Values && id in s'.waiting;
    }
  }

  /** In a tidy state every polled execution ends up with exactly one timer, also if it is polled again. */
  lemma PolledHaveOneTimer(s: Tracker, rows: seq<WaitingRow>, now: int, id: ExecutionId)
    requires Valid(s) && Tidy(s) && id in Ids(rows)
    ensures var s' := Apply(s, Poll(rows, now)); id in s'.waiting && TimersOf(s', id) == {s'.waiting[id]}
  {
    PollArmsUnseen(s, rows, now);
    TidyExactly(s, Poll(rows, now));
  }

  predicate Legal(s: Tracker, run: seq<Event>)
    decreases |run|
  {
    run == [] || (Enabled(s, run[0]) && Legal(Apply(s, run[0]), run[1..]))
  }

  function Run(s: Tracker, run: seq<Event>): Tracker
    requires Legal(s, run)
    decreases |run|
  {
    if run == [] then s else Run(Apply(s, run[0]), run[1..])
  }

  // ---------------------------------------------------------------- Leadership terms

  /** A key without a timer: the execution counts as tracked but nothing will start it. */
  predicate Stranded(s: Tracker, id: ExecutionId) {
    id in s.waiting && TimersOf(s, id) == {}
  }

  predicate Mentions(e: Event, id: ExecutionId) {
    (e.StartExecution? && e.id == id) || (e.StopExecution? && e.id == id)
  }

  lemma StrandedStep(s: Tracker, e: Event, id: ExecutionId)
    requires Valid(s) && Enabled(s, e) && Stranded(s, id) && !Mentions(e, id)
    ensures Valid(Apply(s, e)) && Stranded(Apply(s, e), id)
  {
    ValidKept(s, e);
    var s' := Apply(s, e);
    if e.Poll? {
      PollArmsUnseen(s, e.rows, e.now);
    }
    forall t | t in s'.timers
      ensures s'.timers[t].executionId != id
    {
      assert t !in TimersOf(s, id);
    }
    assert e.Fire? ==> e.timer !in TimersOf(s, id);
  }

  /** No poll and no takeover ever arms a stranded execution again, however the run goes on, until that
      very execution is started or stopped by someone else. */
  lemma {:induction false} StrandedForever(s: Tracker, run: seq<Event>, id: ExecutionId)
    requires Valid(s) && Legal(s, run) && Stranded(s, id)
    requires forall i :: 0 <= i < |run| ==> !Mentions(run[i], id)
    ensures Stranded(Run(s, run), id)
    decreases |run|
  {
    if run != [] {
      StrandedStep(s, run[0], id);
      StrandedForever(Apply(s, run[0]), run[1..], id);
    }
  }

  /** The next term of the same instance arms exactly the polled executions that it was not tracking when
      it stepped down; those it was tracking stay without a timer. */
  lemma SecondTermArmsOnlyUnseen(s: Tracker, rows: seq<WaitingRow>, now: int, id: ExecutionId)
    requires Valid(s) && Tidy(s) && !s.poller.NeverStarted? && id in Ids(rows)
    ensures var s' := Apply(Apply(Apply(s, StopTracking), StartTracking), Poll(rows, now));
            && (TimersOf(s', id) != {} <==> id !in s.waiting)
            && (id in s.waiting ==> Stranded(s', id))
            && (id !in s.waiting ==> id in s'.waiting && TimersOf(s', id) == {s'.waiting[id]})
  {
    var stepped := Apply(s, StopTracking);
    assert stepped.timers == map[] by {
      forall t | t in s.timers
        ensures t in s.waiting.Values
      {
        assert s.waiting[s.timers[t].executionId] == t;
      }
    }
    var m := Apply(stepped, StartTracking);
    PollArmsUnseen(m, rows, now);
    var s' := Apply(m, Poll(rows, now));
    if id !in s.waiting {
      assert s'.waiting[id] in TimersOf(s', id);
    }
  }

  const ROW := WaitingRow("e", 100)
  const TWO_TERMS := [StartTracking, Poll([ROW], 0), StopTracking, StartTracking, Poll([ROW], 50)]

  lemma EventThen(s: Tracker, e: Event, rest: seq<Event>)
    requires Enabled(s, e) && Legal(Apply(s, e), rest)
    ensures Legal(s, [e] + rest) && Run(s, [e] + rest) == Run(Apply(s, e), rest)
  {
    assert ([e] + rest)[1..] == rest;
  }

  lemma ArmOne(s: Tracker, row: WaitingRow, now: int)
    ensures ArmAll(s, [row], now) == Arm(s, row, now)
  {
    assert [row][..0] == [];
  }

  /** From the start: polled in the first term and again in the second, and without a timer after that. */
  lemma SecondTermStrands()
    ensures Legal(EMPTY, TWO_TERMS) && Stranded(Run(EMPTY, TWO_TERMS), "e")
  {
    var s1 := Apply(EMPTY, TWO_TERMS[0]);
    var s2 := Tracker(map["e" := 0], map[0 := Timer("e", 100)], 1, Ticking);
    ArmOne(s1, ROW, 0);
    assert Apply(s1, TWO_TERMS[1]) == s2;
    var s3 := Tracker(map["e" := 0], map[], 1, Cleared);
    assert 0 in s2.waiting.Values by {
      assert s2.waiting["e"] == 0;
    }
    assert Apply(s2, TWO_TERMS[2]).timers == map[];
    var s4 := s3.(poller := Ticking);
    ArmOne(s4, ROW, 50);
    assert Apply(s4, TWO_TERMS[4]) == s4;
    assert Legal(s4, []);
    EventThen(s4, TWO_TERMS[4], []);
    EventThen(s3, TWO_TERMS[3], [TWO_TERMS[4]]);
    EventThen(s2, TWO_TERMS[2], TWO_TERMS[3..]);
    EventThen(s1, TWO_TERMS[1], TWO_TERMS[2..]);
    EventThen(EMPTY, TWO_TERMS[0], TWO_TERMS[1..]);
    assert TWO_TERMS == [TWO_TERMS[0]] + TWO_TERMS[1..];
    assert TimersOf(s4, "e") == {};
  }

  // ---------------------------------------------------------------- The tracker itself

  class WaitTracker {
    var waitingExecutions: map<ExecutionId, TimerId>
    var timers: map<TimerId, Timer>
    var nextTimer: TimerId
    var mainTimer: Poller

    function State(): Tracker
      reads this
    {
      Tracker(waitingExecutions, timers, nextTimer, mainTimer)
    }

    constructor ()
      ensures State() == EMPTY
    {
      waitingExecutions, timers, nextTimer, mainTimer := map[], map[], 0, NeverStarted;
    }

    predicate Has(id: ExecutionId)
      reads this
    {
      id in waitingExecutions
    }

    method StartTrackingExecutions(rows: seq<WaitingRow>, now: int)
      modifies this
      ensures State() == Apply(Apply(old(State()), StartTracking), Poll(rows, now))
      ensures mainTimer == Ticking
    {
      mainTimer := Ticking;
      GetWaitingExecutions(rows, now);
    }

    method GetWaitingExecutions(rows: seq<WaitingRow>, now: int)
      modifies this`waitingExecutions, this`timers, this`nextTimer
      ensures State() == Apply(old(State()), Poll(rows, now))
    {
      for i := 0 to |rows|
        invariant State() == ArmAll(old(State()), rows[..i], now)
      {
        assert rows[..i + 1][..i] == rows[..i];
        var row := rows[i];
        if row.id !in waitingExecutions {
          var triggerTime := row.waitTill - now;
          timers := timers[nextTimer := Timer(row.id, now + Max(triggerTime, 0))];
          waitingExecutions := waitingExecutions[row.id := nextTimer];
          nextTimer := nextTimer + 1;
        }
      }
      assert rows[..|rows|] == rows;
    }

    method Stop(id: ExecutionId)
      modifies this
      ensures State() == Apply(old(State()), StopExecution(id))
      ensures waitingExecutions == old(waitingExecutions) - {id} && unchanged(`nextTimer, `mainTimer)
      ensures timers == if id in old(waitingExecutions) then old(timers) - {old(waitingExecutions)[id]} else old(timers)
      ensures old(Tidy(State())) ==> TimersOf(State(), id) == {} && !Has(id)
    {
      if id !in waitingExecutions {
        return;
      }
      timers := timers - {waitingExecutions[id]};
      waitingExecutions := waitingExecutions - {id};
    }

    /** The synchronous part of a start, before the execution is read. */
    method Start(id: ExecutionId)
      modifies this
      ensures State() == Apply(old(State()), StartExecution(id))
      ensures waitingExecutions == old(waitingExecutions) - {id} && unchanged(`timers, `nextTimer, `mainTimer)
    {
      waitingExecutions := waitingExecutions - {id};
    }

    method TimerElapsed(t: TimerId)
      requires t in timers
      modifies this
      ensures State() == Apply(old(State()), Fire(t))
      ensures timers == old(timers) - {t} && waitingExecutions == old(waitingExecutions) - {old(timers)[t].executionId}
      ensures unchanged(`nextTimer, `mainTimer)
    {
      var id := timers[t].executionId;
      timers := timers - {t};
      Start(id);
    }

    method StopTrackingExecutions()
      modifies this
      ensures State() == Apply(old(State()), StopTracking)
      ensures waitingExecutions == old(waitingExecutions)
      ensures old(mainTimer) == NeverStarted ==> unchanged(this)
      ensures old(mainTimer) != NeverStarted ==>
              && mainTimer == Cleared && nextTimer == old(nextTimer)
              && timers == old(timers) - set id | id in waitingExecutions :: waitingExecutions[id]
    {
      if mainTimer.NeverStarted? {
        return;
      }
      mainTimer := Cleared;
      var ids := waitingExecutions.Keys;
      ghost var cleared: set<TimerId> := {};
      while ids != {}
        invariant ids <= waitingExecutions.Keys && waitingExecutions == old(waitingExecutions)
        invariant nextTimer == old(nextTimer) && mainTimer == Cleared
        invariant cleared == set id | id in waitingExecutions && id !in ids :: waitingExecutions[id]
        invariant timers == old(timers) - cleared
        decreases |ids|
      {
        var id :| id in ids;
        timers := timers - {waitingExecutions[id]};
        cleared := cleared + {waitingExecutions[id]};
        ids := ids - {id};
      }
      assert cleared == waitingExecutions.Values;
      assert cleared == set id | id in waitingExecutions :: waitingExecutions[id];
    }
  }

  // ---------------------------------------------------------------- Retries

  datatype Attempt = Succeeds | FailsRetryably | FailsForGood

  /** Attempts are numbered from 1, and there is always a first one. */
  predicate LastAttempt(outcomes: seq<Attempt>, maxAttempts: int, k: nat) {
    && 1 <= k <= |outcomes|
    && (forall i :: 0 <= i < k - 1 ==> outcomes[i].FailsRetryably? && i + 1 < maxAttempts)
    && (outcomes[k - 1].FailsRetryably? ==> k >= maxAttempts)
  }

  /** The sleeps before attempt n + 1. */
  function Backoff(n: nat): (waits: seq<nat>)
    ensures |waits| == n && forall i :: 0 <= i < n ==> waits[i] == 100 * Power2(i)
  {
    if n == 0 then [] else Backoff(n - 1) + [100 * Power2(n - 1)]
  }

  function Sum(waits: seq<nat>): nat {
    if waits == [] then 0 else Sum(waits[..|waits| - 1]) + waits[|waits| - 1]
  }

  lemma {:induction false} BackoffTotal(n: nat)
    ensures Sum(Backoff(n)) == 100 * (Power2(n) - 1)
  {
    if n > 0 {
      BackoffTotal(n - 1);
      assert Backoff(n)[..n - 1] == Backoff(n - 1);
    }
  }

  /** `outcomes[k]` is what attempt k + 1 would do. The loop stops at the first attempt that succeeds, fails
      for good, or is the last allowed one. */
  method WithRetry(outcomes: seq<Attempt>, maxAttempts: int) returns (attempts: nat, ok: bool, waits: seq<nat>)
    requires |outcomes| >= Max(1, maxAttempts)
    ensures LastAttempt(outcomes, maxAttempts, attempts) && attempts <= Max(1, maxAttempts)
    ensures ok <==> outcomes[attempts - 1].Succeeds?
    ensures waits == Backoff(attempts - 1)
    ensures 1 <= attempts <= |outcomes| && |waits| == attempts - 1
    ensures forall i :: 0 <= i < attempts - 1 ==> outcomes[i] == FailsRetryably && waits[i] == 100 * Power2(i)
    ensures outcomes[attempts - 1] == FailsRetryably ==> attempts >= maxAttempts
    ensures attempts > 1 ==> attempts <= maxAttempts
  {
    attempts, waits := 1, [];
    while true
      invariant 1 <= attempts <= Max(1, maxAttempts)
      invariant forall i :: 0 <= i < attempts - 1 ==> outcomes[i].FailsRetryably? && i + 1 < maxAttempts
      invariant waits == Backoff(attempts - 1)
      decreases Max(1, maxAttempts) - attempts
    {
      var outcome := outcomes[attempts - 1];
      if outcome.Succeeds? {
        return attempts, true, waits;
      }
      if attempts >= maxAttempts || outcome.FailsForGood? {
        return attempts, false, waits;
      }
      waits := waits + [100 * Power2(attempts - 1)];
      attempts := attempts + 1;
    }
  }
}
