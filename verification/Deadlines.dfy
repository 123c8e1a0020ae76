/**
 * Execution timeouts: the deadline handed down to nested sub-workflows, and the forced stop of a main
 * process that may wait and be resumed any number of times. Settings are in seconds, instants in ms.
 */
module Deadlines {
  import opened Arithmetic
  import opened Wrappers

  const MS := 1000

  /** `maxTimeout` and `timeout` are the instance-wide cap and default; not positive means none. */
  datatype Config = Config(maxTimeout: int, timeout: int)

  // ---------------------------------------------------------------- Sub-workflows

  function Capped(seconds: int, config: Config): int {
    if config.maxTimeout > 0 then Min(seconds, config.maxTimeout) else seconds
  }

  function DetermineWorkflowDeadline(startTime: int, setting: Option<int>, config: Config): Option<int> {
    if setting.Some? then
      if setting.value <= 0 then None else Some(startTime + Capped(setting.value, config) * MS)
    else if config.timeout > 0 then Some(startTime + Capped(config.timeout, config) * MS)
    else None
  }

  function ResolveSubworkflowDeadline(sub: Option<int>, parent: Option<int>, doNotWaitToFinish: bool): Option<int> {
    if doNotWaitToFinish then sub
    else if parent.Some? && sub.Some? then Some(Min(parent.value, sub.value))
    else if parent.Some? then parent
    else sub
  }

  /** A nested call: when it starts, its own timeout setting, and whether its parent waits for it. */
  datatype Call = Call(startTime: int, setting: Option<int>, doNotWaitToFinish: bool)

  function OwnDeadline(call: Call, config: Config): Option<int> {
    DetermineWorkflowDeadline(call.startTime, call.setting, config)
  }

  /** The deadline the innermost of a chain of calls runs with, below a root with deadline `root`. */
  function ChainDeadline(root: Option<int>, chain: seq<Call>, config: Config): Option<int> {
    if chain == [] then root
    else
      var call := chain[|chain| - 1];
      ResolveSubworkflowDeadline(OwnDeadline(call, config),
                                 ChainDeadline(root, chain[..|chain| - 1], config),
                                 call.doNotWaitToFinish)
  }

  predicate AllWaitedFor(chain: seq<Call>) {
    forall k :: 0 <= k < |chain| ==> !chain[k].doNotWaitToFinish
  }

  /** Some limit along a waited-for chain: the root's, or one of the calls' own. */
  ghost predicate IsLimit(root: Option<int>, chain: seq<Call>, config: Config, d: int) {
    root == Some(d) || exists k :: 0 <= k < |chain| && OwnDeadline(chain[k], config) == Some(d)
  }

  /** Waiting for all of them, a chain of calls runs with the earliest of all limits along it. */
  lemma {:induction false} ChainKeepsEarliest(root: Option<int>, chain: seq<Call>, config: Config)
    requires AllWaitedFor(chain)
    ensures var d := ChainDeadline(root, chain, config);
            && (d.None? <==> forall l :: !IsLimit(root, chain, config, l))
            && (d.Some? ==> IsLimit(root, chain, config, d.value)
                            && forall l :: IsLimit(root, chain, config, l) ==> d.value <= l)
  {
    if chain != [] {
      var init, call := chain[..|chain| - 1], chain[|chain| - 1];
      ChainKeepsEarliest(root, init, config);
      forall l
        ensures IsLimit(root, chain, config, l) <==> IsLimit(root, init, config, l) || OwnDeadline(call, config) == Some(l)
      {
        LimitsSnoc(root, init, call, config, l);
        assert chain == init + [call];
      }
      var before, d := ChainDeadline(root, init, config), ChainDeadline(root, chain, config);
      if d.Some? {
        assert d == before || d == OwnDeadline(call, config);
      } else {
        assert before.None? && OwnDeadline(call, config).None?;
      }
      if before.Some? {
        assert IsLimit(root, chain, config, before.value);
      }
      if OwnDeadline(call, config).Some? {
        assert IsLimit(root, chain, config, OwnDeadline(call, config).value);
      }
    } else if root.Some? {
      assert IsLimit(root, chain, config, root.value);
    }
  }

  lemma LimitsSnoc(root: Option<int>, init: seq<Call>, call: Call, config: Config, l: int)
    ensures IsLimit(root, init + [call], config, l) <==>
            IsLimit(root, init, config, l) || OwnDeadline(call, config) == Some(l)
  {
    var chain := init + [call];
    assert chain[|init|] == call;
    assert forall k :: 0 <= k < |init| ==> chain[k] == init[k];
  }

  /** Further down a waited-for chain a deadline never disappears and never moves later. */
  lemma {:induction false} DeadlinesOnlyTighten(root: Option<int>, outer: seq<Call>, inner: seq<Call>, config: Config)
    requires AllWaitedFor(inner) && ChainDeadline(root, outer, config).Some?
    ensures var d := ChainDeadline(root, outer + inner, config);
            d.Some? && d.value <= ChainDeadline(root, outer, config).value
    decreases |inner|
  {
    if inner == [] {
      assert outer + inner == outer;
    } else {
      DeadlinesOnlyTighten(root, outer, inner[..|inner| - 1], config);
      assert (outer + inner)[..|outer + inner| - 1] == outer + inner[..|inner| - 1];
    }
  }

  /** A call nobody waits for starts afresh: nothing above it limits the calls below it. */
  lemma {:induction false} DetachedStartsAfresh(root: Option<int>, outer: seq<Call>, call: Call, inner: seq<Call>, config: Config)
    requires call.doNotWaitToFinish
    ensures ChainDeadline(root, outer + [call] + inner, config)
         == ChainDeadline(OwnDeadline(call, config), inner, config)
    decreases |inner|
  {
    var chain := outer + [call] + inner;
    if inner == [] {
      assert chain[..|chain| - 1] == outer;
    } else {
      DetachedStartsAfresh(root, outer, call, inner[..|inner| - 1], config);
      assert chain[..|chain| - 1] == outer + [call] + inner[..|inner| - 1];
    }
  }

  // ---------------------------------------------------------------- The main process

  function Requested(setting: Option<int>, config: Config): int {
    setting.GetOr(config.timeout)
  }

  /** The timeout a main process runs with, in seconds; not positive means none. */
  function EffectiveTimeout(setting: Option<int>, config: Config): int {
    var requested := Requested(setting, config);
    if requested > 0 then Min(requested, config.maxTimeout) else requested
  }

  function MainDeadline(now: int, setting: Option<int>, config: Config): Option<int> {
    var seconds := EffectiveTimeout(setting, config);
    if seconds <= 0 then None else Some(now + seconds * MS)
  }

  /** When the forced stop is due: measured from the recorded start of the execution, at once if that is past. */
  function StopInstant(startedAt: int, seconds: int, now: int): int {
    Max(startedAt + seconds * MS, now)
  }

  /** The timeouts of one start or resume: the soft deadline, and the delay of the forced stop. */
  method RunMainProcessTimeouts(now: int, startedAt: Option<int>, setting: Option<int>, config: Config)
    returns (deadline: Option<int>, stopAfter: Option<int>)
    ensures deadline == MainDeadline(now, setting, config)
    ensures stopAfter.Some? <==> deadline.Some?
    ensures stopAfter.Some? ==>
              stopAfter.value >= 0
              && now + stopAfter.value == StopInstant(startedAt.GetOr(now), EffectiveTimeout(setting, config), now)
    ensures (if setting.Some? then setting.value else config.timeout) <= 0 || config.maxTimeout <= 0 ==>
              deadline == None && stopAfter == None
    ensures (if setting.Some? then setting.value else config.timeout) > 0 && config.maxTimeout > 0 ==>
              var asked := if setting.Some? then setting.value else config.timeout;
              var timeout := (if asked <= config.maxTimeout then asked else config.maxTimeout) * 1000;
              && deadline == Some(now + timeout) && stopAfter.Some?
              && (startedAt.None? ==> stopAfter == Some(timeout))
              && (startedAt.Some? && startedAt.value + timeout >= now ==> now + stopAfter.value == startedAt.value + timeout)
              && (startedAt.Some? && startedAt.value + timeout < now ==> stopAfter == Some(0))
  {
    var workflowTimeout := setting.GetOr(config.timeout);
    if workflowTimeout > 0 {
      workflowTimeout := Min(workflowTimeout, config.maxTimeout);
    }
    deadline := if workflowTimeout <= 0 then None else Some(now + workflowTimeout * MS);
    stopAfter := None;
    if workflowTimeout > 0 {
      var timeout := Min(workflowTimeout, config.maxTimeout) * MS;
      if startedAt.Some? {
        timeout := Max(timeout - (now - startedAt.value), 0);
      }
      stopAfter := Some(timeout);
    }
  }

  /** A sub-workflow's own deadline is the one a main process would get exactly when the instance has a cap or
      no timeout is asked for. Without a cap the main process drops a timeout the sub-workflow keeps. */
  lemma SameDeadlineExactly(start: int, setting: Option<int>, config: Config)
    ensures DetermineWorkflowDeadline(start, setting, config) == MainDeadline(start, setting, config) <==>
            config.maxTimeout > 0 || Requested(setting, config) <= 0
    ensures config.maxTimeout <= 0 ==> MainDeadline(start, setting, config).None?
    ensures config.maxTimeout <= 0 && Requested(setting, config) > 0 ==>
              DetermineWorkflowDeadline(start, setting, config) == Some(start + Requested(setting, config) * MS)
    ensures DetermineWorkflowDeadline(start, setting, config).None? <==> Requested(setting, config) <= 0
  {
  }

  // ---------------------------------------------------------------- Waiting and resuming

  /** One stretch of running, from a start or resume to the next wait, the end or the forced stop. A resume by
      the wait tracker carries the recorded start along; the first start and a resume by webhook do not. */
  datatype Stretch = Stretch(begin: int, end: int, carriesStart: bool)

  /** When a stretch is stopped at the latest. */
  function LatestEnd(startedAt: int, seconds: int, s: Stretch): int {
    StopInstant(if s.carriesStart then startedAt else s.begin, seconds, s.begin)
  }

  /** However often an execution waits, every stretch that the wait tracker resumes in time has the same latest
      end, the recorded start plus the timeout, so a wait neither lengthens nor shortens the budget; resumed too
      late it is stopped at once, and a stretch without a recorded start has a budget of its own. */
  lemma LatestEnds(startedAt: int, seconds: int, h: seq<Stretch>)
    requires seconds > 0 && History(startedAt, seconds, h)
    ensures forall k :: 0 <= k < |h| ==>
              LatestEnd(startedAt, seconds, h[k])
              == if !h[k].carriesStart then h[k].begin + seconds * 1000
                 else if h[k].begin <= startedAt + seconds * 1000 then startedAt + seconds * 1000
                 else h[k].begin
    ensures h != [] && h[0].begin == startedAt && WebhookResumes(h) == 0 ==>
              forall k :: 0 <= k < |h| && h[k].begin < startedAt + seconds * 1000 ==>
                LatestEnd(startedAt, seconds, h[k]) == startedAt + seconds * 1000
  {
    if WebhookResumes(h) == 0 {
      NoneByWebhook(h);
    }
  }

  lemma {:induction false} NoneByWebhook(h: seq<Stretch>)
    ensures WebhookResumes(h) == 0 <==> forall k :: 0 < k < |h| ==> h[k].carriesStart
  {
    if |h| > 1 {
      NoneByWebhook(h[..|h| - 1]);
      assert forall k {:trigger h[k]} :: 0 <= k < |h| - 1 ==> h[..|h| - 1][k] == h[k];
    }
  }

  /** How long the execution waited in all. */
  function Waiting(h: seq<Stretch>): int {
    if |h| <= 1 then 0 else Waiting(h[..|h| - 1]) + (h[|h| - 1].begin - h[|h| - 2].end)
  }

  lemma {:induction false} RunsOrWaits(h: seq<Stretch>)
    requires h != []
    ensures Running(h) + Waiting(h) == h[|h| - 1].end - h[0].begin
  {
    if |h| > 1 {
      RunsOrWaits(h[..|h| - 1]);
    } else {
      assert h[..|h| - 1] == [];
    }
  }

  /** An execution that the wait tracker resumed in time and that is forced to stop has by then run and waited
      for exactly its timeout since the recorded start. */
  lemma StoppedAfterTimeoutExactly(startedAt: int, seconds: int, h: seq<Stretch>)
    requires seconds > 0 && |h| > 1 && History(startedAt, seconds, h)
    requires h[|h| - 1].carriesStart && h[|h| - 1].begin <= startedAt + seconds * 1000
    ensures h[|h| - 1].end == LatestEnd(startedAt, seconds, h[|h| - 1]) <==>
            (h[0].begin - startedAt) + Running(h) + Waiting(h) == seconds * 1000
  {
    RunsOrWaits(h);
  }

  lemma StoppedFromStartExactly(startedAt: int, seconds: int, s: Stretch)
    requires seconds > 0 && startedAt <= s.begin
    ensures LatestEnd(startedAt, seconds, s) == StopInstant(startedAt, seconds, s.begin) <==>
            s.carriesStart || s.begin == startedAt
  {
  }

  /** The stretches of one execution: in order, the first one without a recorded start. */
  predicate History(startedAt: int, seconds: int, h: seq<Stretch>) {
    && (h != [] ==> !h[0].carriesStart && startedAt <= h[0].begin)
    && (forall k :: 0 <= k < |h| ==> h[k].begin <= h[k].end <= LatestEnd(startedAt, seconds, h[k]))
    && (forall k :: 0 < k < |h| ==> h[k - 1].end <= h[k].begin)
  }

  function Running(h: seq<Stretch>): int {
    if h == [] then 0 else Running(h[..|h| - 1]) + (h[|h| - 1].end - h[|h| - 1].begin)
  }

  /** How often the execution was resumed without its recorded start. */
  function WebhookResumes(h: seq<Stretch>): nat {
    if |h| <= 1 then 0 else WebhookResumes(h[..|h| - 1]) + (if h[|h| - 1].carriesStart then 0 else 1)
  }

  /** Of the whole running time, what the webhook resumes account for. */
  function RunningAfterWebhook(h: seq<Stretch>): int {
    if |h| <= 1 then 0
    else
      var last := h[|h| - 1];
      RunningAfterWebhook(h[..|h| - 1]) + (if last.carriesStart then 0 else last.end - last.begin)
  }

  lemma HistoryInit(startedAt: int, seconds: int, h: seq<Stretch>)
    requires |h| > 1 && History(startedAt, seconds, h)
    ensures var init := h[..|h| - 1];
            History(startedAt, seconds, init) && init[0] == h[0] && init[|init| - 1].end <= h[|h| - 1].begin
  {
  }

  /** The first stretch and those resumed by the wait tracker share one budget, counted from the first. */
  lemma {:induction false} TrackedStretchesShareBudget(startedAt: int, seconds: int, h: seq<Stretch>)
    requires seconds > 0 && h != [] && History(startedAt, seconds, h)
    ensures Running(h) - RunningAfterWebhook(h) <= Min(h[|h| - 1].end, h[0].begin + seconds * MS) - h[0].begin
  {
    if |h| > 1 {
      HistoryInit(startedAt, seconds, h);
      TrackedStretchesShareBudget(startedAt, seconds, h[..|h| - 1]);
    } else {
      assert h[..|h| - 1] == [];
    }
  }

  lemma {:induction false} WebhookStretchesRestartBudget(startedAt: int, seconds: int, h: seq<Stretch>)
    requires seconds > 0 && History(startedAt, seconds, h)
    ensures RunningAfterWebhook(h) <= WebhookResumes(h) * (seconds * MS)
  {
    if |h| > 1 {
      var init := h[..|h| - 1];
      HistoryInit(startedAt, seconds, h);
      WebhookStretchesRestartBudget(startedAt, seconds, init);
      assert (WebhookResumes(init) + 1) * (seconds * MS) == WebhookResumes(init) * (seconds * MS) + seconds * MS;
    }
  }

  /** However often it waits, an execution runs in all for at most its timeout, plus one more timeout for
      every resume by webhook; and one that the wait tracker resumes too late does not run at all. */
  lemma RunningIsBounded(startedAt: int, seconds: int, h: seq<Stretch>)
    requires seconds > 0 && History(startedAt, seconds, h)
    ensures Running(h) <= (1 + WebhookResumes(h)) * (seconds * MS)
    ensures WebhookResumes(h) == 0 ==> Running(h) <= seconds * MS
    ensures forall k :: 0 <= k < |h| && h[k].carriesStart && h[k].begin >= startedAt + seconds * MS ==>
              h[k].end == h[k].begin
  {
    WebhookStretchesRestartBudget(startedAt, seconds, h);
    if h != [] {
      TrackedStretchesShareBudget(startedAt, seconds, h);
    }
    var budget := seconds * MS;
    assert (1 + WebhookResumes(h)) * budget == budget + WebhookResumes(h) * budget;
  }

  /** An execution that only webhooks resume, each time at once, and that always runs until stopped. */
  function Relay(budget: nat, n: nat): (h: seq<Stretch>)
    ensures |h| == n + 1
  {
    if n == 0 then [Stretch(0, budget, false)]
    else
      var h := Relay(budget, n - 1);
      h + [Stretch(h[n - 1].end, h[n - 1].end + budget, false)]
  }

  lemma {:induction false} RelayRuns(seconds: nat, n: nat)
    requires seconds > 0
    ensures var h := Relay(seconds * MS, n);
            History(0, seconds, h) && WebhookResumes(h) == n && Running(h) == h[n].end
  {
    var h := Relay(seconds * MS, n);
    if n > 0 {
      RelayRuns(seconds, n - 1);
      assert h[..n] == Relay(seconds * MS, n - 1);
    } else {
      assert h[..0] == [];
    }
  }

  lemma {:induction false} RelayEnds(budget: nat, n: nat)
    ensures Relay(budget, n)[n].end == (1 + n) * budget
  {
    if n > 0 {
      RelayEnds(budget, n - 1);
    }
  }

  /** The bound is met: with n resumes by webhook an execution can run n + 1 times its timeout. */
  lemma WebhookResumesExtendTheBudget(seconds: nat, n: nat)
    requires seconds > 0
    ensures exists h :: History(0, seconds, h) && WebhookResumes(h) == n && Running(h) == (1 + n) * (seconds * MS)
  {
    RelayRuns(seconds, n);
    RelayEnds(seconds * MS, n);
  }

  /** The soft deadline is measured from now, the forced stop from the recorded start if there is one. The
      deadline is never before the stop, and the same exactly without a recorded start or at that very start:
      every resume that carries the start moves the deadline past the stop. */
  lemma SoftDeadlineMoves(startedAt: Option<int>, now: int, setting: Option<int>, config: Config)
    requires startedAt.Some? ==> startedAt.value <= now
    requires MainDeadline(now, setting, config).Some?
    ensures var stop := StopInstant(startedAt.GetOr(now), EffectiveTimeout(setting, config), now);
            var soft := MainDeadline(now, setting, config).value;
            stop <= soft && (stop == soft <==> startedAt.None? || startedAt.value == now)
  {
  }
}
