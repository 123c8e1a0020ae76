# Execution lifecycle, credentials and activation of n8n, modelled in Dafny

The project models the parts of the n8n main process where state changes step by step and where the
order of the steps matters, and proves what every run of them keeps. Some properties hold only under a
condition that the code does not enforce; those are stated with the condition, together with a run or an
input that breaks them.

| file | models |
|---|---|
| `ActiveExecutions.dfy` | the in-memory map of running executions, the slots they hold, and the closure on each post-execute promise; a generation number stands for the identity of an entry object |
| `ResumeProtocol.dfy` | any number of such processes over shared execution rows: creating, waiting, and resuming by compare-and-set |
| `ParentResume.dfy` | finished children writing their result into a waiting parent and racing to resume it |
| `WaitTracker.dfy` | the timers that resume waiting executions across leadership terms, and the retry loop |
| `ConcurrencyQueue.dfy` | the queue behind the concurrency limit |
| `Throttling.dfy` | adds and that queue together: asking for capacity, waiting, going on, giving it back |
| `CredentialTypes.dfy`, `CredentialsOverwrites.dfy` | the `extends` graph of credential types; flattening, persisting, reloading, reading and applying overwrites |
| `KeyOrder.dfy` | for which overwrites the order of their keys matters, on a small family of types |
| `ReplaceCredentials.dfy` | the repair of credential references behind two caches |
| `NodeGroups.dfy` | the one-pass validation of node groups |
| `Webhooks.dfy` | registration of webhooks and its rollback, with a failure possible at every call |
| `ActivationQueue.dfy` | retries of failed activations with backoff |
| `LeaderTriggers.dfy` | which main instance holds which triggers while leadership moves |
| `Deadlines.dfy` | deadlines of nested sub-workflows and the forced stop over waits and resumes |
| `Wrappers.dfy`, `Arithmetic.dfy` | option and result types; shared arithmetic |

`dafny verify dfyconfig.toml` checks everything.

## How the source is represented

* Code that updates fields in place is a class whose methods change the same fields. Each method is proved
  equal to a step or function of a specification (`Apply`, `Overwrites`, `Register`, ...), and the theorems
  are about all runs of those. What such a step does to each field, with the constants and lists of modes
  written out, is stated once more in the method's contract or in a lemma beside it. Asynchronous code is cut into steps at every `await`. What several processes,
  children or instances do to shared rows and keys (`Take` in `ResumeProtocol`, `ParentResume`, `Throttling`
  and `LeaderTriggers`) is a step relation on values without a class of its own.
* A thrown error is a result value. A failing database, network or node call is an input that says what
  fails; clocks are integers.
* Assumed of the environment, and nothing else: a promise settles once; releasing a slot twice has no
  effect; in `ResumeProtocol`, only the run that owns a row writes it to waiting, after it has marked its
  own in-memory entry so, and the in-memory status is only ever set to waiting; in `ParentResume`, only
  finished children write the row of a waiting parent; in `ReplaceCredentials`, ids of credential rows are
  unique; and the `extends` graph has no cycle.

## What turned out not to hold as stated

* Removing one of several throttled executions from the concurrency queue admits the next one without a
  free slot; nothing else makes more executions run than the limit allows (`ConcurrencyQueue.LimitHoldsIff`,
  `Throttling.LimitHoldsExactly`; it happens in `ConcurrencyQueue.RemovalExceedsLimit` and
  `Throttling.RemovalLetsTwoThrough`).
* An execution of a limited mode that is stopped while marked waiting, or resumed before its own run has
  finalized, keeps its slot for good; in the second case the late call finalizes the resumed run instead
  (`ActiveExecutions.OrphanKeepsSlot`, reached in `ActiveExecutions.StoppedWhileWaiting` and
  `ResumeProtocol.ResumeCanOvertakeFinalize`).
* An execution that starts to wait after the shutdown sweep keeps `shutdown` waiting
  (`ActiveExecutions.WaitingBlocksShutdown`, reached in `ActiveExecutions.ShutdownCanBlock`).
* When a parent waits again, a child or another resumer that is half-way through from before can make it
  run a stale document (`ParentResume.LateChildRevivesOldStack`) or its own input
  (`ParentResume.UnheardChildResumesNextWait`). A wait is safe from that exactly if it begins with nobody
  half-way (`ParentResume.NextWaitSafeExactly`).
* Executions that were tracked when an instance stepped down get no timer when it leads again
  (`WaitTracker.SecondTermArmsOnlyUnseen`, `WaitTracker.SecondTermStrands`).
* With two parents that set the same field, the value a credential gets can depend on the key order of the
  overwrites (`KeyOrder.KeyOrderMatters`). That no field has two nearest values is enough to rule this out on
  every graph (`CredentialsOverwrites.AnswerUnique`), and is not needed (`KeyOrder.AmbiguousButStable`). For
  a type with two parents and a type that extends it, `KeyOrder.OrderMattersExactly` is the exact condition.
* A dead credential id that appears under two names is cached under the first one
  (`ReplaceCredentials.AgreesExactly`). Repairing twice is idempotent all the same.
* A node may be in two groups if the first of them has an empty name (`NodeGroups.UnnamedGroupSharesNode`).
* An error in saving the static data leaves the webhooks registered (`Webhooks.RolledBackExactly`,
  `Webhooks.UnsavedStaysRegistered`).
* Re-queueing a workflow while its retry is in flight leaves two timers
  (`ActivationQueue.RequeuedDuringRetry`).
* A retry that fails is not always retried: not if it fails after it has taken its workflow off the queue. Nor
  is one that is skipped, although its workflow stays in the queue (`ActivationQueue.RetriedExactly`,
  `ActivationQueue.OtherEndsAreFinal`, reached in `ActivationQueue.LateFailureAndSkipReached`).
* An activation that begins before a stepdown and ends after it leaves its triggers on a follower
  (`LeaderTriggers.StraddlingAddDuplicates`), and an expired leader key allows two leaders
  (`LeaderTriggers.ExpiredKeyMakesTwoLeaders`).
* A main that leads again before its removal loop has ended can lose a trigger it has just added to that loop
  (`LeaderTriggers.LeaderHoldsExactly`, `LeaderTriggers.StaleRemovalTakesTrigger`).
* Without a maximum timeout a main process runs without any, while a sub-workflow keeps its own
  (`Deadlines.SameDeadlineExactly`).
* A resume by webhook starts the timeout anew (`Deadlines.WebhookResumesExtendTheBudget`): the forced stop is
  due max(start + timeout, resume) exactly if the resume carries the recorded start or happens at it
  (`Deadlines.StoppedFromStartExactly`). A resume that does carry it moves the soft deadline past the forced
  stop (`Deadlines.SoftDeadlineMoves`).

Where a comment in the source says otherwise, the model follows the code: the comment on
`validateWorkflowNodeGroups` (packages/cli/src/workflow-helpers.ts:140-145) promises at most one group a
node, and the comment in `runMainProcess` (packages/cli/src/workflow-runner.ts:441-443) a timeout relative
to the start of the execution.

## Model

| member | source | states |
|---|---|---|
| `ActiveExecutions.SlotConservation` | packages/cli/src/active-executions.ts:62-179 | in every run, as long as the concurrency limit is in force, the slots in use are exactly the held reservations of the limited modes (webhook, trigger, chat): those of adds that have reserved and of entries whose closure has not run |
| `ActiveExecutions.HoldersStep` | packages/cli/src/concurrency/concurrency-control.service.ts:173-188 | a slot is taken by the reservation of an add in a limited mode only, and given back only by that add failing or by the closure of the very generation that holds it, so at most once |
| `ActiveExecutions.OrphanedBy` | packages/cli/src/active-executions.ts:211-260 | the exact steps after which a pending promise can no longer be reached through the map |
| `ActiveExecutions.OrphanKeepsSlot` | packages/cli/src/active-executions.ts:228-242 | a generation so lost never settles, and if it holds a slot keeps it through every later run |
| `ActiveExecutions.StoppedWhileWaiting` | packages/cli/src/active-executions.ts:228-232 | a run from an empty map that stops an execution marked waiting, after which its slot is held and its promise out of reach |
| `ActiveExecutions.ResumeBeforeFinalize` | packages/cli/src/active-executions.ts:143-156 | finalizing by execution id after a resume settles the resumed generation and loses the finished one |
| `ActiveExecutions.SweepStep` | packages/cli/src/active-executions.ts:333-344 | the shutdown loop does the same whatever order it visits the executions in |
| `ActiveExecutions.SweepLeaves` | packages/cli/src/active-executions.ts:325-344 | after the sweep no waiting entry is left, a cancelling sweep leaves no pending promise, and any other sweep leaves no new entry and the rest as they were |
| `ActiveExecutions.SweepExactly` | packages/cli/src/active-executions.ts:325-344 | which entries and response modes the sweep leaves, and that only regular mode switches the release of capacity off |
| `ActiveExecutions.SweepRejectsExactly` | packages/cli/src/active-executions.ts:333-339 | the promises a sweep rejects: in regular mode and cancelling, the pending ones of current entries that are not waiting, and no others |
| `ActiveExecutions.StartedAtStays` | packages/cli/src/active-executions.ts:146-156 | over every run, while an execution stays in the map its recorded start never changes, through any number of waits and resumes |
| `ActiveExecutions.StartsWhenFirstAdded` | packages/cli/src/active-executions.ts:146-156 | that start is the instant at which the first add of the execution completed |
| `ActiveExecutions.WaitingBlocksShutdown` | packages/cli/src/active-executions.ts:348-357 | an entry that turns waiting after the sweep stays in the map, waiting, all along a run if and only if nobody stops, resumes, sweeps or wakes it; the final loop does none of that, so it does not end |
| `ActiveExecutions.LingersStep` | packages/cli/src/active-executions.ts:159-174 | the step-level equivalence: no closure still to run ends such a wait |
| `ActiveExecutions.ShutdownCanBlock` | packages/cli/src/active-executions.ts:325-357 | a run from an empty map, with the sweep on the way, that reaches such an entry |
| `ActiveExecutions.ActiveExecutions.BeginAdd` | packages/cli/src/active-executions.ts:62-102 | an add gets a fresh generation and touches nothing but its own pending record |
| `ActiveExecutions.ActiveExecutions.AbortAdd` | packages/cli/src/active-executions.ts:138-141 | a failed add leaves slots as they were before it reserved, and the map unchanged |
| `ActiveExecutions.ActiveExecutions.CompleteAdd` | packages/cli/src/active-executions.ts:143-178 | the tail of add makes a new, running entry with a pending promise the current one of the execution; its start time is that of the entry the map held for the execution, and now if there was none; nothing else changes |
| `ActiveExecutions.ActiveExecutions.OnPromiseSettled` | packages/cli/src/active-executions.ts:159-174 | the closure gives back the slot of a webhook, trigger or chat execution, and deletes entry and response mode by execution id unless its own entry is waiting |
| `ActiveExecutions.ActiveExecutions.StopExecution` | packages/cli/src/active-executions.ts:211-238 | stopping forgets a waiting entry without settling it and rejects the pending promise of any other; no slot and no other entry changes |
| `ActiveExecutions.ActiveExecutions.FinalizeExecution` | packages/cli/src/active-executions.ts:241-260 | finalizing resolves the promise of the entry the map holds at that moment, if any |
| `ActiveExecutions.ActiveExecutions.SetStatus` | packages/cli/src/active-executions.ts:308-310 | sets the status of the current entry, or fails for an unknown execution |
| `ActiveExecutions.ActiveExecutions.ShutdownSweep` | packages/cli/src/active-executions.ts:325-344 | the loop over all executions has the effect of the order-free sweep |
| `ResumeProtocol.GenerationSafety` | packages/cli/src/active-executions.ts:143-174 | in every reachable state of any number of processes, the closure of a generation removes no map entry and no response mode of another generation |
| `ResumeProtocol.ResumesNeverExceedWaits` | packages/cli/src/active-executions.ts:112-137 | over all runs the counted resumes of a row are at most its counted waits |
| `ResumeProtocol.WinsNeverExceedWaits` | packages/cli/src/active-executions.ts:112-137 | counted by the steps of the run itself: however many processes, timers, children and retries race, compare-and-set wins an execution at most as often as it was put to wait |
| `ResumeProtocol.WonOnce` | packages/cli/src/wait-tracker.ts:153-168 | after a resume has won, neither a retry nor anybody else can win until the execution waits again |
| `ResumeProtocol.TakeKeepsInv` | packages/cli/src/active-executions.ts:127-174 | every step of every process keeps: a closure that would delete belongs to the owner of the row, and the owner of a waiting row is waiting in memory |
| `ResumeProtocol.ResumeCanOvertakeFinalize` | packages/cli/src/active-executions.ts:241-258 | a reachable state in which a late finalize settles a resumed run, whose closure then removes it while the first slot is never given back |
| `ParentResume.WinnerCarriesResult` | packages/cli/src/workflow-helpers.ts:442-487 | under every interleaving, over any number of waits that begin with nobody half-way, a child that has something to report and wins the resume runs the parent with some child's output or error in the first stack entry and the rest of the current stack unchanged |
| `ParentResume.GuaranteedExactly` | packages/cli/src/workflow-helpers.ts:447-465 | no child ever resumes the parent on its original input if and only if the stack is not empty and every child has an output or an error |
| `ParentResume.PatchedEntry` | packages/cli/src/workflow-helpers.ts:467-481 | after any sequence of child writes the entry has the last success's output and the last failure's error: an error outlives later successes |
| `ParentResume.PatchInPlace` | packages/cli/src/workflow-helpers.ts:447-481 | the update in place of the document that was read, field by field, and when there is nothing to write |
| `ParentResume.StepKeepsInv` | packages/cli/src/wait-tracker.ts:191-226 | every read, write, retry and compare-and-set keeps the row built from the original stack by complete child results |
| `ParentResume.OneWinnerAWait` | packages/cli/src/wait-tracker.ts:153-168 | whichever steps of children and other resumers follow, a wait is ended by one winner only, and the parent stays resumed on what that one loaded |
| `ParentResume.NextWaitSafeExactly` | packages/cli/src/wait-tracker.ts:191-226 | whatever the parent waits with next and whatever then happens, only documents of that wait are run, with a child's result, if and only if it begins with no child and no other resumer half-way through an update or resume |
| `ParentResume.LateChildRevivesOldStack` | packages/cli/src/workflow-helpers.ts:483-486 | the unguarded write of a child from an earlier wait puts the parent back to that wait's stack |
| `ParentResume.UnheardChildResumesNextWait` | packages/cli/src/workflow-helpers.ts:456-458 | a child that finds the parent running writes nothing, and then resumes its next wait on exactly the parent's own input |
| `WaitTracker.PollArmsUnseen` | packages/cli/src/wait-tracker.ts:82-110 | a poll keeps all known executions and timers and arms one timer, due at the row's time or at once, for each unseen execution |
| `WaitTracker.TidyExactly` | packages/cli/src/wait-tracker.ts:82-122 | map and armed timers stay one to one exactly unless an execution is started while its timer is armed or tracking stops with executions tracked |
| `WaitTracker.PolledHaveOneTimer` | packages/cli/src/wait-tracker.ts:98-109 | however often an execution is polled, it has one timer |
| `WaitTracker.StrandedForever` | packages/cli/src/wait-tracker.ts:251-261 | a key left without a timer is never armed again by any run of polls, takeovers and stepdowns |
| `WaitTracker.SecondTermArmsOnlyUnseen` | packages/cli/src/wait-tracker.ts:70-109 | after a stepdown and a new takeover a polled execution has a timer if and only if it was not tracked at the stepdown |
| `WaitTracker.SecondTermStrands` | packages/cli/src/wait-tracker.ts:251-261 | a run from the start, over two terms, after which a polled execution has no timer |
| `WaitTracker.WaitTracker.StartTrackingExecutions` | packages/cli/src/wait-tracker.ts:70-80 | starts the interval and polls at once |
| `WaitTracker.WaitTracker.GetWaitingExecutions` | packages/cli/src/wait-tracker.ts:82-110 | the loop over the rows has the effect of the poll |
| `WaitTracker.WaitTracker.Stop` | packages/cli/src/wait-tracker.ts:112-118 | in a tidy state no timer for the execution remains |
| `WaitTracker.WaitTracker.StopTrackingExecutions` | packages/cli/src/wait-tracker.ts:251-261 | clears every tracked timer and keeps every key |
| `WaitTracker.WaitTracker.TimerElapsed` | packages/cli/src/wait-tracker.ts:104-122 | a timer that fires is gone and so is the key of its execution |
| `WaitTracker.WithRetry` | packages/cli/src/wait-tracker.ts:235-249 | stops at the first attempt that succeeds, fails for good or is the last allowed one; there is always a first; sleeps double from 100 ms |
| `WaitTracker.BackoffTotal` | packages/cli/src/wait-tracker.ts:246-246 | n failed attempts sleep 100 * (2^n - 1) ms in all |
| `ConcurrencyQueue.RunConserves` | packages/cli/src/concurrency/concurrency-queue.ts:21-54 | in every run the counter is the limit less the admitted less the waiting executions |
| `ConcurrencyQueue.LimitHoldsIff` | packages/cli/src/concurrency/concurrency-queue.ts:44-54 | the limit holds all along a run if and only if no removal hits one of several waiting executions |
| `ConcurrencyQueue.RemovalExceedsLimit` | packages/cli/src/concurrency/concurrency-queue.ts:44-54 | a run with a limit of one after which two executions are admitted |
| `ConcurrencyQueue.StepCapped` | packages/cli/src/concurrency/concurrency-queue.ts:38-74 | the one step that exceeds the limit exceeds it by one; all others also keep that nobody waits while a slot is free |
| `Throttling.LimitHoldsExactly` | packages/cli/src/concurrency/concurrency-control.service.ts:173-198 | from the start of a process, no more adds and runs of limited modes than the limit are let through and not finished, in every state of a run, if and only if no throttled execution is removed while another one is throttled |
| `Throttling.RemovalLetsTwoThrough` | packages/cli/src/concurrency/concurrency-control.service.ts:193-198 | the same as a run of adds from the start of a process |
| `Throttling.TakeKeepsInv` | packages/cli/src/active-executions.ts:104-141 | every step keeps: the queue's account is, execution by execution, that of the adds and runs let through, and the queue holds the waiting adds in order and once each |
| `Throttling.PassedOnInOrder` | packages/cli/src/concurrency/concurrency-capacity-reservation.ts:30-36 | what a failed add or settled run gives back goes to the add that has waited longest and to nobody else; one that held nothing gives nothing back |
| `Throttling.AskExactly` | packages/cli/src/concurrency/concurrency-queue.ts:21-32 | while the limit holds, an add that asks is let through at once if and only if fewer than the limit are, and otherwise goes to the end of the line |
| `Throttling.OneCount` | packages/cli/src/active-executions.ts:68-141 | the slots of the registry and the executions let through but not gone on yet add up to what the queue counts as running |
| `ConcurrencyQueue.ConcurrencyQueue.Enqueue` | packages/cli/src/concurrency/concurrency-queue.ts:21-32 | admits at once if capacity is left, and otherwise appends to the end of the queue |
| `ConcurrencyQueue.ConcurrencyQueue.Dequeue` | packages/cli/src/concurrency/concurrency-queue.ts:38-42 | gives a slot back and admits the longest waiting execution |
| `ConcurrencyQueue.ConcurrencyQueue.Remove` | packages/cli/src/concurrency/concurrency-queue.ts:44-54 | takes out the first match and then admits the first of the others; changes nothing without a match |
| `CredentialTypes.GetParentTypes` | packages/cli/src/credential-types.ts:26-38 | on every acyclic graph it ends, and lists exactly the proper ancestors, none before every type that leads to it |
| `CredentialTypes.CollectParentTypes` | packages/cli/src/credential-types.ts:31-35 | the loop that appends to the list it walks, with the measure that shows it ends and a bound on its length |
| `CredentialTypes.NearestFirst` | packages/cli/src/credential-types.ts:26-38 | with single parents every type between a listed ancestor and the start is listed before that ancestor |
| `CredentialTypes.ChainComparable` | packages/cli/src/credential-types.ts:26-38 | with single parents the ancestors of a type form one chain |
| `CredentialTypes.RankDecreases` | packages/cli/src/credential-types.ts:33-35 | on acyclic graphs a parent has strictly fewer ancestors than its child |
| `CredentialsOverwrites.FlattenedAnswers` | packages/cli/src/credentials-overwrites.ts:102-115 | on every acyclic graph and for any key order, what `get` reads from the flattened entries is, field by field, a nearest setter's raw value, with no field lost |
| `CredentialsOverwrites.FlattenSound` | packages/cli/src/credentials-overwrites.ts:102-115 | raw, partly or fully merged, every stored entry keeps its own keys and holds only nearest raw values |
| `CredentialsOverwrites.OverwritesSound` | packages/cli/src/credentials-overwrites.ts:177-207 | a resolution against such entries, whatever the cache of resolved types says, yields only nearest values |
| `CredentialsOverwrites.FirstResolutionComplete` | packages/cli/src/credentials-overwrites.ts:188-206 | on a single-parent chain of known types not resolved yet, the resolution is fully merged |
| `CredentialsOverwrites.SingleParentUnambiguous` | packages/cli/src/credentials-overwrites.ts:196-198 | with single parents a field has at most one nearest value |
| `CredentialsOverwrites.AnswerUnique` | packages/cli/src/credentials-overwrites.ts:209-222 | if no field has two nearest values there is only one possible answer, so key order cannot matter |
| `KeyOrder.OrderMattersExactly` | packages/cli/src/credentials-overwrites.ts:102-115 | on a type with two parents and a type extending it, for all overwrites: all key orders read alike if and only if not both of the latter have overwrites while the parents conflict in a field the type leaves alone |
| `KeyOrder.FlattenProfile` | packages/cli/src/credentials-overwrites.ts:177-207 | for all orders and overwrites: the type's entry is stored merged if it is visited before anything has resolved it, and stays raw otherwise |
| `KeyOrder.KeyOrderMatters` | packages/cli/src/credentials-overwrites.ts:102-115 | flattened in two complete key orders, the same overwrites read 2 and 1 |
| `KeyOrder.AmbiguousButStable` | packages/cli/src/credentials-overwrites.ts:209-222 | overwrites with an ambiguous field that all key orders read alike |
| `CredentialsOverwrites.ReloadStable` | packages/cli/src/credentials-overwrites.ts:56-95 | any number of reloads of persisted flattened data, in any key orders, keeps all keys and nearest values |
| `CredentialsOverwrites.GetStableUnderReload` | packages/cli/src/credentials-overwrites.ts:117-130 | what `get` answers after the last reload is what it answered after the first load |
| `CredentialsOverwrites.Applied` | packages/cli/src/credentials-overwrites.ts:139-175 | field by field: exactly the absent, null and empty fields are filled and all others kept, except that data of a skip-list type is left alone if a field holds something other than its overwrite |
| `CredentialsOverwrites.AppliedIdempotent` | packages/cli/src/credentials-overwrites.ts:139-175 | applying the overwrites twice is applying them once |
| `CredentialsOverwrites.CredentialsOverwrites.GetOverwrites` | packages/cli/src/credentials-overwrites.ts:177-207 | the recursive method with its growing cache computes the resolution the theorems are about; a resolved type answers with its stored entry, an unknown one with nothing, and own fields win over inherited ones |
| `CredentialsOverwrites.CredentialsOverwrites.SetPlainData` | packages/cli/src/credentials-overwrites.ts:102-115 | flattens the caller's own object in place, keeps a reference to it, and leaves only entries that soundly reflect the raw ones |
| `CredentialsOverwrites.CredentialsOverwrites.SetData` | packages/cli/src/credentials-overwrites.ts:117-130 | what is persisted is the object after flattening |
| `CredentialsOverwrites.CredentialsOverwrites.Get` | packages/cli/src/credentials-overwrites.ts:209-222 | whichever raw overwrites the stored entries soundly reflect, the answer is the one those call for |
| `CredentialsOverwrites.CredentialsOverwrites.ApplyOverwrite` | packages/cli/src/credentials-overwrites.ts:139-175 | the same of an answer of get: without one the data is returned as it is, otherwise the empty fields and no others get their overwrites, all or, for a customized skip-list credential, none |
| `ReplaceCredentials.AgreesExactly` | packages/cli/src/workflow-helpers.ts:264-380 | the cached loop finds what a resolver without caches finds, up to how an unresolved name is written, if and only if no unresolvable reference is followed by the same missing id under another name |
| `ReplaceCredentials.Idempotent` | packages/cli/src/workflow-helpers.ts:278-377 | repairing a repaired workflow against the same database changes nothing, for all workflows |
| `ReplaceCredentials.EachNameQueriedOnce` | packages/cli/src/workflow-helpers.ts:293-325 | every type and name of an old-style reference is queried exactly once |
| `ReplaceCredentials.NodesShareCaches` | packages/cli/src/workflow-helpers.ts:271-287 | nodes are repaired as one sequence of references; disabled nodes are untouched and no slot is added or dropped |
| `ReplaceCredentials.MissingIdCached` | packages/cli/src/workflow-helpers.ts:350-371 | a missing id is cached once an unresolvable reference to it was seen, and as one of those |
| `ReplaceCredentials.RenamedMissingIdIsLost` | packages/cli/src/workflow-helpers.ts:368-375 | an input where a reference that its name would resolve gets a dead record instead |
| `ReplaceCredentials.UniqueByNameExactly` | packages/cli/src/workflow-helpers.ts:305-311 | a name stands for a credential if and only if that one alone has the name and type in the project, and for none if and only if no credential does so alone |
| `ReplaceCredentials.ResolvesExactly` | packages/cli/src/workflow-helpers.ts:332-363 | a reference comes to stand for the credential with its id and type, or, if no credential has them, for the only one of its name and type in the project |
| `ReplaceCredentials.StaysAsItIs` | packages/cli/src/workflow-helpers.ts:284-329 | a reference stays as it is if it is absent or managed, or has no credential with its id and none or several with its name |
| `ReplaceCredentials.ReplaceInvalidCredentials` | packages/cli/src/workflow-helpers.ts:264-380 | the nested loops over the nodes in place compute the repair the theorems are about; disabled nodes, types of references, and absent or managed references are left as they were |
| `ReplaceCredentials.ReplaceSlot` | packages/cli/src/workflow-helpers.ts:284-376 | the branches for one reference compute the repair step the theorems are about |
| `NodeGroups.ValidateWorkflowNodeGroups` | packages/cli/src/workflow-helpers.ts:146-178 | accepts if and only if names are distinct, listed ids exist and an id is listed again only after a group with the empty name; every complaint is justified by the workflow |
| `NodeGroups.AcceptableExactly` | packages/cli/src/workflow-helpers.ts:146-178 | that condition group by group and id by id: names differ, every listed id is that of a node and not empty, and of two listings of one id the earlier is by a group with the empty name |
| `NodeGroups.ListNode` | packages/cli/src/workflow-helpers.ts:161-176 | the checks on one listed id |
| `NodeGroups.NamedGroups` | packages/cli/src/workflow-helpers.ts:140-146 | if no group has the empty name, that is: distinct names, existing ids, each id listed once |
| `NodeGroups.UnnamedGroupSharesNode` | packages/cli/src/workflow-helpers.ts:169-175 | a workflow that passes although one node is in two groups |
| `Webhooks.OthersUntouched` | packages/cli/src/active-workflow-manager.ts:156-223 | whatever fails at whichever webhook, the table has the same rows of other workflows afterwards as before |
| `Webhooks.RolledBackExactly` | packages/cli/src/active-workflow-manager.ts:188-225 | after an error no row of the workflow is left if and only if some webhook ended the call and the rollback worked, or the workflow had no row and no webhook got one first; all told from the arguments |
| `Webhooks.StrictRollback` | packages/cli/src/active-workflow-manager.ts:201-221 | in an ordinary activation with a working rollback: if and only if some webhook ended the call, by its path, a failed write or its own methods |
| `Webhooks.FailsExactly` | packages/cli/src/active-workflow-manager.ts:181-231 | the call throws if and only if some webhook ends it or the static data cannot be saved; the error is that of the first webhook to end it, a failed query being taken for a taken path |
| `Webhooks.UnsavedStaysRegistered` | packages/cli/src/active-workflow-manager.ts:225-225 | an input where the call throws with its webhook registered |
| `Webhooks.RegistersExactly` | packages/cli/src/webhooks/webhook.service.ts:132-157 | if nothing fails, all rows are written if no path belongs to another workflow, and otherwise the call is refused, in every activation mode |
| `Webhooks.SuccessRegistersAll` | packages/cli/src/active-workflow-manager.ts:156-231 | outside start-up and takeover, success means every webhook is stored and no path was stolen, whichever writes failed on the way |
| `Webhooks.SuccessHoldsAll` | packages/cli/src/active-workflow-manager.ts:156-231 | then under every webhook's path, without its outer slashes, and method there is a row of the workflow, with the node of the last webhook on it |
| `Webhooks.RegisteringAgain` | packages/cli/src/webhooks/webhook.service.ts:151-156 | registering the same webhooks again succeeds and changes nothing |
| `Webhooks.LenientSuccess` | packages/cli/src/active-workflow-manager.ts:189-199 | on start-up and takeover the call succeeds if and only if every webhook is fine or fails with a query error, and has then written exactly the rows of those that did not fail before the write |
| `Webhooks.LenientSkips` | packages/cli/src/active-workflow-manager.ts:189-199 | an input where it succeeds with a webhook missing |
| `Webhooks.WebhookRegistry.TryWebhook` | packages/cli/src/active-workflow-manager.ts:181-187 | the node's own webhook methods run only after the row is stored, and the row stays if they fail |
| `Webhooks.WebhookRegistry.RegisterWebhooks` | packages/cli/src/active-workflow-manager.ts:156-223 | the loop with its skipped errors and early exit computes the registration of the webhooks |
| `Webhooks.TrimsOneSlash` | packages/cli/src/active-workflow-manager.ts:169-174 | one slash is taken away at the start and one at the end of a path, where there is one, and nothing else |
| `Webhooks.WebhookRegistry.StoreWebhook` | packages/cli/src/webhooks/webhook.service.ts:132-157 | insert, or refresh a row of the same workflow, or refuse |
| `Webhooks.WebhookRegistry.AddWebhooks` | packages/cli/src/active-workflow-manager.ts:156-232 | the call computes the registration the theorems are about; rows of other workflows are the same afterwards, a success outside start-up and takeover has every webhook in the table, and an error other than in saving, with a working rollback, leaves no row of the workflow |
| `Webhooks.WebhookRegistry.ClearWebhooks` | packages/cli/src/active-workflow-manager.ts:238-275 | keeps exactly the rows of other workflows, as they were; removes nothing if the workflow or its active version is missing, or deregistering or the deletion fails |
| `ActivationQueue.OnePendingTimer` | packages/cli/src/active-workflow-manager.ts:806-868 | in undisturbed runs every queued workflow has exactly one timer, or none while its retry is in flight, with the backoff as its delay |
| `ActivationQueue.TimeoutIsBackoff` | packages/cli/src/active-workflow-manager.ts:820-840 | in every run the timeout of a queued workflow is min(1000 * 2^k, 86400000) for its k failures since it was queued that are not isolate errors |
| `ActivationQueue.CappedAtSeventeen` | packages/cli/src/constants.ts:90-91 | the cap is reached with the seventeenth failure and never earlier |
| `ActivationQueue.HealthyExactly` | packages/cli/src/active-workflow-manager.ts:806-877 | one timer a workflow is kept by a step if and only if it does not queue or remove a workflow whose retry is in flight and is not a skipped retry |
| `ActivationQueue.RequeuedDuringRetry` | packages/cli/src/active-workflow-manager.ts:838-857 | a run after which one workflow has two timers, of which only one can be cancelled |
| `ActivationQueue.ActivationQueue.AddQueuedWorkflowActivation` | packages/cli/src/active-workflow-manager.ts:806-858 | replaces the entry of the workflow and arms the initial timeout |
| `ActivationQueue.ActivationQueue.RemoveAllQueuedWorkflowActivations` | packages/cli/src/active-workflow-manager.ts:873-877 | empties the queue and clears exactly the timers of its entries |
| `ActivationQueue.ActivationQueue.RetryEnds` | packages/cli/src/active-workflow-manager.ts:813-846 | the four ways a retry ends |
| `ActivationQueue.RetriedExactly` | packages/cli/src/active-workflow-manager.ts:813-846 | a retry is followed by another if and only if it fails with its workflow still in the queue |
| `ActivationQueue.OtherEndsAreFinal` | packages/cli/src/active-workflow-manager.ts:654-665 | after any other end the workflow has no timer or retry in any later run until it is queued anew, and no entry unless the retry was skipped |
| `ActivationQueue.LateFailureAndSkipReached` | packages/cli/src/active-workflow-manager.ts:538-571 | an undisturbed run in which a retry may fail late or be skipped, with what that leaves |
| `LeaderTriggers.OnlyTheLeaderTriggers` | packages/cli/src/active-workflow-manager.ts:490-500 | in runs of any number of mains in which at each takeover no other main leads or has removals pending, and no trigger outlives leadership: at most one leads, no other main holds a trigger while it does, and no workflow is triggered by two mains |
| `LeaderTriggers.OrderlyExactly` | packages/cli/src/active-workflow-manager.ts:543-561 | a step keeps that order if and only if it is no takeover beside a leader or pending removals, and lets no trigger outlive leadership |
| `LeaderTriggers.LeaseIsExclusive` | packages/cli/src/scaling/multi-main-setup.ee.ts:118-205 | in every run of any number of mains in which the key does not expire, the main that holds it keeps leading and no other takes over |
| `LeaderTriggers.AccountedExactly` | packages/cli/src/active-workflow-manager.ts:640-647 | on one main, triggers outlive leadership exactly by an activation that straddles the stepdown or a removal loop that is cut short |
| `LeaderTriggers.LeaderHoldsExactly` | packages/core/src/execution-engine/active-workflow-triggers.ts:321-366 | triggers once added survive all along a leadership term if and only if they do not fail, are not deactivated, and no removal left over from an earlier stepdown hits them, which it can only where one was still pending |
| `LeaderTriggers.FailedTriggerStaysQueued` | packages/cli/src/active-workflow-manager.ts:352-375 | a trigger that fails while its workflow is not being activated is off, and the workflow queued, all along every run until the leader steps down, the workflow is deactivated or an activation of it begins |
| `LeaderTriggers.StaleRemovalTakesTrigger` | packages/core/src/execution-engine/active-workflow-triggers.ts:347-361 | a run after which a main leads without a trigger it has added in this term |
| `LeaderTriggers.OrphanStays` | packages/cli/src/active-workflow-manager.ts:924-929 | a trigger left on a follower stays until that main leads again or the trigger fails; deactivation does not reach it |
| `LeaderTriggers.StraddlingAddDuplicates` | packages/cli/src/active-workflow-manager.ts:560-646 | a run from fresh mains, clean but for the end of a straddling activation, after which two mains hold the triggers of one workflow |
| `LeaderTriggers.ExpiredKeyMakesTwoLeaders` | packages/cli/src/scaling/multi-main-setup.ee.ts:118-163 | a key that expires before its holder notices lets a second main lead |
| `LeaderTriggers.MainInstance.StepDownToFollower` | packages/cli/src/active-workflow-manager.ts:495-499 | the list of triggers to remove is fixed when the stepdown begins, and the retry queue is emptied |
| `LeaderTriggers.MainInstance.RemoveAllNonWebhookTriggerWorkflows` | packages/core/src/execution-engine/active-workflow-triggers.ts:347-361 | undisturbed, the removal loop leaves an accounted follower without triggers |
| `LeaderTriggers.MainInstance.StartAdd` | packages/cli/src/active-workflow-manager.ts:560-561 | the leader flag is read once, at the start of an activation |
| `LeaderTriggers.MainInstance.EndAdd` | packages/cli/src/active-workflow-manager.ts:640-655 | the flag as read then decides whether triggers are added at the end |
| `LeaderTriggers.MainInstance.OnTriggerFailure` | packages/cli/src/active-workflow-manager.ts:352-375 | a failing trigger is removed and its workflow queued |
| `LeaderTriggers.MainInstance.HandleDeactivation` | packages/cli/src/active-workflow-manager.ts:914-930 | removes the triggers, and the queued retry only outside a multi-main setup |
| `Deadlines.ChainKeepsEarliest` | packages/cli/src/workflow-execute-additional-data.ts:211-256 | along a chain of waited-for sub-workflows the deadline is the earliest of all limits on it, and absent exactly when there is none |
| `Deadlines.DeadlinesOnlyTighten` | packages/cli/src/workflow-execute-additional-data.ts:504-510 | further down such a chain a deadline never disappears and never moves later |
| `Deadlines.DetachedStartsAfresh` | packages/cli/src/workflow-execute-additional-data.ts:249-251 | a sub-workflow nobody waits for is limited by nothing above it |
| `Deadlines.SameDeadlineExactly` | packages/cli/src/workflow-runner.ts:346-373 | a sub-workflow's own deadline is the one a main process would compute if and only if the maximum timeout is positive or no timeout is asked for |
| `Deadlines.RunMainProcessTimeouts` | packages/cli/src/workflow-runner.ts:438-460 | with a timeout of T seconds under the cap, the stop is due at recorded start + T * 1000, at once if that is past, and T * 1000 from now without a recorded start; the soft deadline is T * 1000 from now; without a timeout or without a cap there is neither |
| `Deadlines.LatestEnds` | packages/cli/src/workflow-runner.ts:438-460 | however often an execution waits, every stretch resumed in time by the wait tracker has the same latest end, recorded start + timeout: waits neither lengthen nor shorten the budget |
| `Deadlines.StoppedAfterTimeoutExactly` | packages/cli/src/workflow-runner.ts:438-460 | such an execution is at its forced stop if and only if it has run and waited for exactly its timeout since the recorded start |
| `Deadlines.RunningIsBounded` | packages/cli/src/workflow-runner.ts:438-460 | over any number of waits an execution runs at most its timeout in all, plus one timeout for each resume by webhook; resumed too late by the wait tracker it does not run |
| `Deadlines.WebhookResumesExtendTheBudget` | packages/cli/src/webhooks/webhook-helpers.ts:667-676 | that bound is met: n resumes by webhook can run n + 1 times the timeout |
| `Deadlines.SoftDeadlineMoves` | packages/cli/src/workflow-runner.ts:369-375 | the soft deadline is never before the forced stop, and the same if and only if the start or resume carries no recorded start or happens at that very start |

## Left out

- The workflow engine, lifecycle hooks, queue-mode workers, logging, telemetry, push messages and streaming: calls into them are steps that may happen or fail.
- `checkProcessedItemsAndRecord` of the data deduplication service: its facts are easy ones.
- Response promises and abort handling of active executions: they decide nothing about the map, the slots or the rows.
- The contents of execution data other than the first stack entry, and how the last executed node's output is picked: a child's report is an input.
- Keys of JavaScript objects that name members of `Object.prototype`, and overwrite entries that are null instead of objects.
- `packages/cli/src/workflow-helpers.ts:335`: a credential record without an `id` field, which is neither null nor a string.
- Deep copies and object identity inside overwrite values: fields hold primitive values.
- `WaitTracker.WithRetry`: the operation is a list of outcomes; what it does is modelled in `ParentResume`.
- `CredentialsOverwrites.AnswerUnique`: the exact condition for the key order to matter is given for one family of types (`KeyOrder.OrderMattersExactly`), not for every graph: there it depends, type by type, on which entries below a conflict get stored before which others are resolved.
- Retries in `ParentResume` are not limited to three, and may fail in any way: its theorems hold for all of them.
- Webhook columns for dynamic paths, the webhook cache, and other writers of the webhook table between two steps of one registration.
- `Webhooks.WebhookRegistry.ClearWebhooks`: what deregistering does at external services is not modelled, only whether it fails.
- `Throttling`: the evaluation queue, an unset production limit and what follows the switch-off at shutdown; a removed execution's add simply never goes on.
- `ActivationQueue.ActivationQueue.RetryEnds`: a late failure is one step; a workflow queued anew between the removal and the failure is covered by the separate steps `Remove`, `Add` and a failed retry.
- `LeaderTriggers`: a workflow that is added is taken to have non-webhook triggers, and its triggers are added in one step.
- `CredentialTypes.GetParentTypes`: on a cyclic graph the source does not end; the contract asks for an acyclic one.
- Clamping of timer delays by the runtime, and timers that fire late.
