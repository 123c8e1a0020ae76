/**
 * Finished children race to write their result into a waiting parent and to resume it. Every read,
 * write and compare-and-set on the parent's row is a step of its own, so the steps of any number of
 * children, and of other resumers, interleave freely; each may also fail, be retried or be dropped.
 */
module ParentResume {
  import opened Wrappers

  type ChildId = nat
  type ErrorValue = string
  type Items = string

  /** The parts of a node-execution-stack entry a child's result can change. */
  datatype Entry = Entry(node: string, data: Items, resumeError: Option<ErrorValue>, subExecution: Option<ChildId>)

  /** What a finished child run reports: its error, the output of its last executed node, and the link to
      itself, which the caller may leave out. */
  datatype Report = Report(error: Option<ErrorValue>, output: Option<Items>, link: Option<ChildId>)

  type Reports = map<ChildId, Report>

  predicate HasResult(r: Report) {
    r.error.Some? || r.output.Some?
  }

  function PatchEntry(e: Entry, r: Report): Entry {
    if r.error.Some? then e.(resumeError := r.error, subExecution := if r.link.Some? then r.link else e.subExecution)
    else if r.output.Some? then e.(data := r.output.value)
    else e
  }

  function Patch(stack: seq<Entry>, r: Report): seq<Entry> {
    if |stack| == 0 then stack else stack[0 := PatchEntry(stack[0], r)]
  }

  /** The update of the stack in the document that was read from the database. */
  method PatchInPlace(stack: array<Entry>, r: Report) returns (write: bool)
    modifies stack
    ensures write <==> HasResult(r) && stack.Length > 0
    ensures stack[..] == Patch(old(stack[..]), r)
    ensures write <==> (r.error.Some? || r.output.Some?) && stack.Length > 0
    ensures stack.Length > 0 ==>
              && stack[1..] == old(stack[1..]) && stack[0].node == old(stack[0].node)
              && stack[0].data == (if r.error.None? && r.output.Some? then r.output.value else old(stack[0].data))
              && stack[0].resumeError == (if r.error.Some? then r.error else old(stack[0].resumeError))
              && stack[0].subExecution == (if r.error.Some? && r.link.Some? then r.link else old(stack[0].subExecution))
  {
    if r.error.None? && r.output.None? {
      return false;
    }
    if stack.Length == 0 {
      return false;
    }
    if r.error.Some? {
      stack[0] := stack[0].(resumeError := r.error);
      if r.link.Some? {
        stack[0] := stack[0].(subExecution := r.link);
      }
    } else if r.output.Some? {
      stack[0] := stack[0].(data := r.output.value);
    }
    return true;
  }

  // ---------------------------------------------------------------- Patched stacks

  predicate Reporters(reports: Reports, s: seq<ChildId>) {
    forall i :: 0 <= i < |s| ==> s[i] in reports && HasResult(reports[s[i]])
  }

  /** The children of `s` write their results one after the other. */
  function PatchAll(stack: seq<Entry>, reports: Reports, s: seq<ChildId>): seq<Entry>
    requires Reporters(reports, s)
  {
    if s == [] then stack
    else
      Patch(PatchAll(stack, reports, s[..|s| - 1]), reports[s[|s| - 1]])
  }

  function LastFailure(reports: Reports, s: seq<ChildId>): (r: Option<ChildId>)
    requires Reporters(reports, s)
    ensures r.Some? ==> r.value in s && reports[r.value].error.Some?
    ensures r.None? <==> forall c :: c in s ==> reports[c].error.None?
  {
    if s == [] then None
    else if reports[s[|s| - 1]].error.Some? then Some(s[|s| - 1])
    else
      assert s == s[..|s| - 1] + [s[|s| - 1]];
      LastFailure(reports, s[..|s| - 1])
  }

  function LastSuccess(reports: Reports, s: seq<ChildId>): (r: Option<ChildId>)
    requires Reporters(reports, s)
    ensures r.Some? ==> r.value in s && reports[r.value].error.None? && reports[r.value].output.Some?
    ensures r.None? <==> forall c :: c in s ==> reports[c].error.Some?
  {
    if s == [] then None
    else if reports[s[|s| - 1]].error.None? then Some(s[|s| - 1])
    else
      assert s == s[..|s| - 1] + [s[|s| - 1]];
      LastSuccess(reports, s[..|s| - 1])
  }

  /** The link of the last failure that has one. */
  function LastLink(reports: Reports, s: seq<ChildId>): (r: Option<ChildId>)
    requires Reporters(reports, s)
    ensures r.Some? ==> exists c :: c in s && reports[c].error.Some? && reports[c].link == r
    ensures var c := LastFailure(reports, s);
            c.Some? && reports[c.value].link.Some? ==> r == reports[c.value].link
  {
    if s == [] then None
    else if reports[s[|s| - 1]].error.Some? && reports[s[|s| - 1]].link.Some? then
      assert s[|s| - 1] in s;
      reports[s[|s| - 1]].link
    else
      assert s == s[..|s| - 1] + [s[|s| - 1]];
      LastLink(reports, s[..|s| - 1])
  }

  /** The entry the Execute Workflow node resumes with: an error, once written, outlives every later
      success; the output is the last success's; nothing else of the stack changes. */
  lemma {:induction false} PatchedEntry(stack: seq<Entry>, reports: Reports, s: seq<ChildId>)
    requires |stack| > 0 && Reporters(reports, s)
    ensures |PatchAll(stack, reports, s)| == |stack| && PatchAll(stack, reports, s)[1..] == stack[1..]
    ensures var failed, done, link := LastFailure(reports, s), LastSuccess(reports, s), LastLink(reports, s);
            PatchAll(stack, reports, s)[0]
            == Entry(stack[0].node,
                     if done.Some? then reports[done.value].output.value else stack[0].data,
                     if failed.Some? then reports[failed.value].error else stack[0].resumeError,
                     if link.Some? then link else stack[0].subExecution)
  {
    if s != [] {
      PatchedEntry(stack, reports, s[..|s| - 1]);
    }
  }

  /** A parent entry that some child has reported to. */
  ghost predicate CarriesResult(e: Entry, reports: Reports) {
    exists c :: c in reports && HasResult(reports[c])
                && (if reports[c].error.Some? then
                      e.resumeError == reports[c].error && (reports[c].link.Some? ==> e.subExecution == reports[c].link)
                    else Some(e.data) == reports[c].output)
  }

  lemma PatchedCarriesResult(stack: seq<Entry>, reports: Reports, s: seq<ChildId>)
    requires |stack| > 0 && |s| > 0 && Reporters(reports, s)
    ensures |PatchAll(stack, reports, s)| > 0 && CarriesResult(PatchAll(stack, reports, s)[0], reports)
  {
    PatchedEntry(stack, reports, s);
    assert s[0] in s;
    var failed, done := LastFailure(reports, s), LastSuccess(reports, s);
    assert failed.Some? || done.Some?;
  }

  // ---------------------------------------------------------------- The race

  /** `touched` records whether a child has written the stack since the parent began to wait. */
  datatype Row = Row(waiting: bool, stack: seq<Entry>, touched: bool)

  datatype ChildState =
    | Finished
    | Writing(read: seq<Entry>)
    | Updated
    | Loaded(row: Row)
    | Done

  datatype Resume = Resume(winner: Option<ChildId>, row: Row)

  /** `original` is the stack the parent went to wait with. */
  datatype World = World(original: seq<Entry>, row: Row, children: map<ChildId, ChildState>,
                         others: map<nat, Row>, resumed: Option<Resume>)

  datatype Step =
    | ReadForUpdate(c: ChildId)
    | Write(c: ChildId)
    | WriteThenRetry(c: ChildId)
    | RetryUpdate(c: ChildId)
    | Load(c: ChildId)
    | RetryLoad(c: ChildId)
    | CompareAndSet(c: ChildId)
    | GiveUp(c: ChildId)
    | OtherLoad(e: nat)
    | OtherCompareAndSet(e: nat)
    | SaveProgress(stack: seq<Entry>)
    | WaitAgain(stack: seq<Entry>)

  function Init(original: seq<Entry>, reports: Reports): World {
    World(original, Row(true, original, false), map c | c in reports :: Finished, map[], None)
  }

  predicate CanTake(w: World, s: Step) {
    match s
    case ReadForUpdate(c) => c in w.children && w.children[c].Finished?
    case Write(c) => c in w.children && w.children[c].Writing?
    case WriteThenRetry(c) => c in w.children && w.children[c].Writing?
    case RetryUpdate(c) => c in w.children && w.children[c].Writing?
    case Load(c) => c in w.children && w.children[c].Updated?
    case RetryLoad(c) => c in w.children && w.children[c].Loaded?
    case CompareAndSet(c) => c in w.children && w.children[c].Loaded?
    case GiveUp(c) => c in w.children
    case OtherLoad(e) => true
    case OtherCompareAndSet(e) => e in w.others
    case SaveProgress(_) => !w.row.waiting
    case WaitAgain(_) => !w.row.waiting
  }

  function Put(w: World, c: ChildId, state: ChildState): World {
    w.(children := w.children[c := state])
  }

  function WriteRow(w: World, read: seq<Entry>, r: Report): World {
    w.(row := w.row.(stack := Patch(read, r), touched := true))
  }

  /** The winner runs the document it loaded, and its compare-and-set writes that document back. */
  function Win(w: World, winner: Option<ChildId>, loaded: Row): World {
    if w.row.waiting then w.(row := loaded.(waiting := false), resumed := Some(Resume(winner, loaded))) else w
  }

  function Take(w: World, reports: Reports, s: Step): World
    requires w.children.Keys <= reports.Keys && CanTake(w, s)
  {
    match s
    case ReadForUpdate(c) =>
      if HasResult(reports[c]) && w.row.waiting && |w.row.stack| > 0 then Put(w, c, Writing(w.row.stack))
      else Put(w, c, Updated)
    case Write(c) => Put(WriteRow(w, w.children[c].read, reports[c]), c, Updated)
    case WriteThenRetry(c) => Put(WriteRow(w, w.children[c].read, reports[c]), c, Finished)
    case RetryUpdate(c) => Put(w, c, Finished)
    case Load(c) => Put(w, c, Loaded(w.row))
    case RetryLoad(c) => Put(w, c, Updated)
    case CompareAndSet(c) => Put(Win(w, Some(c), w.children[c].row), c, Done)
    case GiveUp(c) => Put(w, c, Done)
    case OtherLoad(e) => w.(others := w.others[e := w.row])
    case OtherCompareAndSet(e) => Win(w, None, w.others[e])
    case SaveProgress(stack) => w.(row := w.row.(stack := stack))
    case WaitAgain(stack) => w.(original := stack, row := Row(true, stack, false), resumed := None)
  }

  // ---------------------------------------------------------------- What holds in every reachable state

  /** The stack is the original with the results of some children written into it, none if untouched. */
  ghost predicate Built(original: seq<Entry>, reports: Reports, stack: seq<Entry>, touched: bool) {
    exists s :: BuiltBy(original, reports, stack, touched, s)
  }

  predicate BuiltBy(original: seq<Entry>, reports: Reports, stack: seq<Entry>, touched: bool, s: seq<ChildId>) {
    Reporters(reports, s) && (touched <==> |s| > 0) && stack == PatchAll(original, reports, s)
  }

  /** A child that has something to say to this parent. */
  predicate Speaks(original: seq<Entry>, reports: Reports, c: ChildId)
    requires c in reports
  {
    |original| > 0 && HasResult(reports[c])
  }

  ghost predicate ChildInv(w: World, reports: Reports, c: ChildId)
    requires c in w.children && c in reports
  {
    match w.children[c]
    case Finished => true
    case Writing(read) =>
      HasResult(reports[c]) && Built(w.original, reports, Patch(read, reports[c]), true)
    case Updated => w.row.waiting && Speaks(w.original, reports, c) ==> w.row.touched
    case Loaded(row) =>
      w.row.waiting ==>
        && Built(w.original, reports, row.stack, row.touched)
        && (Speaks(w.original, reports, c) ==> row.touched)
        && (row.touched ==> w.row.touched)
    case Done => true
  }

  ghost predicate ResumeInv(w: World, reports: Reports, r: Resume) {
    && Built(w.original, reports, r.row.stack, r.row.touched)
    && (r.winner.Some? ==> r.winner.value in reports && (Speaks(w.original, reports, r.winner.value) ==> r.row.touched))
  }

  ghost predicate Inv(w: World, reports: Reports) {
    && w.children.Keys == reports.Keys
    && (w.row.waiting ==> w.resumed.None? && Built(w.original, reports, w.row.stack, w.row.touched))
    && (forall c {:trigger ChildInv(w, reports, c)} :: c in w.children ==> ChildInv(w, reports, c))
    && (w.row.waiting ==>
          forall e :: e in w.others ==> Built(w.original, reports, w.others[e].stack, w.others[e].touched))
    && (w.resumed.Some? ==> ResumeInv(w, reports, w.resumed.value))
  }

  lemma InitInv(original: seq<Entry>, reports: Reports)
    ensures Inv(Init(original, reports), reports)
  {
    assert BuiltBy(original, reports, original, false, []);
  }

  lemma BuiltSize(original: seq<Entry>, reports: Reports, s: seq<ChildId>)
    requires Reporters(reports, s)
    ensures |PatchAll(original, reports, s)| == |original|
  {
  }

  lemma WriteBuilds(original: seq<Entry>, reports: Reports, read: seq<Entry>, touched: bool, c: ChildId)
    requires c in reports && HasResult(reports[c]) && Built(original, reports, read, touched)
    ensures Built(original, reports, Patch(read, reports[c]), true)
  {
    var s :| BuiltBy(original, reports, read, touched, s);
    assert (s + [c])[..|s|] == s;
    assert BuiltBy(original, reports, Patch(read, reports[c]), true, s + [c]);
  }

  lemma StepKeepsInv(w: World, reports: Reports, s: Step)
    requires Inv(w, reports) && CanTake(w, s) && !s.WaitAgain?
    ensures Inv(Take(w, reports, s), reports)
  {
    var w' := Take(w, reports, s);
    if s.ReadForUpdate? || s.Load? || s.Write? || s.WriteThenRetry? || s.CompareAndSet? {
      assert ChildInv(w, reports, s.c);
    }
    if s.ReadForUpdate? && w.row.waiting {
      var p :| BuiltBy(w.original, reports, w.row.stack, w.row.touched, p);
      BuiltSize(w.original, reports, p);
      if HasResult(reports[s.c]) {
        WriteBuilds(w.original, reports, w.row.stack, w.row.touched, s.c);
      }
    }
    forall c | c in w'.children
      ensures ChildInv(w', reports, c)
    {
      assert ChildInv(w, reports, c);
    }
  }

  ghost predicate Legal(w: World, reports: Reports, run: seq<Step>)
    requires w.children.Keys <= reports.Keys
    decreases |run|
  {
    run == []
    || (CanTake(w, run[0]) && Legal(Take(w, reports, run[0]), reports, run[1..]))
  }

  function Run(w: World, reports: Reports, run: seq<Step>): World
    requires w.children.Keys <= reports.Keys && Legal(w, reports, run)
    decreases |run|
  {
    if run == [] then w else Run(Take(w, reports, run[0]), reports, run[1..])
  }

  predicate OneEpisode(run: seq<Step>) {
    forall i :: 0 <= i < |run| ==> !run[i].WaitAgain?
  }

  // ---------------------------------------------------------------- From one wait to the next

  /** Nobody is in the middle of an update or a resume, save a child that has nothing to say. */
  predicate Quiet(w: World, reports: Reports)
    requires w.children.Keys <= reports.Keys
  {
    w.others == map[] && forall c :: c in w.children ==> ChildQuiet(w.children[c], reports[c])
  }

  predicate ChildQuiet(state: ChildState, r: Report) {
    state.Finished? || state.Done? || (state.Updated? && !HasResult(r))
  }

  lemma WaitKeepsInv(w: World, reports: Reports, stack: seq<Entry>)
    requires w.children.Keys == reports.Keys && Quiet(w, reports) && !w.row.waiting
    ensures Inv(Take(w, reports, WaitAgain(stack)), reports)
  {
    assert BuiltBy(stack, reports, stack, false, []);
    var w' := Take(w, reports, WaitAgain(stack));
    forall c | c in w'.children
      ensures ChildInv(w', reports, c)
    {
      assert ChildQuiet(w.children[c], reports[c]);
    }
  }

  /** Every wait of the run begins quietly. */
  predicate QuietWaits(w: World, reports: Reports, run: seq<Step>)
    requires w.children.Keys <= reports.Keys && Legal(w, reports, run)
    decreases |run|
  {
    run == []
    || ((run[0].WaitAgain? ==> Quiet(w, reports)) && QuietWaits(Take(w, reports, run[0]), reports, run[1..]))
  }

  lemma {:induction false} RunKeepsInv(w: World, reports: Reports, run: seq<Step>)
    requires Inv(w, reports) && Legal(w, reports, run) && QuietWaits(w, reports, run)
    ensures Inv(Run(w, reports, run), reports)
    decreases |run|
  {
    if run != [] {
      if run[0].WaitAgain? {
        WaitKeepsInv(w, reports, run[0].stack);
      } else {
        StepKeepsInv(w, reports, run[0]);
      }
      RunKeepsInv(Take(w, reports, run[0]), reports, run[1..]);
    }
  }

  lemma {:induction false} OneEpisodeIsQuiet(w: World, reports: Reports, run: seq<Step>)
    requires w.children.Keys <= reports.Keys && Legal(w, reports, run) && OneEpisode(run)
    ensures QuietWaits(w, reports, run) && Run(w, reports, run).original == w.original
    decreases |run|
  {
    if run != [] {
      OneEpisodeIsQuiet(Take(w, reports, run[0]), reports, run[1..]);
    }
  }

  /** Whoever has resumed the current wait runs a document built from this wait's stack, and a child that has
      something to say does so with some child's result in it. */
  ghost predicate SoundResume(w: World, reports: Reports) {
    w.resumed.Some? ==> ResumeInv(w, reports, w.resumed.value)
  }

  /** Whatever stack the parent waits with next, and whatever happens until the wait after that. */
  ghost predicate NextWaitSafe(w: World, reports: Reports)
    requires w.children.Keys <= reports.Keys && !w.row.waiting
  {
    forall stack, run | Legal(Take(w, reports, WaitAgain(stack)), reports, run) && OneEpisode(run) ::
      SoundResume(Run(Take(w, reports, WaitAgain(stack)), reports, run), reports)
  }

  /** The next wait is safe exactly if it begins quietly: one child or resumer left half-way is enough to have
      the parent run a stale document, or its own input, in some run. */
  lemma NextWaitSafeExactly(w: World, reports: Reports)
    requires w.children.Keys == reports.Keys && !w.row.waiting
    ensures NextWaitSafe(w, reports) <==> Quiet(w, reports)
  {
    if Quiet(w, reports) {
      forall stack, run | Legal(Take(w, reports, WaitAgain(stack)), reports, run) && OneEpisode(run)
        ensures SoundResume(Run(Take(w, reports, WaitAgain(stack)), reports, run), reports)
      {
        WaitKeepsInv(w, reports, stack);
        OneEpisodeIsQuiet(Take(w, reports, WaitAgain(stack)), reports, run);
        RunKeepsInv(Take(w, reports, WaitAgain(stack)), reports, run);
      }
    } else if w.others != map[] {
      var e :| e in w.others;
      StaleResumerWins(w, reports, e);
    } else {
      var c :| c in w.children && !ChildQuiet(w.children[c], reports[c]);
      match w.children[c]
      case Writing(_) => StaleWriterWins(w, reports, c);
      case Updated => UnheardChildWins(w, reports, c);
      case Loaded(_) => StaleLoaderWins(w, reports, c);
    }
  }

  const ENTRY := Entry("node", "in", None, None)

  /** A stack no patch of `stack` can be built from. */
  function Unlike(stack: seq<Entry>): (r: seq<Entry>)
    ensures |r| != |stack|
  {
    if |stack| == 1 then [] else [ENTRY]
  }

  lemma NotBuilt(original: seq<Entry>, reports: Reports, stack: seq<Entry>, touched: bool)
    requires |original| != |stack|
    ensures !Built(original, reports, stack, touched)
  {
    forall s | Reporters(reports, s)
      ensures |PatchAll(original, reports, s)| == |original|
    {
      BuiltSize(original, reports, s);
    }
  }

  lemma OneStepRun(w: World, reports: Reports, s: Step)
    requires w.children.Keys <= reports.Keys && CanTake(w, s)
    ensures Legal(w, reports, [s]) && Run(w, reports, [s]) == Take(w, reports, s)
  {
    assert [s][1..] == [];
    assert Legal(Take(w, reports, s), reports, [s][1..]);
  }

  lemma BreaksNextWait(w: World, reports: Reports, stack: seq<Entry>, run: seq<Step>)
    requires w.children.Keys <= reports.Keys && !w.row.waiting
    requires Legal(Take(w, reports, WaitAgain(stack)), reports, run) && OneEpisode(run)
    requires !SoundResume(Run(Take(w, reports, WaitAgain(stack)), reports, run), reports)
    ensures !NextWaitSafe(w, reports)
  {
  }

  lemma StaleResumerWins(w: World, reports: Reports, e: nat)
    requires w.children.Keys == reports.Keys && !w.row.waiting && e in w.others
    ensures !NextWaitSafe(w, reports)
  {
    var stack := Unlike(w.others[e].stack);
    var w1 := Take(w, reports, WaitAgain(stack));
    OneStepRun(w1, reports, OtherCompareAndSet(e));
    NotBuilt(stack, reports, w.others[e].stack, w.others[e].touched);
    BreaksNextWait(w, reports, stack, [OtherCompareAndSet(e)]);
  }

  lemma StaleLoaderWins(w: World, reports: Reports, c: ChildId)
    requires w.children.Keys == reports.Keys && !w.row.waiting && c in w.children && w.children[c].Loaded?
    ensures !NextWaitSafe(w, reports)
  {
    var row := w.children[c].row;
    var w1 := Take(w, reports, WaitAgain(Unlike(row.stack)));
    OneStepRun(w1, reports, CompareAndSet(c));
    NotBuilt(Unlike(row.stack), reports, row.stack, row.touched);
    BreaksNextWait(w, reports, Unlike(row.stack), [CompareAndSet(c)]);
  }

  lemma UnheardChildWins(w: World, reports: Reports, c: ChildId)
    requires w.children.Keys == reports.Keys && !w.row.waiting && c in w.children && w.children[c].Updated?
    requires HasResult(reports[c])
    ensures !NextWaitSafe(w, reports)
  {
    var w1 := Take(w, reports, WaitAgain([ENTRY]));
    var w2 := Take(w1, reports, Load(c));
    OneStepRun(w2, reports, CompareAndSet(c));
    StepThen(w1, reports, Load(c), [CompareAndSet(c)]);
    var run := [Load(c)] + [CompareAndSet(c)];
    assert Run(w1, reports, run).resumed == Some(Resume(Some(c), Row(true, [ENTRY], false)));
    BreaksNextWait(w, reports, [ENTRY], run);
  }

  lemma StaleWriterWins(w: World, reports: Reports, c: ChildId)
    requires w.children.Keys == reports.Keys && !w.row.waiting && c in w.children && w.children[c].Writing?
    ensures !NextWaitSafe(w, reports)
  {
    var stale := Patch(w.children[c].read, reports[c]);
    var w1 := Take(w, reports, WaitAgain(Unlike(stale)));
    var w2 := Take(w1, reports, Write(c));
    var w3 := Take(w2, reports, Load(c));
    OneStepRun(w3, reports, CompareAndSet(c));
    StepThen(w2, reports, Load(c), [CompareAndSet(c)]);
    StepThen(w1, reports, Write(c), [Load(c)] + [CompareAndSet(c)]);
    var run := [Write(c)] + ([Load(c)] + [CompareAndSet(c)]);
    assert Run(w1, reports, run).resumed == Some(Resume(Some(c), Row(true, stale, true)));
    NotBuilt(Unlike(stale), reports, stale, true);
    BreaksNextWait(w, reports, Unlike(stale), run);
  }

  lemma StepThen(w: World, reports: Reports, s: Step, rest: seq<Step>)
    requires w.children.Keys <= reports.Keys && CanTake(w, s)
    requires Legal(Take(w, reports, s), reports, rest)
    ensures Legal(w, reports, [s] + rest)
    ensures Run(w, reports, [s] + rest) == Run(Take(w, reports, s), reports, rest)
  {
    assert ([s] + rest)[1..] == rest;
  }

  // ---------------------------------------------------------------- The compare-and-set

  /** The compare-and-set that finds the parent waiting ends the wait, runs the document loaded before, and
      writes that document back; one that comes later changes nothing, save that its child is done. */
  lemma CompareAndSetExactly(w: World, reports: Reports, c: ChildId)
    requires w.children.Keys <= reports.Keys && c in w.children && w.children[c].Loaded?
    ensures CanTake(w, CompareAndSet(c))
    ensures var w', loaded := Take(w, reports, CompareAndSet(c)), w.children[c].row;
            && w'.original == w.original && w'.others == w.others && w'.children == w.children[c := Done]
            && (w.row.waiting ==>
                  w'.row == Row(false, loaded.stack, loaded.touched) && w'.resumed == Some(Resume(Some(c), loaded)))
            && (!w.row.waiting ==> w'.row == w.row && w'.resumed == w.resumed)
  {
  }

  /** The row changes only by a child writing its result into the document it has read, which leaves the row
      waiting or not as it is, by a compare-and-set that wins, and by the parent itself while it runs. */
  lemma RowChangesExactly(w: World, reports: Reports, s: Step)
    requires w.children.Keys <= reports.Keys && CanTake(w, s)
    ensures var row := Take(w, reports, s).row;
            && (s.Write? || s.WriteThenRetry? ==>
                  row == Row(w.row.waiting, Patch(w.children[s.c].read, reports[s.c]), true))
            && (s.OtherCompareAndSet? ==>
                  row == if w.row.waiting then Row(false, w.others[s.e].stack, w.others[s.e].touched) else w.row)
            && (s.SaveProgress? ==> row == Row(false, s.stack, w.row.touched))
            && (s.WaitAgain? ==> row == Row(true, s.stack, false))
            && (s.ReadForUpdate? || s.RetryUpdate? || s.Load? || s.RetryLoad? || s.GiveUp? || s.OtherLoad? ==> row == w.row)
  {
  }

  /** A finished child has something to write only if it reports an output or an error and finds the parent waiting
      with a stack; whether it wrote or not it then loads the parent as it is, and nothing moves another child. */
  lemma ChildMovesExactly(w: World, reports: Reports, s: Step, c: ChildId)
    requires w.children.Keys <= reports.Keys && CanTake(w, s) && c in w.children
    ensures var w' := Take(w, reports, s);
            && c in w'.children
            && (s == ReadForUpdate(c) ==>
                  w'.children[c] == if (reports[c].error.Some? || reports[c].output.Some?) && w.row.waiting && w.row.stack != []
                                    then Writing(w.row.stack) else Updated)
            && (s == Write(c) || s == RetryLoad(c) ==> w'.children[c] == Updated)
            && (s == WriteThenRetry(c) || s == RetryUpdate(c) ==> w'.children[c] == Finished)
            && (s == Load(c) ==> w'.children[c] == Loaded(w.row))
            && (s == GiveUp(c) || s == CompareAndSet(c) ==> w'.children[c] == Done)
            && (s.OtherLoad? || s.OtherCompareAndSet? || s.SaveProgress? || s.WaitAgain? || s.c != c ==>
                  w'.children[c] == w.children[c])
  {
  }

  /** However many children and other resumers race, a wait is ended once: from then on until the parent waits
      again no compare-and-set wins, and the parent stays resumed on what the winner loaded. */
  lemma {:induction false} OneWinnerAWait(w: World, reports: Reports, run: seq<Step>)
    requires w.children.Keys <= reports.Keys && Legal(w, reports, run) && OneEpisode(run) && !w.row.waiting
    ensures !Run(w, reports, run).row.waiting && Run(w, reports, run).resumed == w.resumed
    decreases |run|
  {
    if run != [] {
      assert OneEpisode(run[1..]) && !run[0].WaitAgain?;
      OneWinnerAWait(Take(w, reports, run[0]), reports, run[1..]);
    }
  }

  // ---------------------------------------------------------------- Main results

  /** Whatever the interleaving, over any number of waits that begin quietly, a child that wins the resume of a
      non-empty stack runs the parent with some child's result, unless it has neither output nor error itself;
      then it may also run the parent on exactly the stack it waited with. */
  lemma WinnerCarriesResult(original: seq<Entry>, reports: Reports, run: seq<Step>)
    requires Legal(Init(original, reports), reports, run) && QuietWaits(Init(original, reports), reports, run)
    requires var r := Run(Init(original, reports), reports, run).resumed; r.Some? && r.value.winner.Some?
    ensures var w := Run(Init(original, reports), reports, run);
            var r := w.resumed.value;
            && r.winner.value in reports
            && (w.original == [] ==> r.row.stack == [])
            && (w.original != [] && r.row.touched ==>
                  |r.row.stack| == |w.original| && CarriesResult(r.row.stack[0], reports)
                  && r.row.stack[1..] == w.original[1..])
            && (Speaks(w.original, reports, r.winner.value) ==> r.row.touched)
            && (!r.row.touched ==> r.row.stack == w.original)
  {
    InitInv(original, reports);
    RunKeepsInv(Init(original, reports), reports, run);
    var w := Run(Init(original, reports), reports, run);
    var r := w.resumed.value;
    var s :| BuiltBy(w.original, reports, r.row.stack, r.row.touched, s);
    BuiltSize(w.original, reports, s);
    if w.original != [] && r.row.touched {
      PatchedEntry(w.original, reports, s);
      PatchedCarriesResult(w.original, reports, s);
    }
  }

  /** No child of this parent ever resumes it before some child has written to it. */
  ghost predicate NeverOnOriginal(original: seq<Entry>, reports: Reports) {
    forall run | Legal(Init(original, reports), reports, run) && OneEpisode(run) ::
      var r := Run(Init(original, reports), reports, run).resumed;
      r.Some? && r.value.winner.Some? ==> r.value.row.touched
  }

  /** The guarantee holds exactly when the stack is not empty and every child has an output or an error. */
  lemma GuaranteedExactly(original: seq<Entry>, reports: Reports)
    ensures NeverOnOriginal(original, reports) <==> forall c :: c in reports ==> Speaks(original, reports, c)
    ensures NeverOnOriginal(original, reports) <==>
            reports == map[] || (|original| > 0 && forall c :: c in reports ==> reports[c].error.Some? || reports[c].output.Some?)
  {
    if forall c :: c in reports ==> Speaks(original, reports, c) {
      forall run | Legal(Init(original, reports), reports, run) && OneEpisode(run)
        ensures var r := Run(Init(original, reports), reports, run).resumed;
                r.Some? && r.value.winner.Some? ==> r.value.row.touched
      {
        var r := Run(Init(original, reports), reports, run).resumed;
        if r.Some? && r.value.winner.Some? {
          OneEpisodeIsQuiet(Init(original, reports), reports, run);
          WinnerCarriesResult(original, reports, run);
        }
      }
    } else {
      var c :| c in reports && !Speaks(original, reports, c);
      SilentChildResumes(original, reports, c);
    }
  }

  lemma SilentChildResumes(original: seq<Entry>, reports: Reports, c: ChildId)
    requires c in reports && !Speaks(original, reports, c)
    ensures !NeverOnOriginal(original, reports)
  {
    var w0 := Init(original, reports);
    var w1 := Take(w0, reports, ReadForUpdate(c));
    var w2 := Take(w1, reports, Load(c));
    var w3 := Take(w2, reports, CompareAndSet(c));
    var run := [ReadForUpdate(c), Load(c), CompareAndSet(c)];
    assert Legal(w3, reports, []);
    StepThen(w2, reports, run[2], []);
    StepThen(w1, reports, run[1], run[2..]);
    StepThen(w0, reports, run[0], run[1..]);
    assert run == [run[0]] + run[1..];
    assert run[1..] == [run[1]] + run[2..];
    assert Run(w0, reports, run) == w3;
  }

  // ---------------------------------------------------------------- Beyond one waiting episode

  const FIRST_WAIT := [Entry("first", "in", None, None)]
  const SECOND_WAIT := [Entry("second", "in", None, None)]
  const TWO_CHILDREN: Reports := map[0 := Report(None, Some("a"), None), 1 := Report(None, Some("b"), None)]

  // A child that has read the parent during its first wait writes in its second one.
  const SECOND_RUN := [WaitAgain(SECOND_WAIT), Write(1), Load(1), CompareAndSet(1)]

  // A child that finds the parent running writes nothing, but resumes it in its second wait all the same.
  const UNHEARD_RUN := [ReadForUpdate(1), WaitAgain(SECOND_WAIT), Load(1), CompareAndSet(1)]

  /** Child 0 has resumed the first wait. */
  function Resumed(other: ChildState): World {
    var patched := [FIRST_WAIT[0].(data := "a")];
    World(FIRST_WAIT, Row(false, patched, true), map[0 := Done, 1 := other], map[],
          Some(Resume(Some(0), Row(true, patched, true))))
  }

  const CHILD_ZERO := [ReadForUpdate(0), Write(0), Load(0), CompareAndSet(0)]

  /** Child 0 has written its result; child 1 does nothing. */
  function Half(other: ChildState): World {
    World(FIRST_WAIT, Row(true, [FIRST_WAIT[0].(data := "a")], true), map[0 := Updated, 1 := other], map[], None)
  }

  lemma ChildZeroWrites(other: ChildState, rest: seq<Step>)
    requires Legal(Half(other), TWO_CHILDREN, rest)
    ensures var w := Init(FIRST_WAIT, TWO_CHILDREN).(children := map[0 := Finished, 1 := other]);
            && Legal(w, TWO_CHILDREN, [ReadForUpdate(0)] + ([Write(0)] + rest))
            && Run(w, TWO_CHILDREN, [ReadForUpdate(0)] + ([Write(0)] + rest)) == Run(Half(other), TWO_CHILDREN, rest)
  {
    var w0 := Init(FIRST_WAIT, TWO_CHILDREN).(children := map[0 := Finished, 1 := other]);
    var w1 := Take(w0, TWO_CHILDREN, ReadForUpdate(0));
    var w2 := Take(w1, TWO_CHILDREN, Write(0));
    assert w2.row.stack == [FIRST_WAIT[0].(data := "a")];
    assert w2.children == map[0 := Updated, 1 := other];
    StepThen(w1, TWO_CHILDREN, Write(0), rest);
    StepThen(w0, TWO_CHILDREN, ReadForUpdate(0), [Write(0)] + rest);
  }

  lemma ChildZeroWins(other: ChildState, rest: seq<Step>)
    requires Legal(Resumed(other), TWO_CHILDREN, rest)
    ensures Legal(Half(other), TWO_CHILDREN, [Load(0)] + ([CompareAndSet(0)] + rest))
    ensures Run(Half(other), TWO_CHILDREN, [Load(0)] + ([CompareAndSet(0)] + rest))
         == Run(Resumed(other), TWO_CHILDREN, rest)
  {
    var w1 := Take(Half(other), TWO_CHILDREN, Load(0));
    assert Take(w1, TWO_CHILDREN, CompareAndSet(0)).children == Resumed(other).children;
    StepThen(w1, TWO_CHILDREN, CompareAndSet(0), rest);
    StepThen(Half(other), TWO_CHILDREN, Load(0), [CompareAndSet(0)] + rest);
  }

  /** Child 0 updates and resumes the parent while child 1 does nothing. */
  lemma ChildZeroResumes(other: ChildState, rest: seq<Step>)
    requires Legal(Resumed(other), TWO_CHILDREN, rest)
    ensures var w := Init(FIRST_WAIT, TWO_CHILDREN).(children := map[0 := Finished, 1 := other]);
            && Legal(w, TWO_CHILDREN, CHILD_ZERO + rest)
            && Run(w, TWO_CHILDREN, CHILD_ZERO + rest) == Run(Resumed(other), TWO_CHILDREN, rest)
  {
    ChildZeroWins(other, rest);
    ChildZeroWrites(other, [Load(0)] + ([CompareAndSet(0)] + rest));
    assert CHILD_ZERO + rest == [ReadForUpdate(0)] + ([Write(0)] + ([Load(0)] + ([CompareAndSet(0)] + rest)));
  }

  lemma StaleSecondWait()
    ensures Legal(Resumed(Writing(FIRST_WAIT)), TWO_CHILDREN, SECOND_RUN)
    ensures var w := Run(Resumed(Writing(FIRST_WAIT)), TWO_CHILDREN, SECOND_RUN);
            && w.original == SECOND_WAIT
            && w.resumed == Some(Resume(Some(1), Row(true, [FIRST_WAIT[0].(data := "b")], true)))
  {
    var r := TWO_CHILDREN;
    var w0 := Resumed(Writing(FIRST_WAIT));
    var w1 := Take(w0, r, SECOND_RUN[0]);
    var w2 := Take(w1, r, SECOND_RUN[1]);
    var w3 := Take(w2, r, SECOND_RUN[2]);
    assert w2.row.stack == [FIRST_WAIT[0].(data := "b")];
    OneStepRun(w3, r, SECOND_RUN[3]);
    StepThen(w2, r, SECOND_RUN[2], [SECOND_RUN[3]]);
    StepThen(w1, r, SECOND_RUN[1], SECOND_RUN[2..]);
    StepThen(w0, r, SECOND_RUN[0], SECOND_RUN[1..]);
  }

  /** The write is not guarded by the row's status: a child that read the parent during its first wait can
      write back that document during the second one, and so resume the parent at the first wait's node. */
  lemma LateChildRevivesOldStack()
    ensures exists run ::
              && Legal(Init(FIRST_WAIT, TWO_CHILDREN), TWO_CHILDREN, run)
              && var w := Run(Init(FIRST_WAIT, TWO_CHILDREN), TWO_CHILDREN, run);
              && w.original == SECOND_WAIT
              && w.resumed == Some(Resume(Some(1), Row(true, [FIRST_WAIT[0].(data := "b")], true)))
  {
    StaleSecondWait();
    ChildZeroResumes(Writing(FIRST_WAIT), SECOND_RUN);
    var w0 := Init(FIRST_WAIT, TWO_CHILDREN);
    assert Take(w0, TWO_CHILDREN, ReadForUpdate(1)).children == map[0 := Finished, 1 := Writing(FIRST_WAIT)];
    StepThen(w0, TWO_CHILDREN, ReadForUpdate(1), CHILD_ZERO + SECOND_RUN);
    assert Legal(w0, TWO_CHILDREN, [ReadForUpdate(1)] + (CHILD_ZERO + SECOND_RUN));
  }

  lemma UnheardSecondWait()
    ensures Legal(Resumed(Finished), TWO_CHILDREN, UNHEARD_RUN)
    ensures var w := Run(Resumed(Finished), TWO_CHILDREN, UNHEARD_RUN);
            w.original == SECOND_WAIT && w.resumed == Some(Resume(Some(1), Row(true, SECOND_WAIT, false)))
  {
    var r := TWO_CHILDREN;
    var w0 := Resumed(Finished);
    var w1 := Take(w0, r, UNHEARD_RUN[0]);
    var w2 := Take(w1, r, UNHEARD_RUN[1]);
    var w3 := Take(w2, r, UNHEARD_RUN[2]);
    OneStepRun(w3, r, UNHEARD_RUN[3]);
    StepThen(w2, r, UNHEARD_RUN[2], [UNHEARD_RUN[3]]);
    StepThen(w1, r, UNHEARD_RUN[1], UNHEARD_RUN[2..]);
    StepThen(w0, r, UNHEARD_RUN[0], UNHEARD_RUN[1..]);
  }

  /** A child that comes between two waits has something to say, writes it nowhere, and then resumes the second
      wait on exactly the parent's own input. */
  lemma UnheardChildResumesNextWait()
    ensures exists run ::
              && Legal(Init(FIRST_WAIT, TWO_CHILDREN), TWO_CHILDREN, run)
              && var w := Run(Init(FIRST_WAIT, TWO_CHILDREN), TWO_CHILDREN, run);
              w.original == SECOND_WAIT && w.resumed == Some(Resume(Some(1), Row(true, SECOND_WAIT, false)))
  {
    UnheardSecondWait();
    ChildZeroResumes(Finished, UNHEARD_RUN);
    var w0 := Init(FIRST_WAIT, TWO_CHILDREN);
    assert w0.children == map[0 := Finished, 1 := Finished];
    assert w0 == w0.(children := map[0 := Finished, 1 := Finished]);
    assert Legal(w0, TWO_CHILDREN, CHILD_ZERO + UNHEARD_RUN);
  }
}
