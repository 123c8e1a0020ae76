/**
 * Registration of a workflow's production webhooks in the table keyed by path and method, and the
 * rollback when a registration fails. Every database write and every call of a node's own webhook
 * methods may fail; which ones do is an input.
 */
module Webhooks {
  import opened Wrappers

  type WorkflowId = string
  type NodeName = string
  type Path = string
  type Method = string

  datatype Key = Key(path: Path, httpMethod: Method)
  datatype Row = Row(workflowId: WorkflowId, node: NodeName)
  type Table = map<Key, Row>

  datatype Failure = QueryFailed | PathTaken(node: NodeName) | OtherError

  /** Where the registration of one webhook goes wrong, if anywhere: writing a new row, reading or
      refreshing the one in the way, or running the node's own checkExists and create. */
  datatype Fault = NoFault | InsertFails(e: Failure) | FindFails(e: Failure) | UpdateFails(e: Failure) | HookFails(e: Failure)

  datatype Webhook = Webhook(path: Path, httpMethod: Method, node: NodeName, fault: Fault)

  /** How the rollback goes: it may find no workflow or no active version, or fail at an external service or in
      deleting the rows, which goes as a whole. */
  datatype Clearing = Cleared | WorkflowMissing | NoActiveVersion | DeregisteringFails | DeletingFails

  datatype Activation = Init | LeadershipChange | Activate | Update | Manual

  // ---------------------------------------------------------------- Paths

  function TrimPath(path: Path): Path {
    var head := if |path| > 0 && path[0] == '/' then path[1..] else path;
    if |head| > 0 && head[|head| - 1] == '/' then head[..|head| - 1] else head
  }

  /** What is taken away is exactly one slash at the start and one at the end, where there is one; a lone slash
      is at the start. */
  lemma TrimsOneSlash(path: Path)
    ensures path == (if path != "" && path[0] == '/' then "/" else "") + TrimPath(path)
                  + (if path !in {"", "/"} && path[|path| - 1] == '/' then "/" else "")
  {
    if |path| == 1 && path[0] == '/' {
      assert path == "/";
    }
  }

  function KeyOf(w: Webhook): Key {
    Key(TrimPath(w.path), w.httpMethod)
  }

  function RowOf(workflowId: WorkflowId, w: Webhook): Row {
    Row(workflowId, w.node)
  }

  // ---------------------------------------------------------------- Storing one webhook

  function Store(t: Table, key: Key, row: Row, fault: Fault): (Table, Option<Failure>) {
    if key !in t then
      if fault.InsertFails? then (t, Some(fault.e)) else (t[key := row], None)
    else if fault.FindFails? then (t, Some(fault.e))
    else if t[key].workflowId != row.workflowId then (t, Some(PathTaken(row.node)))
    else if fault.UpdateFails? then (t, Some(fault.e))
    else (t[key := row], None)
  }

  /** Store the webhook, then run the node's own webhook methods. */
  function Attempt(t: Table, wf: WorkflowId, w: Webhook): (Table, Option<Failure>) {
    var stored := Store(t, KeyOf(w), RowOf(wf, w), w.fault);
    if stored.1.None? && w.fault.HookFails? then (stored.0, Some(w.fault.e)) else stored
  }

  predicate Lenient(activation: Activation) {
    activation in {Init, LeadershipChange}
  }

  // ---------------------------------------------------------------- Registering all of them

  /** A failed query is skipped on start-up and takeover, and taken for a taken path otherwise. */
  function RegisterOne(t: Table, wf: WorkflowId, w: Webhook, activation: Activation): (Table, Option<Failure>) {
    var tried := Attempt(t, wf, w);
    if tried.1 == Some(QueryFailed) && Lenient(activation) then (tried.0, None)
    else if tried.1 == Some(QueryFailed) then (tried.0, Some(PathTaken(w.node)))
    else tried
  }

  function Register(t: Table, wf: WorkflowId, hooks: seq<Webhook>, activation: Activation): (Table, Option<Failure>) {
    if hooks == [] then (t, None)
    else
      var before := Register(t, wf, hooks[..|hooks| - 1], activation);
      if before.1.Some? then before else RegisterOne(before.0, wf, hooks[|hooks| - 1], activation)
  }

  function Clear(t: Table, wf: WorkflowId): Table {
    map key | key in t && t[key].workflowId != wf :: t[key]
  }

  /** `clears` says whether the rollback works, `saves` whether the static data can be saved in the end. */
  function AddAll(t: Table, wf: WorkflowId, hooks: seq<Webhook>, activation: Activation, clears: bool, saves: bool)
    : (Table, Result<bool, Failure>)
  {
    if hooks == [] then (t, Success(false))
    else
      var r := Register(t, wf, hooks, activation);
      if r.1.Some? then (if clears then Clear(r.0, wf) else r.0, Failure(r.1.value))
      else (r.0, if saves then Success(true) else Failure(OtherError))
  }

  // ---------------------------------------------------------------- The service

  class WebhookRegistry {
    var table: Table

    constructor ()
      ensures table == map[]
    {
      table := map[];
    }

    /** Insert; if that fails, look at the row in the way. */
    method StoreWebhook(key: Key, row: Row, fault: Fault) returns (error: Option<Failure>)
      modifies this
      ensures (table, error) == Store(old(table), key, row, fault)
      ensures error.None? ==> table == old(table)[key := row]
      ensures error.Some? ==> table == old(table)
      ensures key !in old(table) ==> (error.None? <==> !fault.InsertFails?)
      ensures key in old(table) ==>
              (error.None? <==> !fault.FindFails? && old(table)[key].workflowId == row.workflowId && !fault.UpdateFails?)
      ensures key in old(table) && !fault.FindFails? && old(table)[key].workflowId != row.workflowId ==>
              error == Some(PathTaken(row.node))
      ensures error.Some? ==> error == Some(PathTaken(row.node)) || (!fault.NoFault? && error == Some(fault.e))
      ensures error.Some? && (key !in old(table) || fault.FindFails? || old(table)[key].workflowId == row.workflowId) ==>
              !fault.NoFault? && error == Some(fault.e)
    {
      if key !in table && !fault.InsertFails? {
        table := table[key := row];
        return None;
      }
      var insertError := if fault.InsertFails? then fault.e else QueryFailed;
      if key !in table {
        return Some(insertError);
      }
      if fault.FindFails? {
        return Some(fault.e);
      }
      if table[key].workflowId != row.workflowId {
        return Some(PathTaken(row.node));
      }
      if fault.UpdateFails? {
        return Some(fault.e);
      }
      table := table[key := row];
      error := None;
    }

    /** The two calls inside the `try`. */
    method TryWebhook(wf: WorkflowId, w: Webhook) returns (error: Option<Failure>)
      modifies this
      ensures (table, error) == Attempt(old(table), wf, w)
    {
      error := StoreWebhook(KeyOf(w), RowOf(wf, w), w.fault);
      if error.None? && w.fault.HookFails? {
        error := Some(w.fault.e);
      }
    }

    /** Looks the workflow up, deregisters its webhooks at external services, and only then deletes its rows. */
    method ClearWebhooks(wf: WorkflowId, clearing: Clearing) returns (ok: bool)
      modifies this
      ensures ok <==> clearing == Cleared
      ensures table == if ok then Clear(old(table), wf) else old(table)
      ensures !ok ==> table == old(table)
      ensures ok ==> forall key :: key in table <==> key in old(table) && old(table)[key].workflowId != wf
      ensures forall key :: key in table ==> table[key] == old(table)[key]
    {
      if clearing != Cleared {
        return false;
      }
      table := map key | key in table && table[key].workflowId != wf :: table[key];
      ok := true;
    }

    method AddWebhooks(wf: WorkflowId, hooks: seq<Webhook>, activation: Activation, clearing: Clearing, saves: bool)
      returns (result: Result<bool, Failure>)
      modifies this
      ensures (table, result) == AddAll(old(table), wf, hooks, activation, clearing == Cleared, saves)
      ensures forall key :: key in table && table[key].workflowId != wf <==>
                            key in old(table) && old(table)[key].workflowId != wf
      ensures forall key :: key in table && table[key].workflowId != wf ==> table[key] == old(table)[key]
      ensures |hooks| == 0 ==> result == Success(false) && table == old(table)
      ensures |hooks| > 0 && result.Success? ==> result == Success(true) && saves
      ensures |hooks| > 0 && result.Success? && activation !in {Init, LeadershipChange} ==>
              forall k :: 0 <= k < |hooks| ==>
                var key := Key(TrimPath(hooks[k].path), hooks[k].httpMethod);
                key in table && table[key].workflowId == wf
      ensures result.Failure? && saves && clearing == Cleared ==> forall key :: key in table ==> table[key].workflowId != wf
      ensures clearing != Cleared ==> forall key :: key in old(table) ==> key in table
    {
      if |hooks| == 0 {
        return Success(false);
      }
      var error := RegisterWebhooks(wf, hooks, activation);
      if error.Some? {
        var _ := ClearWebhooks(wf, clearing);
        result := Failure(error.value);
      } else {
        result := if saves then Success(true) else Failure(OtherError);
      }
      OthersUntouched(old(table), wf, hooks, activation, clearing == Cleared, saves);
      Outcome(old(table), wf, hooks, activation, clearing == Cleared, saves);
    }

    /** The loop over the webhooks, up to the first error that is not skipped. */
    method RegisterWebhooks(wf: WorkflowId, hooks: seq<Webhook>, activation: Activation) returns (failed: Option<Failure>)
      modifies this
      ensures (table, failed) == Register(old(table), wf, hooks, activation)
    {
      for i := 0 to |hooks|
        invariant (table, None) == Register(old(table), wf, hooks[..i], activation)
      {
        assert hooks[..i + 1][..i] == hooks[..i];
        ghost var before := table;
        var w := hooks[i];
        assert Register(old(table), wf, hooks[..i + 1], activation) == RegisterOne(before, wf, w, activation);
        var error := TryWebhook(wf, w);
        if error.Some? && !(activation in {Init, LeadershipChange} && error.value.QueryFailed?) {
          FirstFailureStays(old(table), wf, hooks, activation, i + 1);
          return Some(if error.value.QueryFailed? then PathTaken(w.node) else error.value);
        }
      }
      assert hooks[..|hooks|] == hooks;
      failed := None;
    }
  }

  lemma {:induction false} FirstFailureStays(t: Table, wf: WorkflowId, hooks: seq<Webhook>, activation: Activation, i: nat)
    requires i <= |hooks| && Register(t, wf, hooks[..i], activation).1.Some?
    ensures Register(t, wf, hooks, activation) == Register(t, wf, hooks[..i], activation)
  {
    if i == |hooks| {
      assert hooks[..i] == hooks;
    } else {
      assert hooks[..|hooks| - 1][..i] == hooks[..i];
      FirstFailureStays(t, wf, hooks[..|hooks| - 1], activation, i);
    }
  }

  // ---------------------------------------------------------------- Other workflows

  predicate Taken(t: Table, wf: WorkflowId, w: Webhook) {
    KeyOf(w) in t && t[KeyOf(w)].workflowId != wf
  }

  /** Without a failing query one attempt writes the row, or finds the path taken; the node's own webhook
      methods may fail after that, with the row in the table. */
  lemma AttemptWrites(t: Table, wf: WorkflowId, w: Webhook)
    requires w.fault.NoFault? || w.fault.HookFails?
    ensures var key := Key(TrimPath(w.path), w.httpMethod);
            Attempt(t, wf, w) ==
              if key in t && t[key].workflowId != wf then (t, Some(PathTaken(w.node)))
              else (t[key := Row(wf, w.node)], if w.fault.HookFails? then Some(w.fault.e) else None)
  {
  }

  lemma AttemptSparesOthers(t: Table, wf: WorkflowId, w: Webhook)
    ensures Clear(Attempt(t, wf, w).0, wf) == Clear(t, wf)
    ensures forall key :: key in t ==> key in Attempt(t, wf, w).0
  {
  }

  lemma {:induction false} RegisterSparesOthers(t: Table, wf: WorkflowId, hooks: seq<Webhook>, activation: Activation)
    ensures Clear(Register(t, wf, hooks, activation).0, wf) == Clear(t, wf)
    ensures forall key :: key in t ==> key in Register(t, wf, hooks, activation).0
  {
    if hooks != [] {
      var init := hooks[..|hooks| - 1];
      RegisterSparesOthers(t, wf, init, activation);
      AttemptSparesOthers(Register(t, wf, init, activation).0, wf, hooks[|hooks| - 1]);
    }
  }

  /** Whatever fails and wherever, no row of another workflow is added, changed or removed. */
  lemma OthersUntouched(t: Table, wf: WorkflowId, hooks: seq<Webhook>, activation: Activation, clears: bool, saves: bool)
    ensures var r := AddAll(t, wf, hooks, activation, clears, saves).0;
            forall key :: && (key in r && r[key].workflowId != wf <==> key in t && t[key].workflowId != wf)
                          && (key in r && r[key].workflowId != wf ==> r[key] == t[key])
  {
    var r := AddAll(t, wf, hooks, activation, clears, saves).0;
    RegisterSparesOthers(t, wf, hooks, activation);
    var all := Register(t, wf, hooks, activation).0;
    assert Clear(Clear(all, wf), wf) == Clear(all, wf);
    forall key
      ensures key in r && r[key].workflowId != wf <==> key in t && t[key].workflowId != wf
      ensures key in r && r[key].workflowId != wf ==> r[key] == t[key]
    {
      assert key in Clear(r, wf) <==> key in Clear(t, wf);
    }
  }

  // ---------------------------------------------------------------- What a call does, from its arguments

  /** Whether the key of a webhook has a row once the webhooks `before` it have had their turn: only a failing
      insert leaves a free key free. */
  predicate Present(t: Table, before: seq<Webhook>, key: Key) {
    key in t || exists j :: 0 <= j < |before| && KeyOf(before[j]) == key && !before[j].fault.InsertFails?
  }

  /** The webhook gets its row: nothing fails before the write, and no other workflow has the path. */
  predicate Written(t: Table, wf: WorkflowId, before: seq<Webhook>, w: Webhook) {
    if Present(t, before, KeyOf(w)) then !w.fault.FindFails? && !Taken(t, wf, w) && !w.fault.UpdateFails?
    else !w.fault.InsertFails?
  }

  /** What goes wrong with a webhook, if anything. */
  function Raised(t: Table, wf: WorkflowId, before: seq<Webhook>, w: Webhook): Option<Failure> {
    if Written(t, wf, before, w) then if w.fault.HookFails? then Some(w.fault.e) else None
    else if Present(t, before, KeyOf(w)) && Taken(t, wf, w) && !w.fault.FindFails? then Some(PathTaken(w.node))
    else if w.fault.NoFault? then None
    else Some(w.fault.e)
  }

  /** Webhook `k` ends the call: what goes wrong with it is not skipped in this activation mode. */
  predicate Fires(t: Table, wf: WorkflowId, hooks: seq<Webhook>, activation: Activation, k: nat)
    requires k < |hooks|
  {
    var e := Raised(t, wf, hooks[..k], hooks[k]);
    e.Some? && !(e.value.QueryFailed? && Lenient(activation))
  }

  /** The error the call ends with when webhook `k` ends it. */
  function Thrown(t: Table, wf: WorkflowId, hooks: seq<Webhook>, k: nat): Failure
    requires k < |hooks| && Raised(t, wf, hooks[..k], hooks[k]).Some?
  {
    var e := Raised(t, wf, hooks[..k], hooks[k]).value;
    if e.QueryFailed? then PathTaken(hooks[k].node) else e
  }

  predicate NoneFires(t: Table, wf: WorkflowId, hooks: seq<Webhook>, activation: Activation) {
    forall k :: 0 <= k < |hooks| ==> !Fires(t, wf, hooks, activation, k)
  }

  /** The rows the webhooks have got; of two on one key the later counts. */
  function Recorded(t: Table, wf: WorkflowId, hooks: seq<Webhook>): (r: Table)
    ensures forall key :: key in r ==> r[key].workflowId == wf && (key in t ==> t[key].workflowId == wf)
  {
    if hooks == [] then map[]
    else
      var init, last := hooks[..|hooks| - 1], hooks[|hooks| - 1];
      var r := Recorded(t, wf, init);
      if Written(t, wf, init, last) then r[KeyOf(last) := RowOf(wf, last)] else r
  }

  lemma {:induction false} RecordedKey(t: Table, wf: WorkflowId, hooks: seq<Webhook>, key: Key)
    ensures Present(t, hooks, key) <==> key in t || key in Recorded(t, wf, hooks)
  {
    if hooks != [] {
      var init, last := hooks[..|hooks| - 1], hooks[|hooks| - 1];
      RecordedKey(t, wf, init, key);
      assert Present(t, hooks, key) <==> Present(t, init, key) || (KeyOf(last) == key && !last.fault.InsertFails?) by {
        assert forall j :: 0 <= j < |init| ==> init[j] == hooks[j];
      }
    }
  }

  /** The table the webhooks before have left looks to the next one as the arguments say. */
  lemma SeenAfter(t: Table, wf: WorkflowId, init: seq<Webhook>, last: Webhook)
    ensures var u := t + Recorded(t, wf, init);
            && (KeyOf(last) in u <==> Present(t, init, KeyOf(last)))
            && (Taken(u, wf, last) <==> Taken(t, wf, last))
  {
    RecordedKey(t, wf, init, KeyOf(last));
  }

  lemma AttemptRaises(u: Table, t: Table, wf: WorkflowId, init: seq<Webhook>, last: Webhook)
    requires (KeyOf(last) in u <==> Present(t, init, KeyOf(last))) && (Taken(u, wf, last) <==> Taken(t, wf, last))
    ensures Attempt(u, wf, last).1 == Raised(t, wf, init, last)
    ensures Attempt(u, wf, last).0 == if Written(t, wf, init, last) then u[KeyOf(last) := RowOf(wf, last)] else u
  {
  }

  /** One attempt on the table that the webhooks before it have left. */
  lemma AttemptOnRecorded(t: Table, wf: WorkflowId, init: seq<Webhook>, last: Webhook)
    ensures var tried := Attempt(t + Recorded(t, wf, init), wf, last);
            tried.1 == Raised(t, wf, init, last) && tried.0 == t + Recorded(t, wf, init + [last])
  {
    var u := t + Recorded(t, wf, init);
    SeenAfter(t, wf, init, last);
    AttemptRaises(u, t, wf, init, last);
    RecordedSnoc(t, wf, init, last);
  }

  lemma RecordedSnoc(t: Table, wf: WorkflowId, init: seq<Webhook>, last: Webhook)
    ensures var u := t + Recorded(t, wf, init);
            t + Recorded(t, wf, init + [last])
            == if Written(t, wf, init, last) then u[KeyOf(last) := RowOf(wf, last)] else u
  {
    assert (init + [last])[..|init|] == init;
  }

  lemma NoneFiresInPrefix(t: Table, wf: WorkflowId, hooks: seq<Webhook>, activation: Activation, n: nat)
    requires n <= |hooks| && forall j :: 0 <= j < n ==> !Fires(t, wf, hooks, activation, j)
    ensures NoneFires(t, wf, hooks[..n], activation)
  {
    forall k | 0 <= k < n
      ensures !Fires(t, wf, hooks[..n], activation, k)
    {
      assert hooks[..n][..k] == hooks[..k];
      assert !Fires(t, wf, hooks, activation, k);
    }
  }

  lemma RegisterNext(t: Table, wf: WorkflowId, init: seq<Webhook>, last: Webhook, activation: Activation)
    requires Register(t, wf, init, activation) == (t + Recorded(t, wf, init), None)
    ensures var r, e := Register(t, wf, init + [last], activation), Raised(t, wf, init, last);
            && r.0 == t + Recorded(t, wf, init + [last])
            && r.1 == if e.Some? && e.value.QueryFailed?
                      then (if Lenient(activation) then None else Some(PathTaken(last.node))) else e
  {
    assert (init + [last])[..|init|] == init;
    AttemptOnRecorded(t, wf, init, last);
  }

  /** Without a webhook that fires, all have had their turn, and in every mode exactly those not stopped before
      the write have their rows. */
  lemma {:induction false} RegistersWritten(t: Table, wf: WorkflowId, hooks: seq<Webhook>, activation: Activation)
    requires NoneFires(t, wf, hooks, activation)
    ensures Register(t, wf, hooks, activation) == (t + Recorded(t, wf, hooks), None)
  {
    if hooks == [] {
      assert t + map[] == t;
    } else {
      var init, last := hooks[..|hooks| - 1], hooks[|hooks| - 1];
      NoneFiresInPrefix(t, wf, hooks, activation, |init|);
      RegistersWritten(t, wf, init, activation);
      assert hooks == init + [last];
      RegisterNext(t, wf, init, last, activation);
      assert !Fires(t, wf, hooks, activation, |init|);
    }
  }

  /** The first webhook that fires ends the call, with the rows got up to and including it. */
  lemma RegistersUpTo(t: Table, wf: WorkflowId, hooks: seq<Webhook>, activation: Activation, k: nat)
    requires k < |hooks| && Fires(t, wf, hooks, activation, k)
    requires forall j :: 0 <= j < k ==> !Fires(t, wf, hooks, activation, j)
    ensures var r := Register(t, wf, hooks, activation);
            r.1 == Some(Thrown(t, wf, hooks, k)) && r.0 == t + Recorded(t, wf, hooks[..k + 1])
  {
    NoneFiresInPrefix(t, wf, hooks, activation, k);
    RegistersWritten(t, wf, hooks[..k], activation);
    assert hooks[..k + 1] == hooks[..k] + [hooks[k]];
    RegisterNext(t, wf, hooks[..k], hooks[k], activation);
    FirstFailureStays(t, wf, hooks, activation, k + 1);
  }

  lemma FirstToFire(t: Table, wf: WorkflowId, hooks: seq<Webhook>, activation: Activation) returns (k: nat)
    requires !NoneFires(t, wf, hooks, activation)
    ensures k < |hooks| && Fires(t, wf, hooks, activation, k)
    ensures forall j :: 0 <= j < k ==> !Fires(t, wf, hooks, activation, j)
    ensures var r := Register(t, wf, hooks, activation);
            r.1 == Some(Thrown(t, wf, hooks, k)) && r.0 == t + Recorded(t, wf, hooks[..k + 1])
  {
    ghost var n :| 0 <= n < |hooks| && Fires(t, wf, hooks, activation, n);
    k := 0;
    while !Fires(t, wf, hooks, activation, k)
      invariant k <= n && forall j :: 0 <= j < k ==> !Fires(t, wf, hooks, activation, j)
      decreases n - k
    {
      k := k + 1;
    }
    RegistersUpTo(t, wf, hooks, activation, k);
  }

  predicate FiresFirst(t: Table, wf: WorkflowId, hooks: seq<Webhook>, activation: Activation, k: nat)
    requires k < |hooks|
  {
    Fires(t, wf, hooks, activation, k) && forall j :: 0 <= j < k ==> !Fires(t, wf, hooks, activation, j)
  }

  /** The call fails exactly if a webhook fires, or none does but the static data cannot be saved; it fails with
      what went wrong with the first webhook that fires, a failed query being taken for a taken path. */
  lemma FailsExactly(t: Table, wf: WorkflowId, hooks: seq<Webhook>, activation: Activation, clears: bool, saves: bool)
    ensures AddAll(t, wf, hooks, activation, clears, saves).1.Failure? <==>
            hooks != [] && (!NoneFires(t, wf, hooks, activation) || !saves)
    ensures NoneFires(t, wf, hooks, activation) && hooks != [] && !saves ==>
              AddAll(t, wf, hooks, activation, clears, saves).1 == Failure(OtherError)
    ensures forall k :: 0 <= k < |hooks| && FiresFirst(t, wf, hooks, activation, k) ==>
              var e := Raised(t, wf, hooks[..k], hooks[k]).value;
              AddAll(t, wf, hooks, activation, clears, saves).1
              == Failure(if e == QueryFailed then PathTaken(hooks[k].node) else e)
  {
    if NoneFires(t, wf, hooks, activation) {
      RegistersWritten(t, wf, hooks, activation);
    } else {
      var n := FirstToFire(t, wf, hooks, activation);
      assert forall k :: 0 <= k < |hooks| && FiresFirst(t, wf, hooks, activation, k) ==> k == n;
    }
  }

  // ---------------------------------------------------------------- Rollback

  function RowsOf(t: Table, wf: WorkflowId): set<Key> {
    set key | key in t && t[key].workflowId == wf
  }

  /** Webhook `k` gets its turn, and a row. */
  predicate GetsRow(t: Table, wf: WorkflowId, hooks: seq<Webhook>, activation: Activation, k: nat)
    requires k < |hooks|
  {
    (forall j :: 0 <= j < k ==> !Fires(t, wf, hooks, activation, j)) && Written(t, wf, hooks[..k], hooks[k])
  }

  /** After an error nothing of the workflow is left exactly if a webhook fired and the rollback worked, or the
      workflow had no row and no webhook got one before the call ended. */
  lemma RolledBackExactly(t: Table, wf: WorkflowId, hooks: seq<Webhook>, activation: Activation, clears: bool, saves: bool)
    requires AddAll(t, wf, hooks, activation, clears, saves).1.Failure?
    ensures RowsOf(AddAll(t, wf, hooks, activation, clears, saves).0, wf) == {} <==>
            || (clears && !NoneFires(t, wf, hooks, activation))
            || (RowsOf(t, wf) == {} && forall k :: 0 <= k < |hooks| ==> !GetsRow(t, wf, hooks, activation, k))
  {
    if NoneFires(t, wf, hooks, activation) {
      RegistersWritten(t, wf, hooks, activation);
      assert hooks[..|hooks|] == hooks;
      RowsLeft(t, wf, hooks, activation, |hooks|);
    } else {
      var k := FirstToFire(t, wf, hooks, activation);
      RowsLeft(t, wf, hooks, activation, k + 1);
    }
  }

  /** The first `n` webhooks are those that get their turn. */
  lemma RowsLeft(t: Table, wf: WorkflowId, hooks: seq<Webhook>, activation: Activation, n: nat)
    requires n <= |hooks| && forall j :: 0 <= j < n - 1 ==> !Fires(t, wf, hooks, activation, j)
    requires n == |hooks| || (n > 0 && Fires(t, wf, hooks, activation, n - 1))
    ensures RowsOf(t + Recorded(t, wf, hooks[..n]), wf) == {} <==>
            RowsOf(t, wf) == {} && forall k :: 0 <= k < |hooks| ==> !GetsRow(t, wf, hooks, activation, k)
  {
    var u := t + Recorded(t, wf, hooks[..n]);
    NothingRecorded(t, wf, hooks[..n]);
    forall k | 0 <= k < n
      ensures GetsRow(t, wf, hooks, activation, k) <==> Written(t, wf, hooks[..n][..k], hooks[..n][k])
    {
      assert hooks[..n][..k] == hooks[..k];
    }
    if key :| key in Recorded(t, wf, hooks[..n]) {
      assert key in RowsOf(u, wf);
    } else {
      assert u == t;
    }
  }

  lemma {:induction false} NothingRecorded(t: Table, wf: WorkflowId, hooks: seq<Webhook>)
    ensures Recorded(t, wf, hooks) == map[] <==>
            forall k :: 0 <= k < |hooks| ==> !Written(t, wf, hooks[..k], hooks[k])
  {
    if hooks != [] {
      var init := hooks[..|hooks| - 1];
      NothingRecorded(t, wf, init);
      assert forall k :: 0 <= k < |init| ==> init[..k] == hooks[..k] && init[k] == hooks[k];
    }
  }

  /** In an ordinary activation with a working rollback: exactly if a webhook fired. */
  lemma StrictRollback(t: Table, wf: WorkflowId, hooks: seq<Webhook>, activation: Activation, saves: bool)
    requires activation !in {Init, LeadershipChange} && AddAll(t, wf, hooks, activation, true, saves).1.Failure?
    ensures RowsOf(AddAll(t, wf, hooks, activation, true, saves).0, wf) == {} <==> !NoneFires(t, wf, hooks, activation)
  {
    RolledBackExactly(t, wf, hooks, activation, true, saves);
    if NoneFires(t, wf, hooks, activation) {
      assert !Fires(t, wf, hooks, activation, 0);
      assert GetsRow(t, wf, hooks, activation, 0);
    }
  }

  /** Saving the static data comes after the loop and outside its rollback: if it fails, the call throws and
      every webhook stays registered. */
  lemma UnsavedStaysRegistered(wf: WorkflowId, w: Webhook, activation: Activation)
    requires w.fault.NoFault?
    ensures AddAll(map[], wf, [w], activation, true, false) == (map[KeyOf(w) := RowOf(wf, w)], Failure(OtherError))
    ensures RowsOf(AddAll(map[], wf, [w], activation, true, false).0, wf) == {KeyOf(w)}
  {
    assert [w][..0] == [];
    assert Register(map[], wf, [w][..0], activation) == (map[], None);
  }

  // ---------------------------------------------------------------- What is registered

  /** The rows `hooks` ask for; of two on one key the later counts. */
  function Wanted(wf: WorkflowId, hooks: seq<Webhook>): (r: Table)
    ensures forall key :: key in r ==> r[key].workflowId == wf
  {
    if hooks == [] then map[]
    else Wanted(wf, hooks[..|hooks| - 1])[KeyOf(hooks[|hooks| - 1]) := RowOf(wf, hooks[|hooks| - 1])]
  }

  predicate NothingFails(hooks: seq<Webhook>) {
    forall k :: 0 <= k < |hooks| ==> hooks[k].fault.NoFault?
  }

  predicate NoneTaken(t: Table, wf: WorkflowId, hooks: seq<Webhook>) {
    forall k :: 0 <= k < |hooks| ==> !Taken(t, wf, hooks[k])
  }

  lemma {:induction false} WantedKey(wf: WorkflowId, hooks: seq<Webhook>, k: nat)
    requires k < |hooks|
    ensures KeyOf(hooks[k]) in Wanted(wf, hooks)
    ensures (forall j :: k < j < |hooks| ==> KeyOf(hooks[j]) != KeyOf(hooks[k])) ==>
            Wanted(wf, hooks)[KeyOf(hooks[k])] == Row(wf, hooks[k].node)
  {
    if k < |hooks| - 1 {
      WantedKey(wf, hooks[..|hooks| - 1], k);
      assert forall j :: k < j < |hooks| - 1 ==> hooks[..|hooks| - 1][j] == hooks[j];
    }
  }

  lemma {:induction false} AllRecorded(t: Table, wf: WorkflowId, hooks: seq<Webhook>)
    requires forall k :: 0 <= k < |hooks| ==> Written(t, wf, hooks[..k], hooks[k])
    ensures Recorded(t, wf, hooks) == Wanted(wf, hooks)
  {
    if hooks != [] {
      var init := hooks[..|hooks| - 1];
      assert forall k :: 0 <= k < |init| ==> init[..k] == hooks[..k] && init[k] == hooks[k];
      AllRecorded(t, wf, init);
    }
  }

  /** If no write fails, all webhooks are registered or, because one path belongs to another workflow, the
      call is refused, in every activation mode. */
  lemma RegistersExactly(t: Table, wf: WorkflowId, hooks: seq<Webhook>, activation: Activation)
    requires NothingFails(hooks)
    ensures var r := Register(t, wf, hooks, activation);
            && (r.1.None? <==> NoneTaken(t, wf, hooks))
            && (r.1.None? ==> r.0 == t + Wanted(wf, hooks))
            && (r.1.Some? ==> r.1.value.PathTaken?)
  {
    forall k | 0 <= k < |hooks|
      ensures Fires(t, wf, hooks, activation, k) <==> Taken(t, wf, hooks[k])
      ensures Written(t, wf, hooks[..k], hooks[k]) <==> !Taken(t, wf, hooks[k])
    {
    }
    if NoneTaken(t, wf, hooks) {
      RegistersWritten(t, wf, hooks, activation);
      AllRecorded(t, wf, hooks);
    } else {
      var n :| 0 <= n < |hooks| && Taken(t, wf, hooks[n]);
      assert Fires(t, wf, hooks, activation, n);
      var k := FirstToFire(t, wf, hooks, activation);
    }
  }

  /** Rows left behind by an unclean exit do not matter: registering again succeeds and changes nothing. */
  lemma RegisteringAgain(t: Table, wf: WorkflowId, hooks: seq<Webhook>, first: Activation, again: Activation)
    requires NothingFails(hooks) && AddAll(t, wf, hooks, first, true, true).1.Success?
    ensures AddAll(AddAll(t, wf, hooks, first, true, true).0, wf, hooks, again, true, true)
         == AddAll(t, wf, hooks, first, true, true)
  {
    RegistersExactly(t, wf, hooks, first);
    var u := AddAll(t, wf, hooks, first, true, true).0;
    RegistersExactly(u, wf, hooks, again);
    if hooks != [] {
      forall k | 0 <= k < |hooks|
        ensures !Taken(u, wf, hooks[k])
      {
        WantedKey(wf, hooks, k);
      }
      assert u + Wanted(wf, hooks) == u;
    }
  }

  /** In an ordinary activation a call that succeeds has written every webhook and stolen no path, whichever
      faults there were on the way. */
  lemma SuccessRegistersAll(t: Table, wf: WorkflowId, hooks: seq<Webhook>, activation: Activation)
    requires activation !in {Init, LeadershipChange} && Register(t, wf, hooks, activation).1.None?
    ensures Register(t, wf, hooks, activation).0 == t + Wanted(wf, hooks)
    ensures NoneTaken(t, wf, hooks)
  {
    if !NoneFires(t, wf, hooks, activation) {
      var k := FirstToFire(t, wf, hooks, activation);
    }
    forall k | 0 <= k < |hooks|
      ensures Written(t, wf, hooks[..k], hooks[k]) && !Taken(t, wf, hooks[k])
    {
      assert !Fires(t, wf, hooks, activation, k);
    }
    RegistersWritten(t, wf, hooks, activation);
    AllRecorded(t, wf, hooks);
  }

  /** So every webhook has its row, with the last node that asked for it. */
  lemma SuccessHoldsAll(t: Table, wf: WorkflowId, hooks: seq<Webhook>, activation: Activation)
    requires activation !in {Init, LeadershipChange} && Register(t, wf, hooks, activation).1.None?
    ensures var r := Register(t, wf, hooks, activation).0;
            forall k :: 0 <= k < |hooks| ==>
              var key := Key(TrimPath(hooks[k].path), hooks[k].httpMethod);
              && key in r && r[key].workflowId == wf
              && ((forall j :: k < j < |hooks| ==> Key(TrimPath(hooks[j].path), hooks[j].httpMethod) != key) ==>
                  r[key] == Row(wf, hooks[k].node))
  {
    SuccessRegistersAll(t, wf, hooks, activation);
    forall k | 0 <= k < |hooks|
      ensures KeyOf(hooks[k]) in Wanted(wf, hooks)
      ensures (forall j :: k < j < |hooks| ==> KeyOf(hooks[j]) != KeyOf(hooks[k])) ==>
              Wanted(wf, hooks)[KeyOf(hooks[k])] == Row(wf, hooks[k].node)
    {
      WantedKey(wf, hooks, k);
    }
  }

  /** What a call leaves, by the kind of its result. */
  lemma Outcome(t: Table, wf: WorkflowId, hooks: seq<Webhook>, activation: Activation, clears: bool, saves: bool)
    ensures var (table, result) := AddAll(t, wf, hooks, activation, clears, saves);
      && (hooks == [] ==> result == Success(false) && table == t)
      && (hooks != [] && result.Success? ==> result == Success(true) && saves)
      && (hooks != [] && result.Success? && activation !in {Init, LeadershipChange} ==>
          forall k :: 0 <= k < |hooks| ==>
            var key := Key(TrimPath(hooks[k].path), hooks[k].httpMethod);
            key in table && table[key].workflowId == wf)
      && (result.Failure? && saves && clears ==> forall key :: key in table ==> table[key].workflowId != wf)
      && (!clears ==> forall key :: key in t ==> key in table)
  {
    RegisterSparesOthers(t, wf, hooks, activation);
    if activation !in {Init, LeadershipChange} && Register(t, wf, hooks, activation).1.None? {
      SuccessHoldsAll(t, wf, hooks, activation);
    }
  }

  /** On start-up and takeover failed queries are skipped: such a call succeeds although webhooks may be
      missing, and what it has written is exactly the rows of those that did not fail before the write. */
  lemma LenientSuccess(t: Table, wf: WorkflowId, hooks: seq<Webhook>, activation: Activation, clears: bool)
    requires activation in {Init, LeadershipChange} && hooks != []
    ensures AddAll(t, wf, hooks, activation, clears, true).1.Success? <==>
            forall k :: 0 <= k < |hooks| ==> Raised(t, wf, hooks[..k], hooks[k]) in {None, Some(QueryFailed)}
    ensures AddAll(t, wf, hooks, activation, clears, true).1.Success? ==>
            AddAll(t, wf, hooks, activation, clears, true).0 == t + Recorded(t, wf, hooks)
  {
    FailsExactly(t, wf, hooks, activation, clears, true);
    assert NoneFires(t, wf, hooks, activation) <==>
           forall k :: 0 <= k < |hooks| ==> Raised(t, wf, hooks[..k], hooks[k]) in {None, Some(QueryFailed)} by {
      assert forall k :: 0 <= k < |hooks| ==>
        (Fires(t, wf, hooks, activation, k) <==> Raised(t, wf, hooks[..k], hooks[k]) !in {None, Some(QueryFailed)});
    }
    if NoneFires(t, wf, hooks, activation) {
      RegistersWritten(t, wf, hooks, activation);
    }
  }

  /** For one, a failed insert on start-up: the call succeeds and the webhook has no row. */
  lemma LenientSkips(wf: WorkflowId, w: Webhook, activation: Activation)
    requires w.fault == InsertFails(QueryFailed)
    ensures AddAll(map[], wf, [w], activation, true, true)
         == (map[], if activation in {Init, LeadershipChange} then Success(true) else Failure(PathTaken(w.node)))
  {
    assert [w][..0] == [];
    assert Register(map[], wf, [w][..0], activation) == (map[], None);
    assert Clear(map[], wf) == map[];
  }
}
