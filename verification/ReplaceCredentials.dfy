/**
 * Repair of the credential references in a workflow's nodes: old-style references by name and
 * references by an id that may be gone are looked up in the database, behind two caches.
 */
module ReplaceCredentials {
  import opened Wrappers

  type CredentialType = string
  type Id = string
  type Name = string
  type ProjectId = string

  /** Absent or null; managed by the gateway; a bare name; or a record, whose id is null in old exports. */
  datatype Credential = Missing | Managed | ByName(name: Name) | Details(id: Option<Id>, name: Name)

  datatype Slot = Slot(kind: CredentialType, credential: Credential)
  datatype Node = Node(disabled: bool, credentials: seq<Slot>)

  datatype Row = Row(id: Id, kind: CredentialType, name: Name, projects: set<ProjectId>)
  datatype Database = Database(rows: seq<Row>, project: ProjectId)

  predicate UniqueIds(db: Database) {
    forall i, j :: 0 <= i < j < |db.rows| ==> db.rows[i].id != db.rows[j].id
  }

  // ---------------------------------------------------------------- Queries

  predicate Matches(row: Row, name: Name, kind: CredentialType, project: ProjectId) {
    row.name == name && row.kind == kind && project in row.projects
  }

  function Select(rows: seq<Row>, name: Name, kind: CredentialType, project: ProjectId): seq<Row> {
    if rows == [] then []
    else
      var rest := Select(rows[..|rows| - 1], name, kind, project);
      if Matches(rows[|rows| - 1], name, kind, project) then rest + [rows[|rows| - 1]] else rest
  }

  lemma {:induction false} SelectsMatches(rows: seq<Row>, name: Name, kind: CredentialType, project: ProjectId, row: Row)
    ensures row in Select(rows, name, kind, project) <==> row in rows && Matches(row, name, kind, project)
  {
    if rows != [] {
      SelectsMatches(rows[..|rows| - 1], name, kind, project, row);
      assert rows == rows[..|rows| - 1] + [rows[|rows| - 1]];
    }
  }

  function FindByNameAndTypeInProject(db: Database, name: Name, kind: CredentialType): seq<Row> {
    Select(db.rows, name, kind, db.project)
  }

  function Lookup(rows: seq<Row>, id: Id, kind: CredentialType): (r: Option<Row>)
    ensures r.Some? ==> r.value in rows && r.value.id == id && r.value.kind == kind
  {
    if rows == [] then None
    else if rows[0].id == id && rows[0].kind == kind then Some(rows[0])
    else Lookup(rows[1..], id, kind)
  }

  function FindOneBy(db: Database, id: Id, kind: CredentialType): Option<Row> {
    Lookup(db.rows, id, kind)
  }

  lemma {:induction false} LookupFinds(rows: seq<Row>, row: Row)
    requires row in rows
    ensures Lookup(rows, row.id, row.kind).Some?
  {
    if rows[0] != row {
      LookupFinds(rows[1..], row);
    }
  }

  lemma FoundByItsId(db: Database, row: Row)
    requires UniqueIds(db) && row in db.rows
    ensures FindOneBy(db, row.id, row.kind) == Some(row)
  {
    LookupFinds(db.rows, row);
    var found := FindOneBy(db, row.id, row.kind);
    var i :| 0 <= i < |db.rows| && db.rows[i] == row;
    var j :| 0 <= j < |db.rows| && db.rows[j] == found.value;
    assert i == j;
  }

  function Reference(row: Row): Credential {
    Details(Some(row.id), row.name)
  }

  // ---------------------------------------------------------------- Without caches

  /** The only credential of that name and type in the project, if there is exactly one. */
  function UniqueByName(db: Database, name: Name, kind: CredentialType): (r: Option<Row>)
    ensures r.Some? ==> r.value in db.rows && r.value.name == name && r.value.kind == kind
  {
    var found := FindByNameAndTypeInProject(db, name, kind);
    if |found| == 1 then
      assert found[0] in found;
      SelectsMatches(db.rows, name, kind, db.project, found[0]);
      Some(found[0])
    else None
  }

  /** Rows that do not qualify are not selected, and a row is selected alone exactly if it alone qualifies. */
  lemma {:induction false} SelectedAlone(rows: seq<Row>, name: Name, kind: CredentialType, project: ProjectId, i: nat)
    requires i < |rows|
    ensures Select(rows, name, kind, project) == [rows[i]] <==>
            && rows[i].name == name && rows[i].kind == kind && project in rows[i].projects
            && forall j :: 0 <= j < |rows| && j != i && rows[j].name == name && rows[j].kind == kind ==>
                 project !in rows[j].projects
  {
    var init, last := rows[..|rows| - 1], rows[|rows| - 1];
    var rest := Select(init, name, kind, project);
    assert forall j {:trigger rows[j]} :: 0 <= j < |init| ==> init[j] == rows[j] && init[j] in init;
    forall j | 0 <= j < |init|
      ensures rest == [] ==> !Matches(rows[j], name, kind, project)
    {
      SelectsMatches(init, name, kind, project, rows[j]);
    }
    if i < |init| {
      SelectedAlone(init, name, kind, project, i);
      assert rows[|init|] == last;
      assert rest + [last] == [rows[i]] ==> |rest| == 0 && (rest + [last])[0] == last;
    } else if rest == [] {
      assert rest + [last] == [last];
    } else {
      assert rest[0] in rest;
      SelectsMatches(init, name, kind, project, rest[0]);
      var j :| 0 <= j < |init| && init[j] == rest[0];
      assert rows[j] == init[j];
      SelectsMatches(init, name, kind, project, last);
      assert |rest + [last]| > 1;
    }
  }

  /** A name stands for a credential exactly if that credential alone has the name and type in the project. */
  lemma UniqueByNameExactly(db: Database, name: Name, kind: CredentialType)
    ensures forall i :: 0 <= i < |db.rows| ==>
              (UniqueByName(db, name, kind) == Some(db.rows[i]) <==>
               && db.rows[i].name == name && db.rows[i].kind == kind && db.project in db.rows[i].projects
               && forall j :: 0 <= j < |db.rows| && j != i && db.rows[j].name == name && db.rows[j].kind == kind ==>
                    db.project !in db.rows[j].projects)
    ensures UniqueByName(db, name, kind).None? <==>
            forall i :: 0 <= i < |db.rows| && db.rows[i].name == name && db.rows[i].kind == kind
                        && db.project in db.rows[i].projects ==>
              exists j :: 0 <= j < |db.rows| && j != i && db.rows[j].name == name && db.rows[j].kind == kind
                          && db.project in db.rows[j].projects
  {
    forall i | 0 <= i < |db.rows|
      ensures UniqueByName(db, name, kind) == Some(db.rows[i]) <==>
              Select(db.rows, name, kind, db.project) == [db.rows[i]]
    {
    }
    forall i | 0 <= i < |db.rows| {
      SelectedAlone(db.rows, name, kind, db.project, i);
    }
    if UniqueByName(db, name, kind).Some? {
      var i :| 0 <= i < |db.rows| && db.rows[i] == UniqueByName(db, name, kind).value;
    }
  }

  function Resolve(db: Database, slot: Slot): Credential {
    match slot.credential
    case Missing => Missing
    case Managed => Managed
    case ByName(name) =>
      var row := UniqueByName(db, name, slot.kind);
      if row.Some? then Reference(row.value) else ByName(name)
    case Details(id, name) =>
      var row := if id.Some? then FindOneBy(db, id.value, slot.kind) else None;
      var named := UniqueByName(db, name, slot.kind);
      if row.Some? then Reference(row.value)
      else if named.Some? then Reference(named.value)
      else slot.credential
  }

  /** A reference comes to stand for a row by its id, or, where no row has that id, by being the only one of its
      name and type in the project. */
  lemma ResolvesExactly(db: Database, slot: Slot, i: nat)
    requires UniqueIds(db) && i < |db.rows| && (slot.credential.ByName? || slot.credential.Details?)
    ensures var c, row := slot.credential, db.rows[i];
            var known := c.Details? && c.id.Some?
                         && exists j :: 0 <= j < |db.rows| && Some(db.rows[j].id) == c.id && db.rows[j].kind == slot.kind;
            var named := && row.name == c.name && row.kind == slot.kind && db.project in row.projects
                         && forall j :: 0 <= j < |db.rows| && j != i && db.rows[j].name == c.name && db.rows[j].kind == slot.kind ==>
                              db.project !in db.rows[j].projects;
            (if known then Some(row.id) == c.id && row.kind == slot.kind else named) ==>
              Resolve(db, slot) == Details(Some(row.id), row.name)
  {
    UniqueByNameExactly(db, slot.credential.name, slot.kind);
    if slot.credential.Details? && slot.credential.id.Some? {
      forall j | 0 <= j < |db.rows| && db.rows[j].kind == slot.kind
        ensures FindOneBy(db, db.rows[j].id, slot.kind) == Some(db.rows[j])
      {
        FoundByItsId(db, db.rows[j]);
      }
    }
  }

  /** Otherwise it stays as it is: not there, managed, or with no row of its id and none or several of its name. */
  lemma StaysAsItIs(db: Database, slot: Slot)
    requires slot.credential.ByName? || slot.credential.Details? ==>
               forall i :: 0 <= i < |db.rows| && db.rows[i].kind == slot.kind ==>
                 && !(slot.credential.Details? && slot.credential.id == Some(db.rows[i].id))
                 && (db.rows[i].name == slot.credential.name && db.project in db.rows[i].projects ==>
                     exists j :: 0 <= j < |db.rows| && j != i && db.rows[j].name == slot.credential.name
                                 && db.rows[j].kind == slot.kind && db.project in db.rows[j].projects)
    ensures Resolve(db, slot) == slot.credential
  {
    if slot.credential.ByName? || slot.credential.Details? {
      UniqueByNameExactly(db, slot.credential.name, slot.kind);
    }
  }

  /** Equal, or the same unresolved name written once as a string and once as a record without id. */
  predicate Alike(a: Credential, b: Credential) {
    a == b || (b.ByName? && a == Details(None, b.name)) || (a.ByName? && b == Details(None, a.name))
  }

  // ---------------------------------------------------------------- With caches

  /** `queries` lists the (type, name) pairs looked up for old-style references. */
  datatype Caches = Caches(byName: map<(CredentialType, Name), Credential>,
                           byId: map<(CredentialType, Id), Credential>,
                           queries: seq<(CredentialType, Name)>)

  const NO_CACHE := Caches(map[], map[], [])

  predicate OldStyle(c: Credential) {
    c.ByName? || (c.Details? && c.id.None?)
  }

  function ReplaceByName(db: Database, s: Caches, slot: Slot): (Caches, Credential)
    requires OldStyle(slot.credential)
  {
    var name := slot.credential.name;
    var key := (slot.kind, name);
    if key in s.byName then (s, s.byName[key])
    else
      var row := UniqueByName(db, name, slot.kind);
      var looked := s.(queries := s.queries + [key]);
      if row.Some? then (looked.(byName := s.byName[key := Reference(row.value)]), Reference(row.value))
      else (looked.(byName := s.byName[key := Details(None, name)]), slot.credential)
  }

  function ReplaceById(db: Database, s: Caches, kind: CredentialType, id: Id, name: Name): (Caches, Credential) {
    if (kind, id) in s.byId then (s, s.byId[(kind, id)])
    else
      var row := FindOneBy(db, id, kind);
      var named := UniqueByName(db, name, kind);
      if row.Some? then (s.(byId := s.byId[(kind, id) := Reference(row.value)]), Reference(row.value))
      else if named.Some? then
        (s.(byId := s.byId[(kind, named.value.id) := Reference(named.value)]), Reference(named.value))
      else (s.(byId := s.byId[(kind, id) := Details(Some(id), name)]), Details(Some(id), name))
  }

  function Replace(db: Database, s: Caches, slot: Slot): (Caches, Credential) {
    match slot.credential
    case Missing => (s, Missing)
    case Managed => (s, Managed)
    case ByName(_) => ReplaceByName(db, s, slot)
    case Details(None, _) => ReplaceByName(db, s, slot)
    case Details(Some(id), name) => ReplaceById(db, s, slot.kind, id, name)
  }

  /** What one repair answers and which of the two caches it adds to, case by case. */
  lemma ReplacesExactly(db: Database, s: Caches, slot: Slot, s': Caches, c: Credential)
    requires (s', c) == Replace(db, s, slot)
    ensures slot.credential in {Missing, Managed} ==> s' == s && c == slot.credential
    ensures slot.credential.ByName? || (slot.credential.Details? && slot.credential.id.None?) ==>
            var key := (slot.kind, slot.credential.name);
            var row := UniqueByName(db, slot.credential.name, slot.kind);
            && s'.byId == s.byId
            && (key in s.byName ==> s' == s && c == s.byName[key])
            && (key !in s.byName ==>
                && s'.queries == s.queries + [key]
                && c == (if row.Some? then Details(Some(row.value.id), row.value.name) else slot.credential)
                && s'.byName == s.byName[key := if row.Some? then c else Details(None, slot.credential.name)])
    ensures slot.credential.Details? && slot.credential.id.Some? ==>
            var key := (slot.kind, slot.credential.id.value);
            var found, row := FindOneBy(db, key.1, slot.kind), UniqueByName(db, slot.credential.name, slot.kind);
            && s'.byName == s.byName && s'.queries == s.queries
            && (key in s.byId ==> s' == s && c == s.byId[key])
            && (key !in s.byId ==> s'.byId == s.byId[(slot.kind, c.id.value) := c])
            && (key !in s.byId ==>
                c == if found.Some? then Details(Some(key.1), found.value.name)
                     else if row.Some? then Details(Some(row.value.id), row.value.name) else slot.credential)
  {
  }

  function ReplaceSlots(db: Database, s: Caches, slots: seq<Slot>): (r: (Caches, seq<Slot>))
    ensures |r.1| == |slots|
  {
    if slots == [] then (s, [])
    else
      var last := slots[|slots| - 1];
      var before := ReplaceSlots(db, s, slots[..|slots| - 1]);
      var step := Replace(db, before.0, last);
      (step.0, before.1 + [last.(credential := step.1)])
  }

  function ReplaceNodes(db: Database, nodes: seq<Node>): (r: (Caches, seq<Node>))
    ensures |r.1| == |nodes|
  {
    if nodes == [] then (NO_CACHE, [])
    else
      var last := nodes[|nodes| - 1];
      var before := ReplaceNodes(db, nodes[..|nodes| - 1]);
      if last.disabled then (before.0, before.1 + [last])
      else
        var slots := ReplaceSlots(db, before.0, last.credentials);
        (slots.0, before.1 + [last.(credentials := slots.1)])
  }

  /** The references of the enabled nodes, in the order they are visited. */
  function Live(nodes: seq<Node>): seq<Slot> {
    if nodes == [] then []
    else
      var last := nodes[|nodes| - 1];
      Live(nodes[..|nodes| - 1]) + (if last.disabled then [] else last.credentials)
  }

  // ---------------------------------------------------------------- The loop

  method ReplaceInvalidCredentials(db: Database, nodes: array<Node>)
    modifies nodes
    ensures nodes[..] == ReplaceNodes(db, old(nodes[..])).1
    ensures forall i :: 0 <= i < nodes.Length ==>
              && nodes[i].disabled == old(nodes[i].disabled) && (nodes[i].disabled ==> nodes[i] == old(nodes[i]))
              && SameSlots(old(nodes[i].credentials), nodes[i].credentials)
  {
    ghost var was := nodes[..];
    var caches := NO_CACHE;
    for i := 0 to nodes.Length
      invariant (caches, nodes[..i]) == ReplaceNodes(db, was[..i])
      invariant nodes[i..] == was[i..]
    {
      NextNode(db, was, i);
      ghost var done := nodes[..i];
      assert nodes[i] == was[i];
      if !nodes[i].disabled {
        caches := ReplaceNodeCredentials(db, caches, nodes, i);
      }
      assert nodes[..i + 1] == done + [nodes[i]];
    }
    assert was[..nodes.Length] == was;
    KeepsShape(db, was);
    assert forall i :: 0 <= i < nodes.Length ==> nodes[i] == nodes[..][i] && old(nodes[i]) == was[i];
  }

  lemma NextNode(db: Database, nodes: seq<Node>, i: nat)
    requires i < |nodes|
    ensures var before := ReplaceNodes(db, nodes[..i]);
            var slots := ReplaceSlots(db, before.0, nodes[i].credentials);
            ReplaceNodes(db, nodes[..i + 1])
            == if nodes[i].disabled then (before.0, before.1 + [nodes[i]])
               else (slots.0, before.1 + [nodes[i].(credentials := slots.1)])
  {
    assert nodes[..i + 1][..i] == nodes[..i];
  }

  lemma NextSlot(db: Database, s: Caches, slots: seq<Slot>, j: nat)
    requires j < |slots|
    ensures var before := ReplaceSlots(db, s, slots[..j]);
            var step := Replace(db, before.0, slots[j]);
            ReplaceSlots(db, s, slots[..j + 1]) == (step.0, before.1 + [slots[j].(credential := step.1)])
  {
    assert slots[..j + 1][..j] == slots[..j];
  }

  /** The inner loop, over the references of one node. */
  method ReplaceNodeCredentials(db: Database, s: Caches, nodes: array<Node>, i: nat) returns (s': Caches)
    requires i < nodes.Length
    modifies nodes
    ensures var r := ReplaceSlots(db, s, old(nodes[i]).credentials);
            s' == r.0 && nodes[..] == old(nodes[..])[i := old(nodes[i]).(credentials := r.1)]
  {
    ghost var slots := nodes[i].credentials;
    s' := s;
    for j := 0 to |nodes[i].credentials|
      invariant |nodes[i].credentials| == |slots|
      invariant nodes[..] == old(nodes[..])[i := old(nodes[i]).(credentials := nodes[i].credentials)]
      invariant (s', nodes[i].credentials[..j]) == ReplaceSlots(db, s, slots[..j])
      invariant nodes[i].credentials[j..] == slots[j..]
    {
      NextSlot(db, s, slots, j);
      var slot := nodes[i].credentials[j];
      assert slot == slots[j];
      var c: Credential;
      s', c := ReplaceSlot(db, s', slot);
      ghost var ready := nodes[i].credentials[..j];
      ghost var left := nodes[i].credentials[j + 1..];
      assert (s', ready + [slot.(credential := c)]) == ReplaceSlots(db, s, slots[..j + 1]);
      nodes[i] := nodes[i].(credentials := nodes[i].credentials[j := slot.(credential := c)]);
      assert nodes[i].credentials[..j + 1] == ready + [slot.(credential := c)];
      assert nodes[i].credentials[j + 1..] == left;
    }
    assert slots[..|slots|] == slots && nodes[i].credentials[..|slots|] == nodes[i].credentials;
  }

  /** One reference: skip, look up by name, or look up by id and then by name. */
  method ReplaceSlot(db: Database, s: Caches, slot: Slot) returns (s': Caches, c: Credential)
    ensures (s', c) == Replace(db, s, slot)
  {
    s', c := s, slot.credential;
    if c.Missing? || c.Managed? {
      return;
    }
    if c.ByName? || c.id.None? {
      var key := (slot.kind, c.name);
      if key !in s.byName {
        var credentials := FindByNameAndTypeInProject(db, c.name, slot.kind);
        s' := s'.(queries := s.queries + [key]);
        if |credentials| == 1 {
          s' := s'.(byName := s.byName[key := Reference(credentials[0])]);
          return s', s'.byName[key];
        }
        s' := s'.(byName := s.byName[key := Details(None, c.name)]);
      } else {
        c := s.byName[key];
      }
      return;
    }
    var key := (slot.kind, c.id.value);
    if key !in s.byId {
      var credential := FindOneBy(db, c.id.value, slot.kind);
      if credential.Some? {
        s' := s.(byId := s.byId[key := Reference(credential.value)]);
        return s', s'.byId[key];
      }
      var credsByName := FindByNameAndTypeInProject(db, c.name, slot.kind);
      if |credsByName| == 1 {
        var found := (slot.kind, credsByName[0].id);
        s' := s.(byId := s.byId[found := Reference(credsByName[0])]);
        return s', s'.byId[found];
      }
      s' := s.(byId := s.byId[key := c]);
      return;
    }
    c := s.byId[key];
  }

  // ---------------------------------------------------------------- Nodes and slots

  lemma {:induction false} ReplaceConcat(db: Database, s: Caches, a: seq<Slot>, b: seq<Slot>)
    ensures var first := ReplaceSlots(db, s, a);
            var second := ReplaceSlots(db, first.0, b);
            ReplaceSlots(db, s, a + b) == (second.0, first.1 + second.1)
    decreases |b|
  {
    if b == [] {
      assert a + b == a;
      assert ReplaceSlots(db, s, a).1 + [] == ReplaceSlots(db, s, a).1;
    } else {
      var init := b[..|b| - 1];
      ReplaceConcat(db, s, a, init);
      assert (a + b)[..|a + b| - 1] == a + init;
      var first := ReplaceSlots(db, s, a);
      assert first.1 + ReplaceSlots(db, first.0, b).1
          == (first.1 + ReplaceSlots(db, first.0, init).1) + [ReplaceSlots(db, first.0, b).1[|b| - 1]];
    }
  }

  /** Same nodes, apart from the credentials in the slots of enabled ones. */
  predicate SameShape(a: seq<Node>, b: seq<Node>) {
    && |a| == |b|
    && forall i :: 0 <= i < |a| ==>
         && a[i].disabled == b[i].disabled
         && (a[i].disabled ==> a[i] == b[i])
         && SameSlots(a[i].credentials, b[i].credentials)
  }

  /** Same types, and nothing done to absent or managed references. */
  predicate SameSlots(a: seq<Slot>, b: seq<Slot>) {
    && |a| == |b|
    && forall j :: 0 <= j < |a| ==>
         && a[j].kind == b[j].kind
         && (a[j].credential.Missing? || a[j].credential.Managed? ==> a[j] == b[j])
  }

  lemma {:induction false} KeepsSlots(db: Database, s: Caches, slots: seq<Slot>)
    ensures SameSlots(slots, ReplaceSlots(db, s, slots).1)
  {
    if slots != [] {
      KeepsSlots(db, s, slots[..|slots| - 1]);
    }
  }

  lemma LiveSnoc(nodes: seq<Node>, last: Node)
    ensures Live(nodes + [last]) == Live(nodes) + (if last.disabled then [] else last.credentials)
  {
    assert (nodes + [last])[..|nodes|] == nodes;
  }

  /** The nodes are repaired as their live slots are, one after the other. */
  predicate SharedCaches(db: Database, nodes: seq<Node>) {
    var r := ReplaceNodes(db, nodes);
    (r.0, Live(r.1)) == ReplaceSlots(db, NO_CACHE, Live(nodes))
  }

  /** One node more, after nodes for which the shared caches have been accounted for. */
  lemma OneMoreNode(db: Database, init: seq<Node>, last: Node)
    requires SharedCaches(db, init)
    ensures SharedCaches(db, init + [last])
  {
    var before := ReplaceNodes(db, init);
    assert (init + [last])[..|init|] == init;
    LiveSnoc(init, last);
    if last.disabled {
      LiveSnoc(before.1, last);
      assert Live(before.1) + [] == Live(before.1) && Live(init) + [] == Live(init);
    } else {
      LiveSnoc(before.1, last.(credentials := ReplaceSlots(db, before.0, last.credentials).1));
      ReplaceConcat(db, NO_CACHE, Live(init), last.credentials);
    }
  }

  lemma {:induction false} KeepsShape(db: Database, nodes: seq<Node>)
    ensures SameShape(nodes, ReplaceNodes(db, nodes).1)
  {
    if nodes != [] {
      KeepsShape(db, nodes[..|nodes| - 1]);
      KeepsSlots(db, ReplaceNodes(db, nodes[..|nodes| - 1]).0, nodes[|nodes| - 1].credentials);
    }
  }

  lemma {:induction false} CachesAreShared(db: Database, nodes: seq<Node>)
    ensures SharedCaches(db, nodes)
    decreases |nodes|
  {
    if nodes != [] {
      assert nodes == nodes[..|nodes| - 1] + [nodes[|nodes| - 1]];
      CachesAreShared(db, nodes[..|nodes| - 1]);
      OneMoreNode(db, nodes[..|nodes| - 1], nodes[|nodes| - 1]);
    }
  }

  /** One pair of caches serves all enabled nodes in order, and disabled nodes do not take part. */
  lemma NodesShareCaches(db: Database, nodes: seq<Node>)
    ensures var r := ReplaceNodes(db, nodes);
            && (r.0, Live(r.1)) == ReplaceSlots(db, NO_CACHE, Live(nodes))
            && SameShape(nodes, r.1)
  {
    CachesAreShared(db, nodes);
    KeepsShape(db, nodes);
  }

  // ---------------------------------------------------------------- What the caches hold

  predicate CachesSound(db: Database, s: Caches) {
    && (forall key :: key in s.byName ==> NameEntry(db, key, s.byName[key]))
    && (forall key :: key in s.byId ==> IdEntry(db, key, s.byId[key]))
  }

  predicate NameEntry(db: Database, key: (CredentialType, Name), c: Credential) {
    var row := UniqueByName(db, key.1, key.0);
    c == if row.Some? then Reference(row.value) else Details(None, key.1)
  }

  predicate IdEntry(db: Database, key: (CredentialType, Id), c: Credential) {
    var row := FindOneBy(db, key.1, key.0);
    if row.Some? then c == Reference(row.value)
    else c.Details? && c.id == Some(key.1) && UniqueByName(db, c.name, key.0).None?
  }

  lemma ReplaceKeepsSound(db: Database, s: Caches, slot: Slot)
    requires UniqueIds(db) && CachesSound(db, s)
    ensures CachesSound(db, Replace(db, s, slot).0)
  {
    if slot.credential.Details? && slot.credential.id.Some? {
      var named := UniqueByName(db, slot.credential.name, slot.kind);
      if named.Some? {
        FoundByItsId(db, named.value);
      }
    }
  }

  /** A missing id whose cached record carries another name: the one case where the cache misleads. */
  predicate Misled(db: Database, s: Caches, slot: Slot) {
    && slot.credential.Details? && slot.credential.id.Some?
    && FindOneBy(db, slot.credential.id.value, slot.kind).None?
    && (slot.kind, slot.credential.id.value) in s.byId
    && s.byId[(slot.kind, slot.credential.id.value)] != slot.credential
  }

  lemma AlikeExactly(db: Database, s: Caches, slot: Slot)
    requires UniqueIds(db) && CachesSound(db, s)
    ensures Alike(Replace(db, s, slot).1, Resolve(db, slot)) <==> !Misled(db, s, slot)
  {
  }

  // ---------------------------------------------------------------- Agreement

  /** A reference by an id the database lacks, under a name that does not resolve either. */
  predicate Hopeless(db: Database, slot: Slot) {
    && slot.credential.Details? && slot.credential.id.Some?
    && FindOneBy(db, slot.credential.id.value, slot.kind).None?
    && UniqueByName(db, slot.credential.name, slot.kind).None?
  }

  predicate SameId(a: Slot, b: Slot) {
    && a.kind == b.kind && a.credential.Details? && b.credential.Details?
    && a.credential.id.Some? && a.credential.id == b.credential.id
  }

  /** No hopeless reference is followed by the same id under another name. */
  predicate OneNamePerMissingId(db: Database, slots: seq<Slot>) {
    forall i, j :: 0 <= i < j < |slots| && Hopeless(db, slots[i]) && SameId(slots[i], slots[j]) ==>
      slots[i].credential.name == slots[j].credential.name
  }

  predicate Agrees(db: Database, slots: seq<Slot>) {
    var out := ReplaceSlots(db, NO_CACHE, slots).1;
    forall k :: 0 <= k < |slots| ==> Alike(out[k].credential, Resolve(db, slots[k]))
  }

  lemma {:induction false} CachesStaySound(db: Database, slots: seq<Slot>)
    requires UniqueIds(db)
    ensures CachesSound(db, ReplaceSlots(db, NO_CACHE, slots).0)
  {
    if slots != [] {
      CachesStaySound(db, slots[..|slots| - 1]);
      ReplaceKeepsSound(db, ReplaceSlots(db, NO_CACHE, slots[..|slots| - 1]).0, slots[|slots| - 1]);
    }
  }

  /** The hopeless reference that put the entry of a missing id into the cache. */
  ghost predicate FirstHopeless(db: Database, slots: seq<Slot>, key: (CredentialType, Id), c: Credential) {
    && c.Details? && c.id == Some(key.1)
    && exists i :: 0 <= i < |slots| && Hopeless(db, slots[i]) && slots[i] == Slot(key.0, c)
  }

  /** A missing id is cached exactly once a hopeless reference to it was seen, as one of those references. */
  lemma {:induction false} MissingIdCached(db: Database, slots: seq<Slot>, key: (CredentialType, Id))
    requires UniqueIds(db) && FindOneBy(db, key.1, key.0).None?
    ensures var s := ReplaceSlots(db, NO_CACHE, slots).0;
            && (key in s.byId ==> FirstHopeless(db, slots, key, s.byId[key]))
            && (key in s.byId <==> exists i :: 0 <= i < |slots| && Hopeless(db, slots[i])
                                     && slots[i].kind == key.0 && slots[i].credential.id.value == key.1)
  {
    if slots != [] {
      var init, last := slots[..|slots| - 1], slots[|slots| - 1];
      MissingIdCached(db, init, key);
      var s := ReplaceSlots(db, NO_CACHE, init).0;
      var s' := ReplaceSlots(db, NO_CACHE, slots).0;
      if key in s.byId {
        var i :| 0 <= i < |init| && Hopeless(db, init[i]) && init[i] == Slot(key.0, s.byId[key]);
        assert slots[i] == init[i];
      }
      if last.credential.Details? && last.credential.id.Some? {
        var named := UniqueByName(db, last.credential.name, last.kind);
        if named.Some? {
          FoundByItsId(db, named.value);
        }
      }
      assert key in s'.byId && key !in s.byId ==> Hopeless(db, last) && slots[|slots| - 1] == last;
      forall i | 0 <= i < |slots| && Hopeless(db, slots[i]) && slots[i].kind == key.0
                 && slots[i].credential.id.value == key.1
        ensures key in s'.byId
      {
        if i < |init| {
          assert init[i] == slots[i];
        }
      }
    }
  }

  /** The cached loop finds what a resolver without caches finds exactly when no hopeless reference is
      followed by the same id under another name. */
  lemma {:induction false} AgreesExactly(db: Database, slots: seq<Slot>)
    requires UniqueIds(db)
    ensures Agrees(db, slots) <==> OneNamePerMissingId(db, slots)
  {
    if slots != [] {
      var init, last := slots[..|slots| - 1], slots[|slots| - 1];
      AgreesExactly(db, init);
      CachesStaySound(db, init);
      var s := ReplaceSlots(db, NO_CACHE, init).0;
      AlikeExactly(db, s, last);
      assert Agrees(db, slots) <==> Agrees(db, init) && !Misled(db, s, last) by {
        var out := ReplaceSlots(db, NO_CACHE, slots).1;
        assert out[..|init|] == ReplaceSlots(db, NO_CACHE, init).1;
        assert forall k :: 0 <= k < |init| ==> out[k] == ReplaceSlots(db, NO_CACHE, init).1[k] && init[k] == slots[k];
      }
      LastNameExactly(db, init, last);
      assert slots == init + [last];
    }
  }

  lemma LastNameExactly(db: Database, init: seq<Slot>, last: Slot)
    requires UniqueIds(db)
    ensures OneNamePerMissingId(db, init + [last]) <==>
            OneNamePerMissingId(db, init) && !Misled(db, ReplaceSlots(db, NO_CACHE, init).0, last)
  {
    var slots := init + [last];
    var s := ReplaceSlots(db, NO_CACHE, init).0;
    assert forall i :: 0 <= i < |init| ==> slots[i] == init[i];
    if last.credential.Details? && last.credential.id.Some?
       && FindOneBy(db, last.credential.id.value, last.kind).None? {
      var key := (last.kind, last.credential.id.value);
      MissingIdCached(db, init, key);
      if key in s.byId {
        var i :| 0 <= i < |init| && Hopeless(db, init[i]) && init[i] == Slot(key.0, s.byId[key]);
        assert SameId(slots[i], slots[|init|]);
        if OneNamePerMissingId(db, init) && !Misled(db, s, last) {
          forall j | 0 <= j < |init| && Hopeless(db, slots[j]) && SameId(slots[j], last)
            ensures slots[j].credential.name == last.credential.name
          {
            assert i < j ==> SameId(init[i], init[j]);
            assert j < i ==> SameId(init[j], init[i]);
          }
        }
      }
    }
  }

  const ONLY_B := Database([Row("1", "api", "B", {"p"})], "p")
  const RENAMED := [Slot("api", Details(Some("gone"), "A")), Slot("api", Details(Some("gone"), "B"))]

  /** The second reference would resolve by its name, but gets the first one's dead record instead. */
  lemma RenamedMissingIdIsLost()
    ensures UniqueIds(ONLY_B) && !Agrees(ONLY_B, RENAMED)
    ensures Resolve(ONLY_B, RENAMED[1]) == Details(Some("1"), "B")
    ensures ReplaceSlots(ONLY_B, NO_CACHE, RENAMED).1[1] == RENAMED[0]
  {
  }

  // ---------------------------------------------------------------- Idempotence

  /** The caches of a second run over the first run's output, compared with the first run's. */
  ghost predicate Behind(db: Database, first: Caches, second: Caches) {
    && second.byName.Keys <= first.byName.Keys
    && (forall key {:trigger BehindAt(db, first, second, key)} :: BehindAt(db, first, second, key))
  }

  predicate BehindAt(db: Database, first: Caches, second: Caches, key: (CredentialType, Id)) {
    key in second.byId && FindOneBy(db, key.1, key.0).None? ==>
      key in first.byId && first.byId[key] == second.byId[key]
  }

  /** The name leads to a row: the second run finds that row by its id. */
  lemma SecondRunNamed(db: Database, first: Caches, second: Caches, slot: Slot)
    requires UniqueIds(db) && CachesSound(db, first) && CachesSound(db, second) && Behind(db, first, second)
    requires OldStyle(slot.credential) && UniqueByName(db, slot.credential.name, slot.kind).Some?
    ensures var row := UniqueByName(db, slot.credential.name, slot.kind).value;
            var (first', c) := ReplaceByName(db, first, slot);
            var (second', c') := ReplaceById(db, second, slot.kind, row.id, row.name);
            c == c' == Reference(row) && Behind(db, first', second')
  {
    var row := UniqueByName(db, slot.credential.name, slot.kind).value;
    var key, id := (slot.kind, slot.credential.name), (slot.kind, row.id);
    FoundByItsId(db, row);
    assert key in first.byName ==> NameEntry(db, key, first.byName[key]);
    assert id in second.byId ==> IdEntry(db, id, second.byId[id]);
    var first', second' := ReplaceByName(db, first, slot).0, ReplaceById(db, second, slot.kind, row.id, row.name).0;
    forall k
      ensures BehindAt(db, first', second', k)
    {
      assert BehindAt(db, first, second, k);
    }
  }

  /** The name stays unresolved: as it was where it came first, as a record without id after that. */
  lemma SecondRunUnnamed(db: Database, first: Caches, second: Caches, slot: Slot)
    requires CachesSound(db, first) && CachesSound(db, second) && Behind(db, first, second)
    requires OldStyle(slot.credential) && UniqueByName(db, slot.credential.name, slot.kind).None?
    ensures var (first', c) := ReplaceByName(db, first, slot);
            OldStyle(c)
            && var (second', c') := ReplaceByName(db, second, slot.(credential := c));
            c' == c && Behind(db, first', second')
  {
    var key := (slot.kind, slot.credential.name);
    assert key in first.byName ==> NameEntry(db, key, first.byName[key]);
    assert key in second.byName ==> NameEntry(db, key, second.byName[key]);
    var (first', c) := ReplaceByName(db, first, slot);
    var second' := ReplaceByName(db, second, slot.(credential := c)).0;
    forall k
      ensures BehindAt(db, first', second', k)
    {
      assert BehindAt(db, first, second, k);
    }
  }

  /** The id is in the database: both runs end with its row. */
  lemma SecondRunFound(db: Database, first: Caches, second: Caches, kind: CredentialType, row: Row, name: Name)
    requires UniqueIds(db) && CachesSound(db, first) && CachesSound(db, second) && Behind(db, first, second)
    requires FindOneBy(db, row.id, kind) == Some(row)
    ensures var (first', c) := ReplaceById(db, first, kind, row.id, name);
            var (second', c') := ReplaceById(db, second, kind, row.id, row.name);
            c == c' == Reference(row) && Behind(db, first', second')
  {
    var key := (kind, row.id);
    assert key in first.byId ==> IdEntry(db, key, first.byId[key]);
    assert key in second.byId ==> IdEntry(db, key, second.byId[key]);
    var first', second' := ReplaceById(db, first, kind, row.id, name).0, ReplaceById(db, second, kind, row.id, row.name).0;
    forall k
      ensures BehindAt(db, first', second', k)
    {
      assert BehindAt(db, first, second, k);
    }
  }

  /** The id is missing, but the name leads to a row: the second run finds that row by its id. */
  lemma SecondRunRenamed(db: Database, first: Caches, second: Caches, kind: CredentialType, id: Id, name: Name)
    requires UniqueIds(db) && CachesSound(db, first) && CachesSound(db, second) && Behind(db, first, second)
    requires FindOneBy(db, id, kind).None? && UniqueByName(db, name, kind).Some? && (kind, id) !in first.byId
    ensures var (first', c) := ReplaceById(db, first, kind, id, name);
            c.Details? && c.id.Some?
            && var (second', c') := ReplaceById(db, second, kind, c.id.value, c.name);
            c' == c && Behind(db, first', second')
  {
    var row := UniqueByName(db, name, kind).value;
    FoundByItsId(db, row);
    var key := (kind, row.id);
    assert key in second.byId ==> IdEntry(db, key, second.byId[key]);
    var first' := ReplaceById(db, first, kind, id, name).0;
    var second' := ReplaceById(db, second, kind, row.id, row.name).0;
    forall k
      ensures BehindAt(db, first', second', k)
    {
      assert BehindAt(db, first, second, k);
    }
  }

  /** The id is missing and either cached or without a name to go by: its first record stands. */
  lemma SecondRunHopeless(db: Database, first: Caches, second: Caches, kind: CredentialType, id: Id, name: Name)
    requires UniqueIds(db) && CachesSound(db, first) && CachesSound(db, second) && Behind(db, first, second)
    requires FindOneBy(db, id, kind).None? && (UniqueByName(db, name, kind).None? || (kind, id) in first.byId)
    ensures var (first', c) := ReplaceById(db, first, kind, id, name);
            c.Details? && c.id == Some(id)
            && var (second', c') := ReplaceById(db, second, kind, id, c.name);
            c' == c && Behind(db, first', second')
  {
    var key := (kind, id);
    assert key in first.byId ==> IdEntry(db, key, first.byId[key]);
    assert BehindAt(db, first, second, key);
    var (first', c) := ReplaceById(db, first, kind, id, name);
    var second' := ReplaceById(db, second, kind, id, c.name).0;
    forall k
      ensures BehindAt(db, first', second', k)
    {
      assert BehindAt(db, first, second, k);
    }
  }

  lemma SecondRunStep(db: Database, first: Caches, second: Caches, slot: Slot)
    requires UniqueIds(db) && CachesSound(db, first) && CachesSound(db, second) && Behind(db, first, second)
    ensures var (first', c) := Replace(db, first, slot);
            var (second', c') := Replace(db, second, slot.(credential := c));
            c' == c && Behind(db, first', second')
  {
    if OldStyle(slot.credential) {
      if UniqueByName(db, slot.credential.name, slot.kind).Some? {
        SecondRunNamed(db, first, second, slot);
      } else {
        SecondRunUnnamed(db, first, second, slot);
      }
    } else if slot.credential.Details? {
      var id, name := slot.credential.id.value, slot.credential.name;
      var row := FindOneBy(db, id, slot.kind);
      if row.Some? {
        SecondRunFound(db, first, second, slot.kind, row.value, name);
      } else if UniqueByName(db, name, slot.kind).None? || (slot.kind, id) in first.byId {
        SecondRunHopeless(db, first, second, slot.kind, id, name);
      } else {
        SecondRunRenamed(db, first, second, slot.kind, id, name);
      }
    }
  }

  lemma {:induction false} SecondRunBehind(db: Database, slots: seq<Slot>)
    requires UniqueIds(db)
    ensures var once := ReplaceSlots(db, NO_CACHE, slots);
            var twice := ReplaceSlots(db, NO_CACHE, once.1);
            twice.1 == once.1 && Behind(db, once.0, twice.0)
  {
    if slots != [] {
      var init, last := slots[..|slots| - 1], slots[|slots| - 1];
      SecondRunBehind(db, init);
      var before := ReplaceSlots(db, NO_CACHE, init);
      var once := ReplaceSlots(db, NO_CACHE, slots);
      CachesStaySound(db, init);
      CachesStaySound(db, before.1);
      assert once.1[..|slots| - 1] == before.1;
      SecondRunStep(db, before.0, ReplaceSlots(db, NO_CACHE, before.1).0, last);
    }
  }

  /** Repairing a repaired workflow against the same database changes nothing, whatever the names. */
  lemma {:induction false} Idempotent(db: Database, nodes: seq<Node>)
    requires UniqueIds(db)
    ensures var once := ReplaceNodes(db, nodes).1; ReplaceNodes(db, once).1 == once
  {
    var once := ReplaceNodes(db, nodes).1;
    var twice := ReplaceNodes(db, once).1;
    NodesShareCaches(db, nodes);
    NodesShareCaches(db, once);
    SecondRunBehind(db, Live(nodes));
    SameLiveSameNodes(once, twice);
  }

  lemma {:induction false} SameLiveSameNodes(a: seq<Node>, b: seq<Node>)
    requires SameShape(a, b) && Live(a) == Live(b)
    ensures a == b
  {
    if a != [] {
      var n := |a| - 1;
      var la, lb := Live(a[..n]), Live(b[..n]);
      assert a[n].disabled ==> la + [] == la && lb + [] == lb;
      var ta := if a[n].disabled then [] else a[n].credentials;
      var tb := if b[n].disabled then [] else b[n].credentials;
      assert |la| == |lb| && |ta| == |tb|;
      assert la == (la + ta)[..|la|] && lb == (lb + tb)[..|lb|];
      assert ta == (la + ta)[|la|..] && tb == (lb + tb)[|lb|..];
      SameLiveSameNodes(a[..n], b[..n]);
      assert a == a[..n] + [a[n]] && b == b[..n] + [b[n]];
    }
  }

  // ---------------------------------------------------------------- Queries by name

  function OldStyleKeys(slots: seq<Slot>): set<(CredentialType, Name)> {
    set slot | slot in slots && OldStyle(slot.credential) :: (slot.kind, slot.credential.name)
  }

  predicate Distinct<T(==)>(s: seq<T>) {
    forall i, j :: 0 <= i < j < |s| ==> s[i] != s[j]
  }

  /** Every (type, name) pair of an old-style reference is looked up, and looked up once. */
  lemma {:induction false} EachNameQueriedOnce(db: Database, slots: seq<Slot>)
    ensures var s := ReplaceSlots(db, NO_CACHE, slots).0;
            && Distinct(s.queries)
            && (set q | q in s.queries) == OldStyleKeys(slots) == s.byName.Keys
  {
    if slots != [] {
      var init, last := slots[..|slots| - 1], slots[|slots| - 1];
      EachNameQueriedOnce(db, init);
      var s := ReplaceSlots(db, NO_CACHE, init).0;
      QueriesGrow(db, s, last);
      OldStyleKeysSnoc(init, last);
      assert slots == init + [last];
    }
  }

  lemma OldStyleKeysSnoc(init: seq<Slot>, last: Slot)
    ensures OldStyleKeys(init + [last])
         == OldStyleKeys(init) + (if OldStyle(last.credential) then {(last.kind, last.credential.name)} else {})
  {
  }

  lemma QueriesGrow(db: Database, s: Caches, slot: Slot)
    requires (set q | q in s.queries) == s.byName.Keys && Distinct(s.queries)
    ensures var s', asked := Replace(db, s, slot).0, if OldStyle(slot.credential) then {(slot.kind, slot.credential.name)} else {};
            Distinct(s'.queries) && (set q | q in s'.queries) == s'.byName.Keys == s.byName.Keys + asked
  {
    var s' := Replace(db, s, slot).0;
    assert forall q :: q in s.queries <==> q in s.byName.Keys by {
      assert forall q :: q in s.queries <==> q in set p | p in s.queries;
    }
    if s'.queries != s.queries {
      var key := (slot.kind, slot.credential.name);
      assert s'.queries == s.queries + [key] && key !in s.queries;
      assert (set q | q in s'.queries) == (set q | q in s.queries) + {key};
    }
  }
}
