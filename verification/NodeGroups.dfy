/** The one-pass validation of a workflow's node groups. */
module NodeGroups {
  import opened Wrappers

  type NodeId = string
  type GroupName = string

  datatype Group = Group(name: GroupName, nodeIds: seq<NodeId>)

  datatype BadRequest =
    | DuplicateName(name: GroupName)
    | UnknownNode(group: GroupName, id: NodeId)
    | InTwoGroups(id: NodeId, first: GroupName, second: GroupName)

  // ---------------------------------------------------------------- What is acceptable

  datatype Listing = Listing(group: GroupName, id: NodeId)

  function ListingsOf(group: Group): (r: seq<Listing>)
    ensures |r| == |group.nodeIds|
    ensures forall k :: 0 <= k < |r| ==> r[k] == Listing(group.name, group.nodeIds[k])
  {
    seq(|group.nodeIds|, k requires 0 <= k < |group.nodeIds| => Listing(group.name, group.nodeIds[k]))
  }

  /** All ids the groups list, in order, each with the group that lists it. */
  function Listings(groups: seq<Group>): seq<Listing> {
    if groups == [] then [] else Listings(groups[..|groups| - 1]) + ListingsOf(groups[|groups| - 1])
  }

  predicate DistinctNames(groups: seq<Group>) {
    forall i, j :: 0 <= i < j < |groups| ==> groups[i].name != groups[j].name
  }

  /** The ids a group may list: an empty id counts as no id. */
  predicate Exists(nodes: seq<NodeId>, id: NodeId) {
    id in nodes && id != ""
  }

  predicate AllExist(nodes: seq<NodeId>, listings: seq<Listing>) {
    forall k :: 0 <= k < |listings| ==> Exists(nodes, listings[k].id)
  }

  /** An id may be listed again only after a group with the empty name. */
  predicate OnlyRepeatsUnnamed(listings: seq<Listing>) {
    forall p, q :: 0 <= p < q < |listings| && listings[p].id == listings[q].id ==> listings[p].group == ""
  }

  predicate Acceptable(nodes: seq<NodeId>, groups: seq<Group>) {
    DistinctNames(groups) && AllExist(nodes, Listings(groups)) && OnlyRepeatsUnnamed(Listings(groups))
  }

  predicate ListedOnce(listings: seq<Listing>) {
    forall p, q :: 0 <= p < q < |listings| ==> listings[p].id != listings[q].id
  }

  /** Which complaint is justified by which fact about the workflow. */
  ghost predicate Justified(nodes: seq<NodeId>, groups: seq<Group>, e: BadRequest) {
    match e
    case DuplicateName(name) => exists i, j :: 0 <= i < j < |groups| && groups[i].name == groups[j].name == name
    case UnknownNode(group, id) => Listing(group, id) in Listings(groups) && !Exists(nodes, id)
    case InTwoGroups(id, first, second) =>
      exists p, q :: 0 <= p < q < |Listings(groups)| && first != ""
                     && Listings(groups)[p] == Listing(first, id) && Listings(groups)[q] == Listing(second, id)
  }

  lemma JustifiedRejects(nodes: seq<NodeId>, groups: seq<Group>, e: BadRequest)
    requires Justified(nodes, groups, e)
    ensures !Acceptable(nodes, groups)
  {
  }

  // ---------------------------------------------------------------- The pass

  /** `group` is the last to list `id`. */
  ghost predicate LastToList(listings: seq<Listing>, id: NodeId, group: GroupName) {
    exists k :: 0 <= k < |listings| && listings[k] == Listing(group, id)
                && forall l :: k < l < |listings| ==> listings[l].id != id
  }

  ghost predicate Records(nodeToGroup: map<NodeId, GroupName>, listings: seq<Listing>) {
    && (forall k :: 0 <= k < |listings| ==> listings[k].id in nodeToGroup)
    && (forall id :: id in nodeToGroup ==> LastToList(listings, id, nodeToGroup[id]))
  }

  /** The listings seen so far pass, and the map knows who listed each of them last. */
  ghost predicate Passed(nodes: seq<NodeId>, listings: seq<Listing>, nodeToGroup: map<NodeId, GroupName>) {
    AllExist(nodes, listings) && OnlyRepeatsUnnamed(listings) && Records(nodeToGroup, listings)
  }

  lemma {:induction false} ListingsGrow(groups: seq<Group>, i: nat)
    requires i <= |groups|
    ensures Listings(groups[..i]) <= Listings(groups)
    decreases |groups| - i
  {
    if i == |groups| {
      assert groups[..i] == groups;
    } else {
      ListingsGrow(groups, i + 1);
      assert groups[..i + 1][..i] == groups[..i];
    }
  }

  /** What the last listing of an id says decides whether one more listing is fine. */
  lemma ListOneMore(nodes: seq<NodeId>, listed: seq<Listing>, nodeToGroup: map<NodeId, GroupName>, next: Listing)
    requires Passed(nodes, listed, nodeToGroup) && Exists(nodes, next.id)
    requires next.id in nodeToGroup ==> nodeToGroup[next.id] == ""
    ensures Passed(nodes, listed + [next], nodeToGroup[next.id := next.group])
  {
    var more, after := listed + [next], nodeToGroup[next.id := next.group];
    forall p | 0 <= p < |listed| && listed[p].id == next.id
      ensures listed[p].group == ""
    {
      assert LastToList(listed, next.id, nodeToGroup[next.id]);
    }
    forall id | id in after
      ensures LastToList(more, id, after[id])
    {
      if id == next.id {
        assert more[|listed|] == Listing(after[id], id);
      } else {
        var k :| 0 <= k < |listed| && listed[k] == Listing(nodeToGroup[id], id)
                 && forall l :: k < l < |listed| ==> listed[l].id != id;
        assert more[k] == Listing(after[id], id);
      }
    }
  }

  lemma ListedTwice(nodes: seq<NodeId>, groups: seq<Group>, listed: seq<Listing>,
                    nodeToGroup: map<NodeId, GroupName>, next: Listing)
    requires Passed(nodes, listed, nodeToGroup) && listed + [next] <= Listings(groups)
    requires next.id in nodeToGroup && nodeToGroup[next.id] != ""
    ensures Justified(nodes, groups, InTwoGroups(next.id, nodeToGroup[next.id], next.group))
  {
    assert LastToList(listed, next.id, nodeToGroup[next.id]);
    var k :| 0 <= k < |listed| && listed[k] == Listing(nodeToGroup[next.id], next.id);
    assert (listed + [next])[k] == listed[k] && (listed + [next])[|listed|] == next;
    assert Listings(groups)[k] == listed[k] && Listings(groups)[|listed|] == next;
  }

  lemma NextListing(group: Group, before: seq<Listing>, all: seq<Listing>, groups: seq<Group>, j: nat)
    requires j < |group.nodeIds| && all == before + ListingsOf(group) <= Listings(groups)
    ensures var next := Listing(group.name, group.nodeIds[j]);
            && all[..|before| + j + 1] == all[..|before| + j] + [next]
            && all[..|before| + j] + [next] <= Listings(groups) && next in Listings(groups)
  {
    assert all[|before| + j] == ListingsOf(group)[j];
    assert Listings(groups)[|before| + j] == all[|before| + j];
  }

  /** The two checks on one listed id, and its entry in the map. */
  method ListNode(nodes: seq<NodeId>, nodeIds: set<NodeId>, group: GroupName, nodeId: NodeId,
                  nodeToGroup: map<NodeId, GroupName>, ghost groups: seq<Group>, ghost listed: seq<Listing>)
    returns (error: Option<BadRequest>, after: map<NodeId, GroupName>)
    requires nodeId in nodeIds <==> Exists(nodes, nodeId)
    requires Passed(nodes, listed, nodeToGroup) && listed + [Listing(group, nodeId)] <= Listings(groups)
    ensures error.None? ==> Passed(nodes, listed + [Listing(group, nodeId)], after)
    ensures error.Some? ==> Justified(nodes, groups, error.value)
  {
    error, after := None, nodeToGroup;
    if nodeId !in nodeIds {
      assert (listed + [Listing(group, nodeId)])[|listed|] == Listings(groups)[|listed|];
      return Some(UnknownNode(group, nodeId)), after;
    }
    if nodeId in nodeToGroup && nodeToGroup[nodeId] != "" {
      ListedTwice(nodes, groups, listed, nodeToGroup, Listing(group, nodeId));
      return Some(InTwoGroups(nodeId, nodeToGroup[nodeId], group)), after;
    }
    ListOneMore(nodes, listed, nodeToGroup, Listing(group, nodeId));
    after := nodeToGroup[nodeId := group];
  }

  /** The inner loop, over the ids of one group. */
  method ListGroup(nodes: seq<NodeId>, nodeIds: set<NodeId>, group: Group, nodeToGroup: map<NodeId, GroupName>,
                   ghost groups: seq<Group>, ghost before: seq<Listing>, ghost all: seq<Listing>)
    returns (error: Option<BadRequest>, after: map<NodeId, GroupName>)
    requires forall id :: id in nodeIds <==> Exists(nodes, id)
    requires Passed(nodes, before, nodeToGroup)
    requires all == before + ListingsOf(group) <= Listings(groups)
    ensures error.None? ==> Passed(nodes, all, after)
    ensures error.Some? ==> Justified(nodes, groups, error.value)
  {
    after := nodeToGroup;
    ghost var listed := before;
    for j := 0 to |group.nodeIds|
      invariant listed == all[..|before| + j] && Passed(nodes, listed, after)
    {
      NextListing(group, before, all, groups, j);
      error, after := ListNode(nodes, nodeIds, group.name, group.nodeIds[j], after, groups, listed);
      if error.Some? {
        return;
      }
      listed := listed + [Listing(group.name, group.nodeIds[j])];
    }
    assert listed == all;
    error := None;
  }

  method ValidateWorkflowNodeGroups(nodes: seq<NodeId>, groups: seq<Group>) returns (error: Option<BadRequest>)
    ensures error.None? <==> Acceptable(nodes, groups)
    ensures error.Some? ==> Justified(nodes, groups, error.value)
  {
    var nodeIds := set id | id in nodes && id != "";
    var seenGroupNames: set<GroupName> := {};
    var nodeToGroup: map<NodeId, GroupName> := map[];
    for i := 0 to |groups|
      invariant forall name :: name in seenGroupNames <==> exists k :: 0 <= k < i && groups[k].name == name
      invariant DistinctNames(groups[..i])
      invariant Passed(nodes, Listings(groups[..i]), nodeToGroup)
    {
      var group := groups[i];
      if group.name in seenGroupNames {
        error := Some(DuplicateName(group.name));
        JustifiedRejects(nodes, groups, error.value);
        return;
      }
      seenGroupNames := seenGroupNames + {group.name};
      assert groups[..i + 1][..i] == groups[..i];
      ListingsGrow(groups, i + 1);
      error, nodeToGroup := ListGroup(nodes, nodeIds, group, nodeToGroup,
                                      groups, Listings(groups[..i]), Listings(groups[..i + 1]));
      if error.Some? {
        JustifiedRejects(nodes, groups, error.value);
        return;
      }
    }
    assert groups[..|groups|] == groups;
    error := None;
  }

  // ---------------------------------------------------------------- Acceptance, group by group

  lemma {:induction false} ListedExactly(groups: seq<Group>, x: Listing)
    ensures x in Listings(groups) <==>
            exists i, k :: 0 <= i < |groups| && 0 <= k < |groups[i].nodeIds|
                           && Listing(groups[i].name, groups[i].nodeIds[k]) == x
  {
    if groups != [] {
      var init, last := groups[..|groups| - 1], groups[|groups| - 1];
      ListedExactly(init, x);
      if x in Listings(init) {
        var i, k :| 0 <= i < |init| && 0 <= k < |init[i].nodeIds| && Listing(init[i].name, init[i].nodeIds[k]) == x;
        assert groups[i] == init[i];
      }
      if x in ListingsOf(last) {
        var k :| 0 <= k < |last.nodeIds| && ListingsOf(last)[k] == x;
        assert groups[|init|] == last && Listing(last.name, last.nodeIds[k]) == x;
      }
      if i, k :| 0 <= i < |groups| && 0 <= k < |groups[i].nodeIds| && Listing(groups[i].name, groups[i].nodeIds[k]) == x {
        if i < |init| {
          assert init[i] == groups[i];
        } else {
          assert ListingsOf(last)[k] == x;
        }
      }
    }
  }

  /** Of an id listed twice, the earlier group has the empty name. */
  predicate EarlierUnnamed(groups: seq<Group>) {
    forall i, k, j, l ::
      (&& 0 <= i <= j < |groups| && 0 <= k < |groups[i].nodeIds| && 0 <= l < |groups[j].nodeIds|
       && (i < j || k < l) && groups[i].nodeIds[k] == groups[j].nodeIds[l]) ==> groups[i].name == ""
  }

  predicate NoneShared(before: seq<Listing>, group: Group) {
    forall p, l :: 0 <= p < |before| && 0 <= l < |group.nodeIds| && before[p].id == group.nodeIds[l] ==>
      before[p].group == ""
  }

  lemma RepeatsInLast(before: seq<Listing>, group: Group)
    ensures OnlyRepeatsUnnamed(before + ListingsOf(group)) <==>
            && OnlyRepeatsUnnamed(before) && NoneShared(before, group)
            && forall k, l :: 0 <= k < l < |group.nodeIds| && group.nodeIds[k] == group.nodeIds[l] ==> group.name == ""
  {
    var all, n := before + ListingsOf(group), |before|;
    assert forall p {:trigger all[p]} :: 0 <= p < |all| ==>
      all[p] == if p < n then before[p] else Listing(group.name, group.nodeIds[p - n]);
    if OnlyRepeatsUnnamed(all) {
      forall p, q | 0 <= p < q < n && before[p].id == before[q].id
        ensures before[p].group == ""
      {
        assert all[p] == before[p] && all[q] == before[q];
      }
      forall p, l | 0 <= p < n && 0 <= l < |group.nodeIds| && before[p].id == group.nodeIds[l]
        ensures before[p].group == ""
      {
        assert all[p] == before[p] && all[n + l].id == group.nodeIds[l];
      }
      forall k, l | 0 <= k < l < |group.nodeIds| && group.nodeIds[k] == group.nodeIds[l]
        ensures group.name == ""
      {
        assert all[n + k] == Listing(group.name, group.nodeIds[k]) && all[n + l].id == group.nodeIds[l];
      }
    }
  }

  lemma SharedExactly(init: seq<Group>, last: Group)
    ensures NoneShared(Listings(init), last) <==>
            forall i, k, l ::
              (&& 0 <= i < |init| && 0 <= k < |init[i].nodeIds| && 0 <= l < |last.nodeIds|
               && init[i].nodeIds[k] == last.nodeIds[l]) ==> init[i].name == ""
  {
    var before := Listings(init);
    if NoneShared(before, last) {
      forall i, k, l | 0 <= i < |init| && 0 <= k < |init[i].nodeIds| && 0 <= l < |last.nodeIds|
                       && init[i].nodeIds[k] == last.nodeIds[l]
        ensures init[i].name == ""
      {
        ListedExactly(init, Listing(init[i].name, init[i].nodeIds[k]));
        var p :| 0 <= p < |before| && before[p] == Listing(init[i].name, init[i].nodeIds[k]);
      }
    } else {
      var p, l :| 0 <= p < |before| && 0 <= l < |last.nodeIds| && before[p].id == last.nodeIds[l] && before[p].group != "";
      ListedExactly(init, before[p]);
      var i, k :| 0 <= i < |init| && 0 <= k < |init[i].nodeIds| && Listing(init[i].name, init[i].nodeIds[k]) == before[p];
      assert init[i].nodeIds[k] == last.nodeIds[l] && init[i].name != "";
    }
  }

  lemma EarlierUnnamedSnoc(init: seq<Group>, last: Group)
    ensures EarlierUnnamed(init + [last]) <==>
            && EarlierUnnamed(init)
            && (forall i, k, l ::
                  (&& 0 <= i < |init| && 0 <= k < |init[i].nodeIds| && 0 <= l < |last.nodeIds|
                   && init[i].nodeIds[k] == last.nodeIds[l]) ==> init[i].name == "")
            && (forall k, l :: 0 <= k < l < |last.nodeIds| && last.nodeIds[k] == last.nodeIds[l] ==> last.name == "")
  {
    var groups, n := init + [last], |init|;
    assert groups[n] == last && forall i {:trigger groups[i]} {:trigger init[i]} :: 0 <= i < n ==> groups[i] == init[i];
    if EarlierUnnamed(groups) {
      forall i, k, l | 0 <= i < n && 0 <= k < |init[i].nodeIds| && 0 <= l < |last.nodeIds| && init[i].nodeIds[k] == last.nodeIds[l]
        ensures init[i].name == ""
      {
        assert groups[i].nodeIds[k] == groups[n].nodeIds[l];
      }
      forall k, l | 0 <= k < l < |last.nodeIds| && last.nodeIds[k] == last.nodeIds[l]
        ensures last.name == ""
      {
        assert groups[n].nodeIds[k] == groups[n].nodeIds[l];
      }
    }
  }

  lemma {:induction false} RepeatsExactly(groups: seq<Group>)
    ensures OnlyRepeatsUnnamed(Listings(groups)) <==> EarlierUnnamed(groups)
  {
    if groups != [] {
      var init, last := groups[..|groups| - 1], groups[|groups| - 1];
      assert groups == init + [last];
      RepeatsExactly(init);
      RepeatsInLast(Listings(init), last);
      SharedExactly(init, last);
      EarlierUnnamedSnoc(init, last);
    }
  }

  lemma AllExistExactly(nodes: seq<NodeId>, groups: seq<Group>)
    ensures AllExist(nodes, Listings(groups)) <==>
            forall i, k :: 0 <= i < |groups| && 0 <= k < |groups[i].nodeIds| ==>
              groups[i].nodeIds[k] in nodes && groups[i].nodeIds[k] != ""
  {
    var listings := Listings(groups);
    forall i, k | 0 <= i < |groups| && 0 <= k < |groups[i].nodeIds|
      ensures Listing(groups[i].name, groups[i].nodeIds[k]) in listings
    {
      ListedExactly(groups, Listing(groups[i].name, groups[i].nodeIds[k]));
    }
    if p :| 0 <= p < |listings| && !Exists(nodes, listings[p].id) {
      ListedExactly(groups, listings[p]);
      var i, k :| 0 <= i < |groups| && 0 <= k < |groups[i].nodeIds| && Listing(groups[i].name, groups[i].nodeIds[k]) == listings[p];
      assert !(groups[i].nodeIds[k] in nodes && groups[i].nodeIds[k] != "");
    }
  }

  /** What is accepted, spelled out: names differ, every listed id is that of a node and not empty, and an id
      is listed again, by whichever group, only if the group that listed it before has the empty name. */
  lemma AcceptableExactly(nodes: seq<NodeId>, groups: seq<Group>)
    ensures Acceptable(nodes, groups) <==>
            && (forall i, j :: 0 <= i < j < |groups| ==> groups[i].name != groups[j].name)
            && (forall i, k :: 0 <= i < |groups| && 0 <= k < |groups[i].nodeIds| ==>
                  groups[i].nodeIds[k] in nodes && groups[i].nodeIds[k] != "")
            && (forall i, k, j, l ::
                  (&& 0 <= i <= j < |groups| && 0 <= k < |groups[i].nodeIds| && 0 <= l < |groups[j].nodeIds|
                   && (i < j || k < l) && groups[i].nodeIds[k] == groups[j].nodeIds[l]) ==> groups[i].name == "")
  {
    AllExistExactly(nodes, groups);
    RepeatsExactly(groups);
  }

  // ---------------------------------------------------------------- The documented condition

  lemma {:induction false} ListedByAGroup(groups: seq<Group>, p: nat)
    requires p < |Listings(groups)|
    ensures exists g :: g in groups && g.name == Listings(groups)[p].group
  {
    var n := |groups| - 1;
    var before := Listings(groups[..n]);
    if p < |before| {
      ListedByAGroup(groups[..n], p);
      var g :| g in groups[..n] && g.name == before[p].group;
      assert g in groups;
    } else {
      assert Listings(groups)[p] == ListingsOf(groups[n])[p - |before|];
      assert groups[n] in groups;
    }
  }

  /** Unique names, existing nodes and one group a node is what is checked, as long as no group has the
      empty name. */
  lemma NamedGroups(nodes: seq<NodeId>, groups: seq<Group>)
    requires forall g :: g in groups ==> g.name != ""
    ensures Acceptable(nodes, groups) <==>
            DistinctNames(groups) && AllExist(nodes, Listings(groups)) && ListedOnce(Listings(groups))
  {
    forall p | 0 <= p < |Listings(groups)|
      ensures Listings(groups)[p].group != ""
    {
      ListedByAGroup(groups, p);
    }
  }

  /** With an empty name the check is weaker: the same node passes in two groups. */
  lemma UnnamedGroupSharesNode()
    ensures var groups := [Group("", ["n"]), Group("g", ["n"])];
            Acceptable(["n"], groups) && !ListedOnce(Listings(groups))
  {
    var groups := [Group("", ["n"]), Group("g", ["n"])];
    assert groups[..1] == [groups[0]] && [groups[0]][..0] == [];
    assert Listings([groups[0]]) == [Listing("", "n")];
    var listings := Listings(groups);
    assert listings == [Listing("", "n"), Listing("g", "n")];
    assert listings[0].id == listings[1].id;
  }
}
