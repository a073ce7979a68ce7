/**
 * Logical groups: the reconciliation pass `_cleanupGroups` and the node/group updates made
 * by `groupSelection` and `ungroupSelection`, as functions on the node and group lists.
 */
module Groups {
  import opened Common
  import opened Scene

  /** After reconciliation: groups have at least two members, all existing; every back-link and the selected group name a surviving group. */
  ghost predicate GroupsConsistent(nodes: seq<Node>, groups: seq<Group>, selectedGroup: Option<GroupId>)
  {
    && (forall g :: g in groups ==> |g.childIds| >= 2)
    && (forall g, c :: g in groups && c in g.childIds ==> c in IdSet(nodes))
    && (forall n :: n in nodes && n.groupId.Some? ==> n.groupId.value in GroupIdSet(groups))
    && (selectedGroup.Some? ==> selectedGroup.value in GroupIdSet(groups))
  }

  /** `childIds.filter(id => existing.has(id))` */
  function KeepExisting(childIds: seq<NodeId>, existing: set<NodeId>): (r: seq<NodeId>)
    ensures forall c :: c in r <==> c in childIds && c in existing
    ensures |r| <= |childIds|
    ensures Subseq(r, childIds)
  {
    if |childIds| == 0 then []
    else
      var rest := KeepExisting(childIds[1..], existing);
      assert forall c :: c in childIds <==> c == childIds[0] || c in childIds[1..] by {
        assert childIds == [childIds[0]] + childIds[1..];
      }
      if childIds[0] in existing then
        assert ([childIds[0]] + rest)[1..] == rest;
        [childIds[0]] + rest
      else rest
  }

  /** The first loop of `_cleanupGroups`: every group keeps only its existing members. */
  function MembersFiltered(groups: seq<Group>, existing: set<NodeId>): (r: seq<Group>)
    ensures |r| == |groups|
    ensures forall i :: 0 <= i < |groups| ==> r[i] == groups[i].(childIds := KeepExisting(groups[i].childIds, existing))
  {
    seq(|groups|, i requires 0 <= i < |groups| => groups[i].(childIds := KeepExisting(groups[i].childIds, existing)))
  }

  /** `groups.filter(g => g.childIds.length >= 2)` */
  function Populated(groups: seq<Group>): (r: seq<Group>)
    ensures forall g :: g in r <==> g in groups && |g.childIds| >= 2
    ensures Subseq(r, groups)
  {
    if |groups| == 0 then []
    else
      var rest := Populated(groups[1..]);
      assert forall g :: g in groups <==> g == groups[0] || g in groups[1..] by {
        assert groups == [groups[0]] + groups[1..];
      }
      if |groups[0].childIds| >= 2 then
        assert ([groups[0]] + rest)[1..] == rest;
        [groups[0]] + rest
      else rest
  }

  /** The group list `_cleanupGroups` leaves behind. */
  function Pruned(groups: seq<Group>, existing: set<NodeId>): seq<Group>
  {
    Populated(MembersFiltered(groups, existing))
  }

  /** The last loop of `_cleanupGroups`: a back-link to a group that no longer exists is cleared. */
  function Detached(nodes: seq<Node>, groupIds: set<GroupId>): (r: seq<Node>)
    ensures |r| == |nodes|
    ensures forall i :: 0 <= i < |nodes| ==>
              r[i] == if nodes[i].groupId.Some? && nodes[i].groupId.value !in groupIds
                      then nodes[i].(groupId := None) else nodes[i]
  {
    seq(|nodes|, i requires 0 <= i < |nodes| =>
      if nodes[i].groupId.Some? && nodes[i].groupId.value !in groupIds then nodes[i].(groupId := None) else nodes[i])
  }

  /** `selectedGroupId` survives only if its group does. */
  function KeptGroupSelection(selectedGroup: Option<GroupId>, groupIds: set<GroupId>): Option<GroupId>
  {
    if selectedGroup.Some? && selectedGroup.value !in groupIds then None else selectedGroup
  }

  /** Clearing back-links touches neither ids nor draw order. */
  lemma {:induction false} DetachedKeepsIds(nodes: seq<Node>, groupIds: set<GroupId>)
    ensures IdSet(Detached(nodes, groupIds)) == IdSet(nodes)
    ensures forall i :: 0 <= i < |nodes| ==>
              Detached(nodes, groupIds)[i].id == nodes[i].id && Detached(nodes, groupIds)[i].zIndex == nodes[i].zIndex
  {
    var r := Detached(nodes, groupIds);
    forall id | id in IdSet(nodes) ensures id in IdSet(r) {
      var n :| n in nodes && n.id == id;
      var i :| 0 <= i < |nodes| && nodes[i] == n;
      assert r[i].id == id;
    }
    forall id | id in IdSet(r) ensures id in IdSet(nodes) {
      var n :| n in r && n.id == id;
      var i :| 0 <= i < |r| && r[i] == n;
      assert nodes[i].id == id;
    }
  }

  /** The reconciliation pass establishes group consistency, whatever state it starts from. */
  lemma {:induction false} CleanupEstablishesConsistency(nodes: seq<Node>, groups: seq<Group>, selectedGroup: Option<GroupId>)
    ensures var kept := Pruned(groups, IdSet(nodes));
            var gids := GroupIdSet(kept);
            GroupsConsistent(Detached(nodes, gids), kept, KeptGroupSelection(selectedGroup, gids))
  {
    var kept := Pruned(groups, IdSet(nodes));
    var gids := GroupIdSet(kept);
    var nodes' := Detached(nodes, gids);
    DetachedKeepsIds(nodes, gids);
    forall g, c | g in kept && c in g.childIds ensures c in IdSet(nodes') {
      var filtered := MembersFiltered(groups, IdSet(nodes));
      var i :| 0 <= i < |filtered| && filtered[i] == g;
    }
    forall n | n in nodes' && n.groupId.Some? ensures n.groupId.value in gids {
      var i :| 0 <= i < |nodes'| && nodes'[i] == n;
    }
  }

  /** `groups.find(x => x.id === id)`, as a position. */
  function FindGroup(groups: seq<Group>, id: GroupId): (r: Option<nat>)
    ensures r.Some? ==> r.value < |groups| && groups[r.value].id == id
    ensures r.Some? ==> forall j :: 0 <= j < r.value ==> groups[j].id != id
    ensures r.None? <==> id !in GroupIdSet(groups)
  {
    if |groups| == 0 then None
    else if groups[0].id == id then Some(0)
    else
      var r := FindGroup(groups[1..], id);
      assert GroupIdSet(groups) == {groups[0].id} + GroupIdSet(groups[1..]) by {
        assert groups == [groups[0]] + groups[1..];
      }
      if r.None? then None else Some(r.value + 1)
  }

  /** Filtering a member list that only names existing nodes keeps it as it is. */
  lemma {:induction false} KeepExistingAll(childIds: seq<NodeId>, existing: set<NodeId>)
    requires forall c :: c in childIds ==> c in existing
    ensures KeepExisting(childIds, existing) == childIds
    decreases |childIds|
  {
    if |childIds| > 0 {
      assert forall c :: c in childIds[1..] ==> c in childIds;
      KeepExistingAll(childIds[1..], existing);
      assert childIds == [childIds[0]] + childIds[1..];
    }
  }

  /** The members `groupSelection` puts in a new group: selected, unlocked nodes, in node-array order. */
  function Groupable(nodes: seq<Node>, selected: seq<NodeId>): seq<Node>
  {
    if |nodes| == 0 then []
    else
      var last := nodes[|nodes| - 1];
      Groupable(nodes[..|nodes| - 1], selected) + (if last.id in selected && !last.locked then [last] else [])
  }

  /** The members are exactly the selected, unlocked nodes. */
  lemma {:induction false} GroupableMembers(nodes: seq<Node>, selected: seq<NodeId>)
    ensures forall n :: n in Groupable(nodes, selected) <==> n in nodes && n.id in selected && !n.locked
    decreases |nodes|
  {
    if |nodes| > 0 {
      var init := nodes[..|nodes| - 1];
      var last := nodes[|nodes| - 1];
      GroupableMembers(init, selected);
      assert nodes == init + [last];
    }
  }

  /** `for (const n of members) n.groupId = groupId` */
  function Joined(nodes: seq<Node>, members: set<NodeId>, gid: GroupId): (r: seq<Node>)
    ensures |r| == |nodes|
    ensures forall i :: 0 <= i < |nodes| ==>
              r[i] == if nodes[i].id in members then nodes[i].(groupId := Some(gid)) else nodes[i]
  {
    seq(|nodes|, i requires 0 <= i < |nodes| =>
      if nodes[i].id in members then nodes[i].(groupId := Some(gid)) else nodes[i])
  }

  /** The groups whose id a selected node carries (`affected` in `ungroupSelection`). */
  function Affected(nodes: seq<Node>, selected: set<NodeId>): (r: set<GroupId>)
    ensures forall gid :: gid in r <==> exists n :: n in nodes && n.id in selected && n.groupId == Some(gid)
  {
    set n | n in nodes && n.id in selected && n.groupId.Some? :: n.groupId.value
  }

  /** The first loop of `ungroupSelection`: selected nodes lose their back-link. */
  function Released(nodes: seq<Node>, selected: set<NodeId>): (r: seq<Node>)
    ensures |r| == |nodes|
    ensures forall i :: 0 <= i < |nodes| ==>
              r[i] == if nodes[i].id in selected then nodes[i].(groupId := None) else nodes[i]
  {
    seq(|nodes|, i requires 0 <= i < |nodes| =>
      if nodes[i].id in selected then nodes[i].(groupId := None) else nodes[i])
  }

  /** `childIds.filter(id => !ids.has(id))` */
  function DropMembers(childIds: seq<NodeId>, selected: set<NodeId>): (r: seq<NodeId>)
    ensures forall c :: c in r <==> c in childIds && c !in selected
    ensures Subseq(r, childIds)
  {
    if |childIds| == 0 then []
    else
      var rest := DropMembers(childIds[1..], selected);
      assert forall c :: c in childIds <==> c == childIds[0] || c in childIds[1..] by {
        assert childIds == [childIds[0]] + childIds[1..];
      }
      if childIds[0] in selected then rest
      else
        assert ([childIds[0]] + rest)[1..] == rest;
        [childIds[0]] + rest
  }

  /** The second loop of `ungroupSelection`: affected groups drop the selected members. */
  function Shrunk(groups: seq<Group>, affected: set<GroupId>, selected: set<NodeId>): (r: seq<Group>)
    ensures |r| == |groups|
    ensures forall i :: 0 <= i < |groups| ==>
              r[i] == if groups[i].id in affected then groups[i].(childIds := DropMembers(groups[i].childIds, selected)) else groups[i]
  {
    seq(|groups|, i requires 0 <= i < |groups| =>
      if groups[i].id in affected then groups[i].(childIds := DropMembers(groups[i].childIds, selected)) else groups[i])
  }

  /** The label `groupSelection` gives: the trimmed name, or `Grupo <count + 1>` when the name is blank. */
  function GroupLabel(name: string, count: nat): (r: string)
    ensures |r| > 0 && !IsSpace(r[0])
    ensures (exists i :: 0 <= i < |name| && !IsSpace(name[i])) ==> r == Trim(name)
    ensures (forall i :: 0 <= i < |name| ==> IsSpace(name[i])) ==> r == "Grupo " + DecimalString(count + 1)
  {
    var t := Trim(name);
    if |t| > 0 then t else "Grupo " + DecimalString(count + 1)
  }
}
