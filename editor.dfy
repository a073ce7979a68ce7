/**
 * The editor store: the node array, the selection, logical groups, the undo/redo history,
 * the clipboard and paste session, and the align, distribute and materials actions, as
 * one object whose actions update its fields in place.
 *
 * Fresh ids come from two counters (`nodeSeq`, `groupSeq`) standing in for the random
 * `uid()` and `_groupUid()`; the debounce timer of the history is the `timerPending` flag
 * of the history record, and its firing is the method `FireHistoryTimer`; the clock is a
 * `now` parameter.
 */
module Editor {
  import opened Common
  import opened Geometry
  import opened Scene
  import opened Selection
  import opened Groups
  import opened ZOrder
  import opened History
  import opened Boxes
  import opened Paste
  import opened Catalog
  import opened Materials
  import opened Align

  /** Every snapshot of the stack holds well-formed nodes with ids below `bound`. */
  ghost predicate AllWellFormed(stack: seq<Snapshot>, bound: nat)
  {
    |stack| == 0 || (WellFormed(stack[|stack| - 1].nodes, bound) && AllWellFormed(stack[..|stack| - 1], bound))
  }

  lemma {:induction false} AllWellFormedAt(stack: seq<Snapshot>, bound: nat, i: nat)
    requires AllWellFormed(stack, bound) && i < |stack|
    ensures WellFormed(stack[i].nodes, bound)
    decreases |stack|
  {
    if i < |stack| - 1 {
      AllWellFormedAt(stack[..|stack| - 1], bound, i);
    }
  }

  lemma {:induction false} AllWellFormedFrom(stack: seq<Snapshot>, bound: nat)
    requires forall i :: 0 <= i < |stack| ==> WellFormed(stack[i].nodes, bound)
    ensures AllWellFormed(stack, bound)
    decreases |stack|
  {
    if |stack| > 0 {
      AllWellFormedFrom(stack[..|stack| - 1], bound);
    }
  }

  /** Every snapshot on either stack holds well-formed nodes with ids below `bound`. */
  ghost predicate SnapshotsWellFormed(h: History, bound: nat)
  {
    AllWellFormed(h.past, bound) && AllWellFormed(h.future, bound)
  }

  /** `s` is on a stack of `h`, or is `snap`. */
  predicate FromStacks(s: Snapshot, h: History, snap: Snapshot)
  {
    s in h.past || s in h.future || s == snap
  }

  /** Every snapshot on the stacks of `r` was already on a stack of `h`, or is `snap`. */
  ghost predicate StacksWithin(r: History, h: History, snap: Snapshot)
  {
    && (forall s :: s in r.past ==> FromStacks(s, h, snap))
    && (forall s :: s in r.future ==> FromStacks(s, h, snap))
  }

  /** Drawing from stacks that were themselves drawn from `c` draws from `c`. */
  lemma {:induction false} WithinTrans(a: History, b: History, c: History, snap: Snapshot)
    requires StacksWithin(a, b, snap) && StacksWithin(b, c, snap)
    ensures StacksWithin(a, c, snap)
  {
  }

  /** Stacks made only of well-formed snapshots stay so. */
  lemma {:induction false} SnapshotsKept(r: History, h: History, snap: Snapshot, bound: nat)
    requires SnapshotsWellFormed(h, bound) && WellFormed(snap.nodes, bound) && StacksWithin(r, h, snap)
    ensures SnapshotsWellFormed(r, bound)
  {
    forall i | 0 <= i < |r.past| ensures WellFormed(r.past[i].nodes, bound) {
      StackedWellFormed(r.past[i], h, snap, bound);
    }
    forall i | 0 <= i < |r.future| ensures WellFormed(r.future[i].nodes, bound) {
      StackedWellFormed(r.future[i], h, snap, bound);
    }
    AllWellFormedFrom(r.past, bound);
    AllWellFormedFrom(r.future, bound);
  }

  lemma {:induction false} StackedWellFormed(s: Snapshot, h: History, snap: Snapshot, bound: nat)
    requires SnapshotsWellFormed(h, bound) && WellFormed(snap.nodes, bound) && FromStacks(s, h, snap)
    ensures WellFormed(s.nodes, bound)
  {
    if s in h.past {
      var j :| 0 <= j < |h.past| && h.past[j] == s;
      AllWellFormedAt(h.past, bound, j);
    } else if s in h.future {
      var j :| 0 <= j < |h.future| && h.future[j] == s;
      AllWellFormedAt(h.future, bound, j);
    }
  }

  lemma {:induction false} SuffixMembers<T>(s: seq<T>, k: nat)
    requires k <= |s|
    ensures forall x :: x in s[k..] ==> x in s
  {
  }

  /** A push only adds the live snapshot and may empty the redo stack. */
  lemma {:induction false} PushedWithin(h: History, snap: Snapshot)
    ensures StacksWithin(Pushed(h, snap), h, snap)
  {
    if !(h.lock || RepeatsTop(h, snap)) {
      var all := h.past + [snap];
      SuffixMembers(all, |all| - |Trimmed(all)|);
    }
  }

  /** A push keeps the history valid and its snapshots well-formed. */
  lemma {:induction false} PushKeeps(h: History, snap: Snapshot, bound: nat)
    ensures HistoryValid(h) ==> HistoryValid(Pushed(h, snap))
    ensures SnapshotsWellFormed(h, bound) && WellFormed(snap.nodes, bound) ==> SnapshotsWellFormed(Pushed(h, snap), bound)
  {
    PushedWithin(h, snap);
    if SnapshotsWellFormed(h, bound) && WellFormed(snap.nodes, bound) {
      SnapshotsKept(Pushed(h, snap), h, snap, bound);
    }
  }

  /** Undo's step only moves the top of `past` to the front of `future`. */
  lemma {:induction false} UndoStepWithin(h: History, snap: Snapshot)
    requires |h.past| > 1
    ensures StacksWithin(UndoStep(h), h, snap)
  {
    var r := UndoStep(h);
    forall s | s in r.past ensures s in h.past {
      var i :| 0 <= i < |r.past| && r.past[i] == s;
      assert h.past[i] == s;
    }
    forall s | s in r.future ensures s in h.past || s in h.future {
      var i :| 0 <= i < |r.future| && r.future[i] == s;
      if i > 0 {
        assert r.future[1..][i - 1] == s;
      }
    }
  }

  /** Undo only moves snapshots between the stacks (after committing the live one). */
  lemma {:induction false} UndoneWithin(h: History, snap: Snapshot)
    requires CanUndo(h)
    ensures StacksWithin(Undone(h, snap), h, snap)
  {
    if h.timerPending {
      var h0 := h.(timerPending := false);
      var h1 := Pushed(h0, snap);
      PushedWithin(h0, snap);
      UndoStepWithin(h1, snap);
      assert Undone(h, snap) == UndoStep(h1);
      WithinTrans(UndoStep(h1), h1, h0, snap);
    } else {
      UndoStepWithin(h, snap);
    }
  }

  /** An undo keeps the history valid and its snapshots well-formed. */
  lemma {:induction false} UndoKeeps(h: History, live: Snapshot, bound: nat)
    requires CanUndo(h) && HistoryValid(h)
    ensures HistoryValid(Undone(h, live)) && !Undone(h, live).lock
    ensures SnapshotsWellFormed(h, bound) && WellFormed(live.nodes, bound) ==> SnapshotsWellFormed(Undone(h, live), bound)
  {
    OperationsKeepHistoryValid(h, live);
    UndoneWithin(h, live);
    if SnapshotsWellFormed(h, bound) && WellFormed(live.nodes, bound) {
      SnapshotsKept(Undone(h, live), h, live, bound);
    }
  }

  /** Redo only moves a snapshot between the stacks. */
  lemma {:induction false} RedoWithin(h: History, snap: Snapshot)
    requires CanRedo(h)
    ensures StacksWithin(RedoStep(h), h, snap)
  {
    var r := RedoStep(h);
    forall s | s in r.past ensures s in h.past || s in h.future {
      var i :| 0 <= i < |r.past| && r.past[i] == s;
      if i < |h.past| {
        assert r.past[..|h.past|][i] == s;
      }
    }
    forall s | s in r.future ensures s in h.future {
      var i :| 0 <= i < |r.future| && r.future[i] == s;
      assert ([h.future[0]] + r.future)[i + 1] == s;
    }
  }

  /** Ending a batch at most pushes the live snapshot. */
  lemma {:induction false} BatchEndedWithin(h: History, snap: Snapshot)
    ensures StacksWithin(BatchEnded(h, snap), h, snap)
  {
    var depth := if h.batching == 0 then 0 else h.batching - 1;
    var h0 := h.(batching := depth, batchDirty := false);
    if depth == 0 && h.batchDirty {
      PushedWithin(h0, snap);
      assert h0.past == h.past && h0.future == h.future;
    } else {
      assert BatchEnded(h, snap).past == h.past && BatchEnded(h, snap).future == h.future;
    }
  }

  /** Ending a batch keeps the history valid, the lock as it was, and the snapshots well formed. */
  lemma {:induction false} BatchEndKeeps(h: History, snap: Snapshot, bound: nat)
    ensures HistoryValid(h) ==> HistoryValid(BatchEnded(h, snap))
    ensures BatchEnded(h, snap).lock == h.lock
    ensures SnapshotsWellFormed(h, bound) && WellFormed(snap.nodes, bound) ==> SnapshotsWellFormed(BatchEnded(h, snap), bound)
  {
    if HistoryValid(h) {
      OperationsKeepHistoryValid(h, snap);
    }
    if SnapshotsWellFormed(h, bound) && WellFormed(snap.nodes, bound) {
      BatchEndedWithin(h, snap);
      SnapshotsKept(BatchEnded(h, snap), h, snap, bound);
    }
  }

  /** A node with the next fresh id, put on top, keeps the list well formed under the raised bound. */
  lemma {:induction false} AppendedWellFormed(nodes: seq<Node>, node: Node, bound: nat)
    requires WellFormed(nodes, bound) && node.id == bound && node.zIndex == |nodes|
    ensures WellFormed(nodes + [node], bound + 1)
    ensures node.id !in IdSet(nodes) && IdSet(nodes + [node]) == IdSet(nodes) + {node.id}
  {
  }

  /** Raising the id bound keeps snapshots well formed. */
  lemma {:induction false} SnapshotsBoundRaised(h: History, bound: nat, bound': nat)
    requires SnapshotsWellFormed(h, bound) && bound <= bound'
    ensures SnapshotsWellFormed(h, bound')
  {
    forall i | 0 <= i < |h.past| ensures WellFormed(h.past[i].nodes, bound') {
      AllWellFormedAt(h.past, bound, i);
    }
    forall i | 0 <= i < |h.future| ensures WellFormed(h.future[i].nodes, bound') {
      AllWellFormedAt(h.future, bound, i);
    }
    AllWellFormedFrom(h.past, bound');
    AllWellFormedFrom(h.future, bound');
  }

  /** The groups `_cleanupGroups` keeps are groups it was given. */
  lemma {:induction false} PrunedIds(groups: seq<Group>, existing: set<NodeId>)
    ensures GroupIdSet(Pruned(groups, existing)) <= GroupIdSet(groups)
  {
    var filtered := MembersFiltered(groups, existing);
    forall g | g in Pruned(groups, existing) ensures g.id in GroupIdSet(groups) {
      var i :| 0 <= i < |filtered| && filtered[i] == g;
      assert groups[i] in groups;
    }
  }

  /** Rewriting the draw order leaves group membership as consistent as it was. */
  lemma {:induction false} ReindexedKeepsGroups(nodes: seq<Node>, groups: seq<Group>, selectedGroup: Option<GroupId>)
    requires GroupsConsistent(nodes, groups, selectedGroup)
    ensures GroupsConsistent(Reindexed(nodes), groups, selectedGroup)
  {
    var r := Reindexed(nodes);
    ReindexedKeepsIds(nodes);
    forall n | n in r && n.groupId.Some? ensures n.groupId.value in GroupIdSet(groups) {
      var i :| 0 <= i < |r| && r[i] == n;
      assert nodes[i] in nodes;
    }
  }

  /** The nodes left after deleting `ids` are well formed once reindexed. */
  lemma {:induction false} UnlistedReindexed(nodes: seq<Node>, ids: seq<NodeId>, bound: nat)
    requires WellFormed(nodes, bound)
    ensures WellFormed(Reindexed(Unlisted(nodes, ids)), bound)
    ensures forall id :: id in IdSet(Unlisted(nodes, ids)) <==> id in IdSet(nodes) && id !in ids
  {
    var u := Unlisted(nodes, ids);
    UnlistedMembers(nodes, ids);
    ReindexedKeepsIds(u);
    forall id | id in IdSet(nodes) && id !in ids ensures id in IdSet(u) {
      var n :| n in nodes && n.id == id;
      assert n in u;
    }
  }

  /** Clearing back-links and then reindexing keeps the ids and the well-formedness the reindexed list had. */
  lemma {:induction false} DetachedReindexed(nodes: seq<Node>, gids: set<GroupId>, bound: nat)
    requires WellFormed(Reindexed(nodes), bound)
    ensures WellFormed(Reindexed(Detached(nodes, gids)), bound)
    ensures IdSet(Reindexed(Detached(nodes, gids))) == IdSet(nodes)
  {
    ReindexedKeepsIds(nodes);
    SameIdsAndZ(Reindexed(nodes), Reindexed(Detached(nodes, gids)), bound);
  }

  /** Every group id is below `bound`. */
  ghost predicate GroupsBelow(groups: seq<Group>, bound: nat)
  {
    |groups| == 0 || (groups[|groups| - 1].id < bound && GroupsBelow(groups[..|groups| - 1], bound))
  }

  lemma {:induction false} GroupsBelowAt(groups: seq<Group>, bound: nat, i: nat)
    requires GroupsBelow(groups, bound) && i < |groups|
    ensures groups[i].id < bound
    decreases |groups|
  {
    if i < |groups| - 1 {
      GroupsBelowAt(groups[..|groups| - 1], bound, i);
    }
  }

  lemma {:induction false} GroupsBelowFrom(groups: seq<Group>, bound: nat)
    requires forall i :: 0 <= i < |groups| ==> groups[i].id < bound
    ensures GroupsBelow(groups, bound)
    decreases |groups|
  {
    if |groups| > 0 {
      GroupsBelowFrom(groups[..|groups| - 1], bound);
    }
  }

  /** Group ids stay below the counter when only groups already present are kept. */
  lemma {:induction false} GroupIdsBelow(groups: seq<Group>, before: seq<Group>, bound: nat)
    requires GroupIdSet(groups) <= GroupIdSet(before) && GroupsBelow(before, bound)
    ensures GroupsBelow(groups, bound)
  {
    forall i | 0 <= i < |groups| ensures groups[i].id < bound {
      assert groups[i].id in GroupIdSet(before);
      var j :| 0 <= j < |before| && before[j].id == groups[i].id;
      GroupsBelowAt(before, bound, j);
    }
    GroupsBelowFrom(groups, bound);
  }

  /** `_cleanupGroups` keeps the node list well formed, its ids, and every group id below the counter. */
  lemma {:induction false} CleanupKeepsInvariant(nodes: seq<Node>, groups: seq<Group>, bound: nat, groupBound: nat)
    requires WellFormed(nodes, bound) && GroupsBelow(groups, groupBound)
    ensures var kept := Pruned(groups, IdSet(nodes));
            var ns := Detached(nodes, GroupIdSet(kept));
            WellFormed(ns, bound) && IdSet(ns) == IdSet(nodes) && GroupsBelow(kept, groupBound)
  {
    var kept := Pruned(groups, IdSet(nodes));
    DetachedKeepsIds(nodes, GroupIdSet(kept));
    SameIdsAndZ(nodes, Detached(nodes, GroupIdSet(kept)), bound);
    PrunedIds(groups, IdSet(nodes));
    GroupIdsBelow(kept, groups, groupBound);
  }

  /** The counter itself is not yet a group id: `_groupUid` hands out a fresh one. */
  lemma {:induction false} GroupIdNotBelow(groups: seq<Group>, bound: nat)
    requires GroupsBelow(groups, bound)
    ensures bound !in GroupIdSet(groups)
  {
    if bound in GroupIdSet(groups) {
      var i :| 0 <= i < |groups| && groups[i].id == bound;
      GroupsBelowAt(groups, bound, i);
    }
  }

  /** Raising the counter keeps every group id below it. */
  lemma {:induction false} GroupsBelowRaised(groups: seq<Group>, bound: nat, bound': nat)
    requires GroupsBelow(groups, bound) && bound <= bound'
    ensures GroupsBelow(groups, bound')
  {
    forall i | 0 <= i < |groups| ensures groups[i].id < bound' {
      GroupsBelowAt(groups, bound, i);
    }
    GroupsBelowFrom(groups, bound');
  }

  /** Appending a group whose id is below the counter keeps every group id below it. */
  lemma {:induction false} GroupsBelowAppend(groups: seq<Group>, g: Group, bound: nat)
    requires GroupsBelow(groups, bound) && g.id < bound
    ensures GroupsBelow(groups + [g], bound)
  {
    assert (groups + [g])[..|groups|] == groups;
  }

  /** The node list `deleteSelected` leaves: the unselected nodes, cut loose from dropped groups, reindexed. */
  function DeletedNodes(nodes: seq<Node>, groups: seq<Group>, ids: seq<NodeId>): seq<Node>
  {
    var kept := Unlisted(nodes, ids);
    Reindexed(Detached(kept, GroupIdSet(Pruned(groups, IdSet(kept)))))
  }

  /** The group list `deleteSelected` leaves. */
  function DeletedGroups(nodes: seq<Node>, groups: seq<Group>, ids: seq<NodeId>): seq<Group>
  {
    Pruned(groups, IdSet(Unlisted(nodes, ids)))
  }

  /** What the store invariant needs from a delete. */
  lemma {:induction false} DeleteKeepsWellFormed(nodes: seq<Node>, groups: seq<Group>, ids: seq<NodeId>, bound: nat)
    requires WellFormed(nodes, bound)
    ensures WellFormed(DeletedNodes(nodes, groups, ids), bound)
    ensures GroupIdSet(DeletedGroups(nodes, groups, ids)) <= GroupIdSet(groups)
  {
    var kept := Unlisted(nodes, ids);
    UnlistedReindexed(nodes, ids, bound);
    DetachedReindexed(kept, GroupIdSet(Pruned(groups, IdSet(kept))), bound);
    PrunedIds(groups, IdSet(kept));
  }

  /**
   * Deleting keeps the node list well formed, removes exactly the selected ids, leaves the
   * groups consistent with what remains, and keeps only groups that existed before.
   */
  lemma {:induction false} DeleteOutcome(nodes: seq<Node>, groups: seq<Group>, ids: seq<NodeId>, bound: nat)
    requires WellFormed(nodes, bound)
    ensures WellFormed(DeletedNodes(nodes, groups, ids), bound)
    ensures forall id :: id in IdSet(DeletedNodes(nodes, groups, ids)) <==> id in IdSet(nodes) && id !in ids
    ensures GroupsConsistent(DeletedNodes(nodes, groups, ids), DeletedGroups(nodes, groups, ids), None)
    ensures GroupIdSet(DeletedGroups(nodes, groups, ids)) <= GroupIdSet(groups)
  {
    var kept := Unlisted(nodes, ids);
    var gs := Pruned(groups, IdSet(kept));
    var detached := Detached(kept, GroupIdSet(gs));
    UnlistedReindexed(nodes, ids, bound);
    DetachedReindexed(kept, GroupIdSet(gs), bound);
    CleanupEstablishesConsistency(kept, groups, None);
    ReindexedKeepsGroups(detached, gs, None);
    PrunedIds(groups, IdSet(kept));
  }

  /** The loop of `boxSelect` that collects the visible nodes whose box meets `r`. */
  method CollectBoxHits(nodes: seq<Node>, r: Rect) returns (hit: seq<NodeId>)
    ensures hit == BoxHits(nodes, r)
  {
    hit := [];
    var i := 0;
    while i < |nodes|
      invariant 0 <= i <= |nodes|
      invariant hit == BoxHits(nodes[..i], r)
    {
      var n := nodes[i];
      BoxHitsSnoc(nodes[..i], n, r);
      assert nodes[..i + 1] == nodes[..i] + [n];
      if n.visible && RectsIntersect(r, NodeBox(n)) {
        hit := hit + [n.id];
      }
      i := i + 1;
    }
    assert nodes[..i] == nodes;
  }

  /** The append loop of `boxSelect`: each id of `more` not yet present goes at the end. */
  method AddEach(ids: seq<NodeId>, more: seq<NodeId>) returns (r: seq<NodeId>)
    ensures r == AddedAll(ids, more)
  {
    r := ids;
    var k := 0;
    while k < |more|
      invariant 0 <= k <= |more|
      invariant AddedAll(r, more[k..]) == AddedAll(ids, more)
    {
      assert more[k..][1..] == more[k + 1..];
      r := Added(r, more[k]);
      k := k + 1;
    }
    assert more[k..] == [];
  }

  /** The first loop of `_cleanupGroups`: each group's member list keeps only existing ids. */
  method FilterMembers(groups: seq<Group>, existing: set<NodeId>) returns (gs: seq<Group>)
    ensures gs == MembersFiltered(groups, existing)
  {
    gs := groups;
    var i := 0;
    while i < |gs|
      invariant 0 <= i <= |gs| == |groups|
      invariant forall j :: 0 <= j < i ==> gs[j] == groups[j].(childIds := KeepExisting(groups[j].childIds, existing))
      invariant forall j :: i <= j < |gs| ==> gs[j] == groups[j]
    {
      gs := gs[i := gs[i].(childIds := KeepExisting(gs[i].childIds, existing))];
      i := i + 1;
    }
  }

  /** The last loop of `_cleanupGroups`: back-links to groups not in `gids` are cleared. */
  method DetachAll(nodes: seq<Node>, gids: set<GroupId>) returns (r: seq<Node>)
    ensures r == Detached(nodes, gids)
  {
    r := nodes;
    var k := 0;
    while k < |r|
      invariant 0 <= k <= |r| == |nodes|
      invariant forall j :: 0 <= j < k ==>
                  r[j] == if nodes[j].groupId.Some? && nodes[j].groupId.value !in gids then nodes[j].(groupId := None) else nodes[j]
      invariant forall j :: k <= j < |r| ==> r[j] == nodes[j]
    {
      if r[k].groupId.Some? && r[k].groupId.value !in gids {
        r := r[k := r[k].(groupId := None)];
      }
      k := k + 1;
    }
  }

  /** The group `groupSelection` appends: the fresh id, the label, the members' ids in node order. */
  function NewGroup(nodes: seq<Node>, selected: seq<NodeId>, name: string, count: nat, gid: GroupId): Group
  {
    Group(gid, GroupLabel(name, count), Ids(Groupable(nodes, selected)))
  }

  /** The node list right after `groupSelection`'s member loop: every member points at the new group. */
  function JoinedMembers(nodes: seq<Node>, selected: seq<NodeId>, gid: GroupId): seq<Node>
  {
    Joined(nodes, IdSet(Groupable(nodes, selected)), gid)
  }

  /** The group list `groupSelection` leaves: the new group appended, then `_cleanupGroups`. */
  function GroupedGroups(nodes: seq<Node>, groups: seq<Group>, selected: seq<NodeId>, name: string, gid: GroupId): seq<Group>
  {
    Pruned(groups + [NewGroup(nodes, selected, name, |groups|, gid)], IdSet(JoinedMembers(nodes, selected, gid)))
  }

  /** The node list `groupSelection` leaves. */
  function GroupedNodes(nodes: seq<Node>, groups: seq<Group>, selected: seq<NodeId>, name: string, gid: GroupId): seq<Node>
  {
    Detached(JoinedMembers(nodes, selected, gid), GroupIdSet(GroupedGroups(nodes, groups, selected, name, gid)))
  }

  /** With distinct ids, a node's id is a member id exactly when the node is a member. */
  lemma {:induction false} MemberById(nodes: seq<Node>, members: seq<Node>, i: nat)
    requires IdsDistinct(nodes) && i < |nodes| && forall m :: m in members ==> m in nodes
    ensures nodes[i].id in IdSet(members) <==> nodes[i] in members
  {
    if nodes[i].id in IdSet(members) {
      var m :| m in members && m.id == nodes[i].id;
      var j :| 0 <= j < |nodes| && nodes[j] == m;
      assert j == i;
    }
  }

  /** Joining a group touches only back-links, so the list stays as well formed as it was. */
  lemma {:induction false} JoinedKeepsIds(nodes: seq<Node>, members: set<NodeId>, gid: GroupId, bound: nat)
    requires WellFormed(nodes, bound)
    ensures WellFormed(Joined(nodes, members, gid), bound) && IdSet(Joined(nodes, members, gid)) == IdSet(nodes)
  {
    SameIdsAndZ(nodes, Joined(nodes, members, gid), bound);
  }

  /** The new group survives `_cleanupGroups` unchanged: its members all exist and there are at least two. */
  lemma {:induction false} NewGroupSurvives(nodes: seq<Node>, groups: seq<Group>, selected: seq<NodeId>, name: string, gid: GroupId, bound: nat)
    requires WellFormed(nodes, bound) && |Groupable(nodes, selected)| >= 2
    ensures NewGroup(nodes, selected, name, |groups|, gid) in GroupedGroups(nodes, groups, selected, name, gid)
    ensures gid in GroupIdSet(GroupedGroups(nodes, groups, selected, name, gid))
  {
    var members := Groupable(nodes, selected);
    var g := NewGroup(nodes, selected, name, |groups|, gid);
    var added := groups + [g];
    var existing := IdSet(JoinedMembers(nodes, selected, gid));
    JoinedKeepsIds(nodes, IdSet(members), gid, bound);
    var ids := Ids(members);
    GroupableMembers(nodes, selected);
    forall c | c in ids ensures c in existing {
      var j :| 0 <= j < |ids| && ids[j] == c;
      assert members[j] in nodes;
    }
    KeepExistingAll(ids, existing);
    var filtered := MembersFiltered(added, existing);
    assert filtered[|groups|] == g;
    assert g in filtered;
  }

  /** Each groupable node ends up pointing at the new group, otherwise unchanged. */
  lemma {:induction false} GroupedMembersPoint(nodes: seq<Node>, groups: seq<Group>, selected: seq<NodeId>, name: string, gid: GroupId, bound: nat)
    requires WellFormed(nodes, bound) && |Groupable(nodes, selected)| >= 2
    ensures var ns := GroupedNodes(nodes, groups, selected, name, gid);
            |ns| == |nodes| &&
            forall i :: 0 <= i < |nodes| && nodes[i].id in selected && !nodes[i].locked ==>
              ns[i] == nodes[i].(groupId := Some(gid))
  {
    var members := Groupable(nodes, selected);
    var gs := GroupedGroups(nodes, groups, selected, name, gid);
    NewGroupSurvives(nodes, groups, selected, name, gid, bound);
    GroupableMembers(nodes, selected);
    forall i | 0 <= i < |nodes| && nodes[i].id in selected && !nodes[i].locked
      ensures GroupedNodes(nodes, groups, selected, name, gid)[i] == nodes[i].(groupId := Some(gid))
    {
      MemberById(nodes, members, i);
    }
  }

  /**
   * `groupSelection` with at least two groupable nodes: the new group is kept with exactly
   * the selected unlocked nodes as members, each member points at it and nothing else about
   * a member changes, ids and draw order are kept, the groups are consistent with the new
   * group selected, and no group id other than the new one appears.
   */
  lemma {:induction false} GroupSelectionOutcome(nodes: seq<Node>, groups: seq<Group>, selected: seq<NodeId>, name: string, gid: GroupId, bound: nat)
    requires WellFormed(nodes, bound) && |Groupable(nodes, selected)| >= 2
    ensures var gs := GroupedGroups(nodes, groups, selected, name, gid);
            var ns := GroupedNodes(nodes, groups, selected, name, gid);
            && NewGroup(nodes, selected, name, |groups|, gid) in gs
            && WellFormed(ns, bound) && IdSet(ns) == IdSet(nodes) && |ns| == |nodes|
            && (forall i :: 0 <= i < |nodes| && nodes[i].id in selected && !nodes[i].locked ==>
                  ns[i] == nodes[i].(groupId := Some(gid)))
            && GroupsConsistent(ns, gs, Some(gid))
            && GroupIdSet(gs) <= GroupIdSet(groups) + {gid}
  {
    var members := Groupable(nodes, selected);
    var joined := JoinedMembers(nodes, selected, gid);
    var g := NewGroup(nodes, selected, name, |groups|, gid);
    var added := groups + [g];
    var gs := GroupedGroups(nodes, groups, selected, name, gid);
    var ns := GroupedNodes(nodes, groups, selected, name, gid);
    JoinedKeepsIds(nodes, IdSet(members), gid, bound);
    NewGroupSurvives(nodes, groups, selected, name, gid, bound);
    DetachedKeepsIds(joined, GroupIdSet(gs));
    SameIdsAndZ(joined, ns, bound);
    GroupedMembersPoint(nodes, groups, selected, name, gid, bound);
    CleanupEstablishesConsistency(joined, added, Some(gid));
    PrunedIds(added, IdSet(joined));
    AppendedGroupIds(groups, g);
  }

  lemma {:induction false} AppendedGroupIds(groups: seq<Group>, g: Group)
    ensures GroupIdSet(groups + [g]) == GroupIdSet(groups) + {g.id}
  {
    forall x | x in GroupIdSet(groups + [g]) ensures x in GroupIdSet(groups) + {g.id} {
      var h :| h in groups + [g] && h.id == x;
    }
  }

  /** `new Set(ids)` */
  function IdsAsSet(ids: seq<NodeId>): (r: set<NodeId>)
    ensures forall id :: id in r <==> id in ids
  {
    set id | id in ids
  }

  /** The group list `ungroupSelection` leaves: affected groups drop the selected members, then `_cleanupGroups`. */
  function UngroupedGroups(nodes: seq<Node>, groups: seq<Group>, selected: seq<NodeId>): seq<Group>
  {
    var sel := IdsAsSet(selected);
    Pruned(Shrunk(groups, Affected(nodes, sel), sel), IdSet(Released(nodes, sel)))
  }

  /** The node list `ungroupSelection` leaves. */
  function UngroupedNodes(nodes: seq<Node>, groups: seq<Group>, selected: seq<NodeId>): seq<Node>
  {
    Detached(Released(nodes, IdsAsSet(selected)), GroupIdSet(UngroupedGroups(nodes, groups, selected)))
  }

  /**
   * `ungroupSelection`: ids and draw order are kept, every selected node is ungrouped, no
   * group that held a selected node still lists a selected node, only existing groups
   * remain, and the groups are consistent with the nodes.
   */
  lemma {:induction false} UngroupOutcome(nodes: seq<Node>, groups: seq<Group>, selected: seq<NodeId>, selectedGroup: Option<GroupId>, bound: nat)
    requires WellFormed(nodes, bound)
    ensures var gs := UngroupedGroups(nodes, groups, selected);
            var ns := UngroupedNodes(nodes, groups, selected);
            && WellFormed(ns, bound) && IdSet(ns) == IdSet(nodes) && |ns| == |nodes|
            && (forall i :: 0 <= i < |nodes| && nodes[i].id in selected ==> ns[i] == nodes[i].(groupId := None))
            && GroupIdSet(gs) <= GroupIdSet(groups)
            && GroupsConsistent(ns, gs, KeptGroupSelection(selectedGroup, GroupIdSet(gs)))
  {
    var sel := IdsAsSet(selected);
    var released := Released(nodes, sel);
    var shrunk := Shrunk(groups, Affected(nodes, sel), sel);
    var gs := UngroupedGroups(nodes, groups, selected);
    SameIdsAndZ(nodes, released, bound);
    DetachedKeepsIds(released, GroupIdSet(gs));
    SameIdsAndZ(released, UngroupedNodes(nodes, groups, selected), bound);
    CleanupEstablishesConsistency(released, shrunk, selectedGroup);
    PrunedIds(shrunk, IdSet(released));
    ShrunkKeepsGroupIds(groups, Affected(nodes, sel), sel);
  }

  /** Releasing selected nodes touches only back-links and renames no group, so the store invariant's list facts survive. */
  lemma {:induction false} ReleaseKeepsInvariant(nodes: seq<Node>, groups: seq<Group>, sel: set<NodeId>, affected: set<GroupId>, bound: nat, groupBound: nat)
    requires WellFormed(nodes, bound) && GroupsBelow(groups, groupBound)
    ensures WellFormed(Released(nodes, sel), bound) && IdSet(Released(nodes, sel)) == IdSet(nodes)
    ensures GroupsBelow(Shrunk(groups, affected, sel), groupBound)
  {
    SameIdsAndZ(nodes, Released(nodes, sel), bound);
    ShrunkKeepsGroupIds(groups, affected, sel);
    GroupIdsBelow(Shrunk(groups, affected, sel), groups, groupBound);
  }

  /** Dropping members renames no group. */
  lemma {:induction false} ShrunkKeepsGroupIds(groups: seq<Group>, affected: set<GroupId>, sel: set<NodeId>)
    ensures GroupIdSet(Shrunk(groups, affected, sel)) == GroupIdSet(groups)
  {
    var shrunk := Shrunk(groups, affected, sel);
    forall x | x in GroupIdSet(shrunk) ensures x in GroupIdSet(groups) {
      var h :| h in shrunk && h.id == x;
      var j :| 0 <= j < |shrunk| && shrunk[j] == h;
      assert groups[j] in groups;
    }
    forall x | x in GroupIdSet(groups) ensures x in GroupIdSet(shrunk) {
      var h :| h in groups && h.id == x;
      var j :| 0 <= j < |groups| && groups[j] == h;
      assert shrunk[j] in shrunk;
    }
  }

  /** No group that held a selected node still lists a selected node after `ungroupSelection`. */
  lemma {:induction false} UngroupedGroupsDropSelected(nodes: seq<Node>, groups: seq<Group>, selected: seq<NodeId>)
    ensures forall g, c ::
              (g in UngroupedGroups(nodes, groups, selected) && g.id in Affected(nodes, IdsAsSet(selected)) && c in g.childIds)
              ==> c !in selected
  {
    var sel := IdsAsSet(selected);
    var affected := Affected(nodes, sel);
    var shrunk := Shrunk(groups, affected, sel);
    var filtered := MembersFiltered(shrunk, IdSet(Released(nodes, sel)));
    forall g, c | g in UngroupedGroups(nodes, groups, selected) && g.id in affected && c in g.childIds
      ensures c !in selected
    {
      var j :| 0 <= j < |filtered| && filtered[j] == g;
      assert shrunk[j].id == g.id;
    }
  }

  /** `reorderByIds` keeps the list well formed and its ids. */
  lemma {:induction false} ReorderKeepsWellFormed(nodes: seq<Node>, orderedIds: seq<NodeId>, bound: nat)
    requires WellFormed(nodes, bound)
    ensures WellFormed(ZOrder.ReorderByIds(nodes, orderedIds), bound)
    ensures IdSet(ZOrder.ReorderByIds(nodes, orderedIds)) == IdSet(nodes)
  {
    var r := ZOrder.ReorderByIds(nodes, orderedIds);
    forall i | 0 <= i < |r| ensures r[i].id < bound {
      assert r[i].id in IdSet(nodes);
      var j :| 0 <= j < |nodes| && nodes[j].id == r[i].id;
    }
  }

  /** Replacing one group's member list renames no group. */
  lemma {:induction false} ChildIdsKeepGroupsBelow(groups: seq<Group>, k: nat, childIds: seq<NodeId>, bound: nat)
    requires k < |groups| && GroupsBelow(groups, bound)
    ensures GroupsBelow(groups[k := groups[k].(childIds := childIds)], bound)
  {
    var gs := groups[k := groups[k].(childIds := childIds)];
    forall x | x in GroupIdSet(gs) ensures x in GroupIdSet(groups) {
      var h :| h in gs && h.id == x;
      var j :| 0 <= j < |gs| && gs[j] == h;
      assert groups[j].id == x;
    }
    GroupIdsBelow(gs, groups, bound);
  }

  /** Pasted nodes take ids from the counter, above every existing id, so selecting their ids selects exactly them. */
  lemma {:induction false} PastedSelected(nodes: seq<Node>, bound: nat, clips: seq<ClipNode>, ox: real, oy: real, firstZ: int)
    requires WellFormed(nodes, bound)
    ensures var added := Materialized(clips, ox, oy, bound, firstZ);
            Selectable(nodes + added, Ids(added)) == Ids(added)
  {
    var added := Materialized(clips, ox, oy, bound, firstZ);
    forall n, m | n in nodes && m in added ensures n.id != m.id {
      var i :| 0 <= i < |nodes| && nodes[i] == n;
      var j :| 0 <= j < |added| && added[j] == m;
    }
    SelectAppended(nodes, added);
  }

  /** Placing clip i extends both the placed nodes and their ids by one. */
  lemma {:induction false} PlacedStep(prefix: seq<Node>, clips: seq<ClipNode>, i: nat, ox: real, oy: real, firstId: nat, firstZ: int)
    requires i < |clips|
    ensures var before := Materialized(clips[..i], ox, oy, firstId, firstZ);
            var c := clips[i];
            && prefix + Materialized(clips[..i + 1], ox, oy, firstId, firstZ) == prefix + before + [Placed(c, firstId + i, firstZ + i, ox + c.dx, oy + c.dy)]
            && Ids(Materialized(clips[..i + 1], ox, oy, firstId, firstZ)) == Ids(before) + [firstId + i]
  {
    var c := clips[i];
    assert clips[..i + 1] == clips[..i] + [c];
    MaterializedSnoc(clips[..i], c, ox, oy, firstId, firstZ);
    var before := Materialized(clips[..i], ox, oy, firstId, firstZ);
    var after := before + [Placed(c, firstId + i, firstZ + i, ox + c.dx, oy + c.dy)];
    assert Ids(after) == Ids(before) + [firstId + i];
  }

  /** The first pasted node takes the first fresh id. */
  lemma {:induction false} FirstPastedId(clips: seq<ClipNode>, ox: real, oy: real, firstId: nat, firstZ: int)
    requires |clips| > 0
    ensures Ids(Materialized(clips, ox, oy, firstId, firstZ))[0] == firstId
  {
    var added := Materialized(clips, ox, oy, firstId, firstZ);
    assert added[0].id == firstId;
  }

  /**
   * The state after the first k rounds of `duplicateSelectedMany`, from nodes `n0`, counter
   * `s0` and history `h0`: the rounds' nodes appended, their ids created, the last round
   * selected, and two commit requests per placed node.
   */
  ghost predicate RoundsDone(nodes: seq<Node>, nodeSeq: nat, selectedIds: seq<NodeId>, history: History, created: seq<NodeId>,
                             n0: seq<Node>, s0: nat, h0: History, p: Repeat, k: nat)
  {
    && RoundsPlaced(nodes, nodeSeq, selectedIds, created, n0, s0, p, k)
    && history == ScheduledTimes(h0, 2 * |Rounds(p, k, s0, |n0|)|)
  }

  /** After k rounds from `n0`: the copies appended with consecutive ids, all returned, the last round selected. */
  ghost predicate RoundsPlaced(nodes: seq<Node>, nodeSeq: nat, selectedIds: seq<NodeId>, created: seq<NodeId>,
                               n0: seq<Node>, s0: nat, p: Repeat, k: nat)
  {
    var added := Rounds(p, k, s0, |n0|);
    && nodes == n0 + added
    && nodeSeq == s0 + |added|
    && created == Ids(added)
    && (k > 0 ==> |added| >= |p.clips| && selectedIds == Ids(added[|added| - |p.clips|..]))
  }

  /** One more round, placed and selected as `pasteFromClipboard`'s batch body does, keeps `RoundsDone`. */
  lemma {:induction false} RoundsDoneStep(nodes: seq<Node>, nodeSeq: nat, selectedIds: seq<NodeId>, history: History,
                                          created: seq<NodeId>, n0: seq<Node>, s0: nat, h0: History, p: Repeat, k: nat,
                                          round: seq<Node>, nodes': seq<Node>, nodeSeq': nat, selectedIds': seq<NodeId>,
                                          history': History, created': seq<NodeId>)
    requires RoundsDone(nodes, nodeSeq, selectedIds, history, created, n0, s0, h0, p, k)
    requires round == Materialized(p.clips, RoundOrigin(p, k + 1).0, RoundOrigin(p, k + 1).1, nodeSeq, |nodes|)
    requires nodes' == nodes + round && nodeSeq' == nodeSeq + |p.clips| && selectedIds' == Ids(round)
    requires history' == ScheduledTimes(history, 2 * |p.clips|) && created' == created + Ids(round)
    ensures RoundsDone(nodes', nodeSeq', selectedIds', history', created', n0, s0, h0, p, k + 1)
  {
    var before := Rounds(p, k, s0, |n0|);
    var after := Rounds(p, k + 1, s0, |n0|);
    assert after == before + round;
    assert nodes' == n0 + after by {
      SeqAssoc(n0, before, round);
    }
    IdsConcat(before, round);
    assert after[|before|..] == round;
    ScheduledTimesAdd(h0, 2 * |before|, 2 * |p.clips|);
  }

  /** With a valid selection, a non-empty id list selects at least one node. */
  lemma {:induction false} SelectionNonEmpty(nodes: seq<Node>, ids: seq<NodeId>)
    requires |ids| > 0 && ids[0] in IdSet(nodes)
    ensures |SelectedNodes(nodes, ids)| > 0
  {
    var n :| n in nodes && n.id == ids[0];
    assert n in SelectedNodes(nodes, ids);
  }

  /** `addNode` with a clip's position, colour, type and shape, then `updateNode` with its style, builds the placed node. */
  lemma {:induction false} PlacedByAddAndUpdate(c: ClipNode, id: NodeId, z: int, x: real, y: real)
    ensures Patched(NewNode(id, z, Finite(x), Finite(y), Some(c.color), Some(c.typeId), FullMeta(c.meta)), RestyleOf(c))
            == Placed(c, id, z, x, y)
  {
    assert MetaOf(FullMeta(c.meta)) == c.meta;
  }

  /** The member loop of `groupSelection`: each member's back-link is set to the new group. */
  method JoinAll(nodes: seq<Node>, members: set<NodeId>, gid: GroupId) returns (r: seq<Node>)
    ensures r == Joined(nodes, members, gid)
  {
    r := nodes;
    var k := 0;
    while k < |r|
      invariant 0 <= k <= |r| == |nodes|
      invariant forall j :: 0 <= j < k ==> r[j] == if nodes[j].id in members then nodes[j].(groupId := Some(gid)) else nodes[j]
      invariant forall j :: k <= j < |r| ==> r[j] == nodes[j]
    {
      if r[k].id in members {
        r := r[k := r[k].(groupId := Some(gid))];
      }
      k := k + 1;
    }
  }

  /** The first loop of `ungroupSelection`: each selected node's back-link is cleared. */
  method ReleaseAll(nodes: seq<Node>, selected: set<NodeId>) returns (r: seq<Node>)
    ensures r == Released(nodes, selected)
  {
    r := nodes;
    var k := 0;
    while k < |r|
      invariant 0 <= k <= |r| == |nodes|
      invariant forall j :: 0 <= j < k ==> r[j] == if nodes[j].id in selected then nodes[j].(groupId := None) else nodes[j]
      invariant forall j :: k <= j < |r| ==> r[j] == nodes[j]
    {
      if r[k].id in selected {
        r := r[k := r[k].(groupId := None)];
      }
      k := k + 1;
    }
  }

  /** The second loop of `ungroupSelection`: each affected group drops the selected members. */
  method ShrinkAll(groups: seq<Group>, affected: set<GroupId>, selected: set<NodeId>) returns (r: seq<Group>)
    ensures r == Shrunk(groups, affected, selected)
  {
    r := groups;
    var k := 0;
    while k < |r|
      invariant 0 <= k <= |r| == |groups|
      invariant forall j :: 0 <= j < k ==>
                  r[j] == if groups[j].id in affected then groups[j].(childIds := DropMembers(groups[j].childIds, selected)) else groups[j]
      invariant forall j :: k <= j < |r| ==> r[j] == groups[j]
    {
      if r[k].id in affected {
        r := r[k := r[k].(childIds := DropMembers(r[k].childIds, selected))];
      }
      k := k + 1;
    }
  }

  class EditorStore {
    var nodes: seq<Node>
    var selectedId: Option<NodeId>
    var selectedIds: seq<NodeId>
    var groups: seq<Group>
    var selectedGroupId: Option<GroupId>
    var view: View
    var settings: Settings
    /** `autosave.isDirty` */
    var autosaveDirty: bool
    var clipboard: Clipboard
    var pasteSession: PasteSession
    var history: History
    /** The next fresh node id and group id. */
    var nodeSeq: nat
    var groupSeq: nat

    /**
     * The store invariant: well-formed nodes (distinct ids below the id counter, dense
     * zIndex), a valid selection, a valid history that is not restoring and holds only
     * well-formed snapshots, a consistent paste session, and group ids below the counter.
     */
    ghost predicate Valid()
      reads this
    {
      && WellFormed(nodes, nodeSeq)
      && SelectionValid(nodes, selectedIds, selectedId)
      && HistoryValid(history) && !history.lock
      && SnapshotsWellFormed(history, nodeSeq)
      && SessionValid(pasteSession)
      && GroupsBelow(groups, groupSeq)
    }

    /** `_captureSnapshot` */
    function Snap(): Snapshot
      reads this`nodes, this`view, this`settings
    {
      Snapshot(nodes, view, settings)
    }

    /** The initial state of the store. */
    constructor()
      ensures Valid()
      ensures nodes == [] && groups == [] && selectedIds == [] && selectedId == None && selectedGroupId == None
      ensures view == DefaultView && settings == DefaultSettings && !autosaveDirty
      ensures clipboard == EmptyClipboard && pasteSession == ClosedSession && history == InitialHistory
    {
      nodes := [];
      selectedId := None;
      selectedIds := [];
      groups := [];
      selectedGroupId := None;
      view := DefaultView;
      settings := DefaultSettings;
      autosaveDirty := false;
      clipboard := EmptyClipboard;
      pasteSession := ClosedSession;
      history := InitialHistory;
      nodeSeq := 0;
      groupSeq := 0;
    }

    // ===== History =====

    /** `_pushHistory`: commit the live state unless restoring or unchanged since the last commit. */
    method PushHistory()
      modifies this`history
      ensures history == Pushed(old(history), Snap())
      ensures HistoryValid(old(history)) ==> HistoryValid(history)
      ensures SnapshotsWellFormed(old(history), nodeSeq) && WellFormed(nodes, nodeSeq) ==>
                SnapshotsWellFormed(history, nodeSeq)
    {
      var snap := Snap();
      PushKeeps(history, snap, nodeSeq);
      if history.lock || RepeatsTop(history, snap) {
        return;
      }
      history := history.(past := Trimmed(history.past + [snap]), future := []);
    }

    /** `scheduleHistoryCommit`: inside a batch only note it; otherwise (re)arm the debounce timer. */
    method ScheduleHistoryCommit()
      modifies this`history
      ensures history == Scheduled(old(history))
      ensures HistoryValid(old(history)) ==> HistoryValid(history)
    {
      if HistoryValid(history) {
        OperationsKeepHistoryValid(history, Snap());
      }
      if history.lock {
        return;
      }
      if history.batching > 0 {
        history := history.(batchDirty := true);
        return;
      }
      history := history.(timerPending := true);
    }

    /** The debounce timer's callback: it is disarmed and the live state is committed. */
    method FireHistoryTimer()
      modifies this`history
      ensures history == TimerFired(old(history), Snap())
      ensures HistoryValid(old(history)) ==> HistoryValid(history)
      ensures SnapshotsWellFormed(old(history), nodeSeq) && WellFormed(nodes, nodeSeq) ==>
                SnapshotsWellFormed(history, nodeSeq)
    {
      if !history.timerPending {
        return;
      }
      history := history.(timerPending := false);
      PushHistory();
    }

    /** `beginHistoryBatch` */
    method BeginHistoryBatch()
      modifies this`history
      ensures history == BatchBegun(old(history))
      ensures HistoryValid(old(history)) ==> HistoryValid(history)
      ensures old(Valid()) ==> Valid()
    {
      if HistoryValid(history) {
        OperationsKeepHistoryValid(history, Snap());
      }
      history := history.(batching := history.batching + 1);
    }

    /** `endHistoryBatch`: the outermost end commits once if anything was marked dirty inside. */
    method EndHistoryBatch()
      modifies this`history
      ensures history == BatchEnded(old(history), Snap())
      ensures HistoryValid(old(history)) ==> HistoryValid(history)
      ensures SnapshotsWellFormed(old(history), nodeSeq) && WellFormed(nodes, nodeSeq) ==>
                SnapshotsWellFormed(history, nodeSeq)
      ensures old(Valid()) ==> Valid()
    {
      ghost var h0, s0 := history, Snap();
      BatchEndKeeps(h0, s0, nodeSeq);
      CloseBatch();
      assert history == BatchEnded(h0, s0);
    }

    /** The body of `endHistoryBatch`: one level shallower, and the deferred commit at the outermost end. */
    method CloseBatch()
      modifies this`history
      ensures history == BatchEnded(old(history), Snap())
    {
      var depth := if history.batching == 0 then 0 else history.batching - 1;
      history := history.(batching := depth);
      if depth == 0 && history.batchDirty {
        history := history.(batchDirty := false);
        PushHistory();
      }
    }

    /** `markDirty`: unless restoring, flag the autosave and schedule a history commit. */
    method MarkDirty()
      modifies this`autosaveDirty, this`history
      ensures history == Scheduled(old(history))
      ensures autosaveDirty == (old(autosaveDirty) || !old(history).lock)
      ensures HistoryValid(old(history)) ==> HistoryValid(history)
      ensures old(Valid()) ==> Valid()
    {
      if history.lock {
        return;
      }
      autosaveDirty := true;
      ScheduleHistoryCommit();
    }

    /** `initHistory`: the live state becomes the only entry of the past. */
    method InitHistory()
      requires Valid()
      modifies this`history
      ensures Valid()
      ensures history == old(history).(past := [Snap()], future := [])
    {
      history := history.(past := [Snap()], future := []);
    }

    /** `_restoreSnapshot`: under the lock, replace nodes, view and settings and clear the selection. */
    method RestoreSnapshot(snap: Snapshot)
      modifies this`history, this`nodes, this`view, this`settings
      modifies this`selectedId, this`selectedIds, this`selectedGroupId, this`pasteSession
      ensures nodes == snap.nodes && view == snap.view && settings == snap.settings
      ensures selectedIds == [] && selectedId == None && selectedGroupId == None
      ensures pasteSession == if old(pasteSession).active then ClosedSession else old(pasteSession)
      ensures history == old(history).(lock := false)
      ensures old(Valid()) && WellFormed(snap.nodes, nodeSeq) ==> Valid()
    {
      history := history.(lock := true);
      nodes := snap.nodes;
      view := snap.view;
      settings := snap.settings;
      ClearSelection();
      history := history.(lock := false);
    }

    /**
     * `undo`: with more than the live state in the past, commit a pending change first,
     * move the top of the past to the front of the future and restore the new top.
     */
    method Undo() returns (ok: bool)
      requires Valid()
      modifies this`history, this`nodes, this`view, this`settings, this`autosaveDirty
      modifies this`selectedId, this`selectedIds, this`selectedGroupId, this`pasteSession
      ensures Valid()
      ensures ok == CanUndo(old(history))
      ensures !ok ==> unchanged(this)
      ensures ok ==>
                && history == Undone(old(history), old(Snap()))
                && Snap() == history.past[|history.past| - 1]
                && selectedIds == [] && selectedId == None && selectedGroupId == None
                && pasteSession == (if old(pasteSession).active then ClosedSession else old(pasteSession))
                && autosaveDirty
    {
      if history.lock {
        return false;
      }
      if |history.past| <= 1 {
        return false;
      }
      UndoAllowed();
      ok := true;
    }

    /** `undo` once it may proceed. */
    method UndoAllowed()
      requires Valid() && CanUndo(history)
      modifies this`history, this`nodes, this`view, this`settings, this`autosaveDirty
      modifies this`selectedId, this`selectedIds, this`selectedGroupId, this`pasteSession
      ensures Valid()
      ensures && history == Undone(old(history), old(Snap()))
              && Snap() == history.past[|history.past| - 1]
              && selectedIds == [] && selectedId == None && selectedGroupId == None
              && pasteSession == (if old(pasteSession).active then ClosedSession else old(pasteSession))
              && autosaveDirty
    {
      ghost var live := Snap();
      StepBack();
      assert history == Undone(old(history), live);
      ghost var stepped := history;
      var prev := history.past[|history.past| - 1];
      AllWellFormedAt(history.past, nodeSeq, |history.past| - 1);
      RestoreSnapshot(prev);
      assert history == stepped && Snap() == prev;
      autosaveDirty := true;
    }

    /** The history half of `undo`: commit a pending change, then move the top of the past to the future. */
    method StepBack()
      requires Valid() && CanUndo(history)
      modifies this`history
      ensures Valid()
      ensures history == Undone(old(history), Snap()) && |history.past| > 0
    {
      ghost var live := Snap();
      ghost var target := Undone(history, live);
      UndoKeeps(history, live, nodeSeq);
      FireHistoryTimer();
      ghost var h1 := history;
      assert h1 == TimerFired(old(history), live);
      assert target == UndoStep(h1);
      var current := history.past[|history.past| - 1];
      history := history.(past := history.past[..|history.past| - 1], future := [current] + history.future);
      assert history == UndoStep(h1);
    }

    /** `redo`: move the front of the future back on top of the past and restore it. */
    method Redo() returns (ok: bool)
      requires Valid()
      modifies this`history, this`nodes, this`view, this`settings, this`autosaveDirty
      modifies this`selectedId, this`selectedIds, this`selectedGroupId, this`pasteSession
      ensures Valid()
      ensures ok == CanRedo(old(history))
      ensures !ok ==> unchanged(this)
      ensures ok ==>
                && history == RedoStep(old(history))
                && Snap() == old(history).future[0]
                && selectedIds == [] && selectedId == None && selectedGroupId == None
                && pasteSession == (if old(pasteSession).active then ClosedSession else old(pasteSession))
                && autosaveDirty
    {
      if history.lock {
        return false;
      }
      if |history.future| == 0 {
        return false;
      }
      RedoAllowed();
      ok := true;
    }

    /** `redo` once it may proceed. */
    method RedoAllowed()
      requires Valid() && CanRedo(history)
      modifies this`history, this`nodes, this`view, this`settings, this`autosaveDirty
      modifies this`selectedId, this`selectedIds, this`selectedGroupId, this`pasteSession
      ensures Valid()
      ensures && history == RedoStep(old(history))
              && Snap() == old(history).future[0]
              && selectedIds == [] && selectedId == None && selectedGroupId == None
              && pasteSession == (if old(pasteSession).active then ClosedSession else old(pasteSession))
              && autosaveDirty
    {
      RedoWithin(history, Snap());
      SnapshotsKept(RedoStep(history), history, Snap(), nodeSeq);
      OperationsKeepHistoryValid(history, Snap());
      var next := history.future[0];
      AllWellFormedAt(history.future, nodeSeq, 0);
      history := history.(past := history.past + [next], future := history.future[1..]);
      RestoreSnapshot(next);
      autosaveDirty := true;
    }

    /**
     * With no commit pending, a successful undo followed by a redo leaves both stacks as
     * they were, and the live state is the snapshot on top of the past again.
     */
    method UndoThenRedo() returns (ok: bool)
      requires Valid() && !history.timerPending
      modifies this`history, this`nodes, this`view, this`settings, this`autosaveDirty
      modifies this`selectedId, this`selectedIds, this`selectedGroupId, this`pasteSession
      ensures Valid()
      ensures ok == CanUndo(old(history))
      ensures ok ==> history == old(history) && Snap() == old(history).past[|old(history).past| - 1]
    {
      ok := Undo();
      if ok {
        RedoAfterUndo(old(history), old(Snap()));
        var again := Redo();
      }
    }

    // ===== Selection =====

    /** `clearSelection`: nothing selected, no group selected, and an open paste session ends. */
    method ClearSelection()
      modifies this`selectedId, this`selectedIds, this`selectedGroupId, this`pasteSession
      ensures selectedId == None && selectedIds == [] && selectedGroupId == None
      ensures pasteSession == if old(pasteSession).active then ClosedSession else old(pasteSession)
    {
      selectedId := None;
      selectedIds := [];
      selectedGroupId := None;
      if pasteSession.active {
        EndPasteSession();
      }
    }

    /** `select(id, { append })`: an unknown id changes nothing. */
    method Select(id: NodeId, append: bool)
      requires Valid()
      modifies this`selectedId, this`selectedIds
      ensures Valid()
      ensures id !in IdSet(nodes) ==> selectedIds == old(selectedIds) && selectedId == old(selectedId)
      ensures id in IdSet(nodes) ==>
                && selectedId == Some(id)
                && selectedIds == if append then Added(old(selectedIds), id) else [id]
    {
      if id !in IdSet(nodes) {
        return;
      }
      if !append {
        selectedId := Some(id);
        selectedIds := [id];
        return;
      }
      selectedIds := Added(selectedIds, id);
      selectedId := Some(id);
    }

    /** `toggleSelect(id)`: flip the id's membership; the primary becomes the last selected id. */
    method ToggleSelect(id: NodeId)
      requires Valid()
      modifies this`selectedId, this`selectedIds
      ensures Valid()
      ensures id !in IdSet(nodes) ==> selectedIds == old(selectedIds) && selectedId == old(selectedId)
      ensures id in IdSet(nodes) ==>
                selectedIds == Toggled(old(selectedIds), id) && selectedId == LastOrNone(selectedIds)
    {
      if id !in IdSet(nodes) {
        return;
      }
      var ids := Toggled(selectedIds, id);
      selectedIds := ids;
      selectedId := LastOrNone(ids);
    }

    /** `setSelection(ids)`: the existing ids among `ids`, in node order; the primary is the last. */
    method SetSelection(ids: seq<NodeId>)
      requires Valid()
      modifies this`selectedId, this`selectedIds
      ensures Valid()
      ensures selectedIds == Selectable(nodes, ids) && selectedId == LastOrNone(selectedIds)
    {
      var valid := Selectable(nodes, ids);
      SelectableDistinct(nodes, ids);
      selectedIds := valid;
      selectedId := LastOrNone(valid);
    }

    /**
     * `boxSelect(rect, { append })`: a missing or empty rectangle changes nothing; otherwise
     * the visible nodes whose box meets it are selected, or added to the selection.
     */
    method BoxSelect(rect: Option<Rect>, append: bool)
      requires Valid()
      modifies this`selectedId, this`selectedIds
      ensures Valid()
      ensures rect.None? || rect.value.width <= 0.0 || rect.value.height <= 0.0 ==>
                selectedIds == old(selectedIds) && selectedId == old(selectedId)
      ensures rect.Some? && rect.value.width > 0.0 && rect.value.height > 0.0 ==>
                && selectedIds == (if append then AddedAll(old(selectedIds), BoxHits(nodes, rect.value))
                                   else Selectable(nodes, BoxHits(nodes, rect.value)))
                && selectedId == LastOrNone(selectedIds)
    {
      if rect.None? || rect.value.width <= 0.0 || rect.value.height <= 0.0 {
        return;
      }
      var hit := CollectBoxHits(nodes, rect.value);
      if !append {
        SetSelection(hit);
        return;
      }
      var ids := AddEach(selectedIds, hit);
      selectedIds := ids;
      selectedId := LastOrNone(ids);
    }

    // ===== Nodes =====

    /** `reindexZ`: every node's zIndex becomes its position in the array. */
    method ReindexZ()
      modifies this`nodes
      ensures nodes == Reindexed(old(nodes))
    {
      var i := 0;
      while i < |nodes|
        invariant 0 <= i <= |nodes| == |old(nodes)|
        invariant forall j :: 0 <= j < i ==> nodes[j] == old(nodes)[j].(zIndex := j)
        invariant forall j :: i <= j < |nodes| ==> nodes[j] == old(nodes)[j]
      {
        nodes := nodes[i := nodes[i].(zIndex := i)];
        i := i + 1;
      }
    }

    /**
     * `addNode`: a node with a fresh id is put on top of the stack with the defaults for
     * whatever was not given, becomes the only selected node, and a commit is scheduled.
     */
    method AddNode(x: JsNumber, y: JsNumber, color: Option<string>, typeId: Option<string>, meta: MetaInput)
      returns (id: NodeId)
      requires Valid()
      modifies this`nodes, this`nodeSeq, this`selectedId, this`selectedIds, this`autosaveDirty, this`history
      ensures Valid()
      ensures id == old(nodeSeq) && id !in IdSet(old(nodes)) && nodeSeq == id + 1
      ensures nodes == old(nodes) + [NewNode(id, |old(nodes)|, x, y, color, typeId, meta)]
      ensures selectedIds == [id] && selectedId == Some(id)
      ensures history == Scheduled(old(history)) && autosaveDirty
    {
      id := nodeSeq;
      var node := NewNode(id, |nodes|, x, y, color, typeId, meta);
      AppendedWellFormed(nodes, node, id);
      SnapshotsBoundRaised(history, id, id + 1);
      nodeSeq := id + 1;
      nodes := nodes + [node];
      selectedId := Some(id);
      selectedIds := [id];
      MarkDirty();
    }

    /** `updateNode(id, patch)`: the node with that id is patched; an unknown id does nothing. */
    method UpdateNode(id: NodeId, p: Patch)
      requires Valid()
      modifies this`nodes, this`autosaveDirty, this`history
      ensures Valid()
      ensures nodes == Scene.UpdateNode(old(nodes), id, p)
      ensures id !in IdSet(old(nodes)) ==> unchanged(this)
      ensures id in IdSet(old(nodes)) ==> history == Scheduled(old(history)) && autosaveDirty
    {
      var k := IndexOf(nodes, id);
      if k.None? {
        return;
      }
      nodes := nodes[k.value := Patched(nodes[k.value], p)];
      SameIdsAndZ(old(nodes), nodes, nodeSeq);
      MarkDirty();
    }

    /**
     * `reorderByIds(orderedIds)`: the listed nodes move to the back of the stack in the order
     * given, the others follow in their old order, zIndex is renumbered and a commit is
     * scheduled.
     */
    method ReorderByIds(orderedIds: seq<NodeId>)
      requires Valid()
      modifies this`nodes, this`history, this`autosaveDirty
      ensures Valid()
      ensures nodes == ZOrder.ReorderByIds(old(nodes), orderedIds)
      ensures history == Scheduled(old(history)) && autosaveDirty
    {
      ReorderKeepsWellFormed(nodes, orderedIds, nodeSeq);
      Restack(orderedIds);
      MarkDirty();
    }

    /** The state change of `reorderByIds` before `markDirty`. */
    method Restack(orderedIds: seq<NodeId>)
      requires IdsDistinct(nodes)
      modifies this`nodes
      ensures nodes == ZOrder.ReorderByIds(old(nodes), orderedIds)
    {
      nodes := ReorderNodes(nodes, orderedIds);
      ReindexZ();
    }

    /**
     * `reorderGroupChildIds(groupId, orderedChildIdsFrontToBack)` (the later of its two
     * definitions, which is the one that takes effect): an unknown group does nothing;
     * otherwise the group's member list becomes the given order and the stack is rebuilt
     * front to back with the members as one block where the front-most member stood.
     */
    method ReorderGroupChildIds(groupId: GroupId, orderedFrontToBack: seq<NodeId>)
      requires Valid()
      modifies this`groups, this`nodes, this`history, this`autosaveDirty
      ensures Valid()
      ensures FindGroup(old(groups), groupId).None? ==> unchanged(this)
      ensures FindGroup(old(groups), groupId).Some? ==>
                var k := FindGroup(old(groups), groupId).value;
                && groups == old(groups)[k := old(groups)[k].(childIds := orderedFrontToBack)]
                && nodes == ZOrder.ReorderByIds(old(nodes), Reverse(RestackedFront(old(nodes), orderedFrontToBack)))
                && history == Scheduled(old(history)) && autosaveDirty
    {
      var k := FindGroup(groups, groupId);
      if k.None? {
        return;
      }
      ChildIdsKeepGroupsBelow(groups, k.value, orderedFrontToBack, groupSeq);
      groups := groups[k.value := groups[k.value].(childIds := orderedFrontToBack)];
      ReorderByIds(Reverse(RestackedFront(nodes, orderedFrontToBack)));
      ScheduledIdempotent(old(history));
      MarkDirty();
    }

    /**
     * `_cleanupGroups`: every group keeps only its existing members, groups left with fewer
     * than two are dropped, back-links and the selected group naming a dropped group are
     * cleared. Afterwards the groups are consistent with the nodes, and the store invariant
     * still holds.
     */
    method CleanupGroups()
      modifies this`groups, this`nodes, this`selectedGroupId
      ensures groups == Pruned(old(groups), IdSet(old(nodes)))
      ensures nodes == Detached(old(nodes), GroupIdSet(groups))
      ensures selectedGroupId == KeptGroupSelection(old(selectedGroupId), GroupIdSet(groups))
      ensures old(Valid()) ==> Valid()
    {
      if Valid() {
        CleanupKeepsInvariant(nodes, groups, nodeSeq, groupSeq);
      }
      PruneAndDetach();
    }

    /** The state change of `_cleanupGroups`, with no claim about the invariant. */
    method PruneAndDetach()
      modifies this`groups, this`nodes, this`selectedGroupId
      ensures groups == Pruned(old(groups), IdSet(old(nodes)))
      ensures nodes == Detached(old(nodes), GroupIdSet(groups))
      ensures selectedGroupId == KeptGroupSelection(old(selectedGroupId), GroupIdSet(groups))
    {
      var existing := IdSet(nodes);
      var filtered := FilterMembers(groups, existing);
      groups := Populated(filtered);
      var gids := GroupIdSet(groups);
      nodes := DetachAll(nodes, gids);
      if selectedGroupId.Some? && selectedGroupId.value !in gids {
        selectedGroupId := None;
      }
    }

    /** The tail of `deleteSelected`: `_cleanupGroups` and then `reindexZ`. */
    method CleanupAndReindex()
      modifies this`groups, this`nodes, this`selectedGroupId
      ensures groups == Pruned(old(groups), IdSet(old(nodes)))
      ensures nodes == Reindexed(Detached(old(nodes), GroupIdSet(groups)))
      ensures selectedGroupId == KeptGroupSelection(old(selectedGroupId), GroupIdSet(groups))
    {
      CleanupGroups();
      ReindexZ();
    }

    /** `deleteSelected` once a selection exists, up to its `markDirty`. */
    method RemoveSelected()
      modifies this`nodes, this`selectedId, this`selectedIds, this`selectedGroupId, this`pasteSession, this`groups
      ensures nodes == DeletedNodes(old(nodes), old(groups), old(selectedIds))
      ensures groups == DeletedGroups(old(nodes), old(groups), old(selectedIds))
      ensures selectedIds == [] && selectedId == None && selectedGroupId == None
      ensures pasteSession == if old(pasteSession).active then ClosedSession else old(pasteSession)
    {
      var kept := Unlisted(nodes, selectedIds);
      ghost var pruned := Pruned(groups, IdSet(kept));
      nodes := kept;
      ClearSelection();
      CleanupAndReindex();
      assert groups == pruned;
      assert nodes == Reindexed(Detached(kept, GroupIdSet(pruned)));
    }

    /**
     * `deleteSelected`: with a selection, the selected nodes are removed, the selection is
     * cleared, the groups are reconciled, the draw order is re-densified and a commit is
     * scheduled; with nothing selected nothing happens.
     */
    method DeleteSelected()
      requires Valid()
      modifies this`nodes, this`selectedId, this`selectedIds, this`selectedGroupId, this`pasteSession
      modifies this`groups, this`autosaveDirty, this`history
      ensures Valid()
      ensures |old(selectedIds)| == 0 ==> unchanged(this)
      ensures |old(selectedIds)| > 0 ==>
                && nodes == DeletedNodes(old(nodes), old(groups), old(selectedIds))
                && groups == DeletedGroups(old(nodes), old(groups), old(selectedIds))
                && selectedIds == [] && selectedId == None && selectedGroupId == None
                && pasteSession == (if old(pasteSession).active then ClosedSession else old(pasteSession))
                && history == Scheduled(old(history)) && autosaveDirty
    {
      if |selectedIds| == 0 {
        return;
      }
      DeleteKeepsWellFormed(nodes, groups, selectedIds, nodeSeq);
      GroupIdsBelow(DeletedGroups(nodes, groups, selectedIds), groups, groupSeq);
      RemoveSelected();
      assert WellFormed(nodes, nodeSeq) && GroupsBelow(groups, groupSeq);
      assert SelectionValid(nodes, selectedIds, selectedId);
      MarkDirty();
    }

    // ===== Paste session =====

    /** `endPasteSession` */
    method EndPasteSession()
      modifies this`pasteSession
      ensures pasteSession == ClosedSession
    {
      pasteSession := ClosedSession;
    }

    /** `tickPasteSession` at time `now`: an open session idle for more than `timeoutMs` ends. */
    method TickPasteSession(now: int) returns (ended: bool)
      requires Valid()
      modifies this`pasteSession
      ensures Valid()
      ensures ended == Expired(old(pasteSession), now)
      ensures pasteSession == if ended then ClosedSession else old(pasteSession)
    {
      if !pasteSession.active {
        return false;
      }
      var last := if pasteSession.lastPasteAt.Some? then pasteSession.lastPasteAt.value else 0;
      if last == 0 {
        return false;
      }
      if now - last > PasteTimeoutMs {
        EndPasteSession();
        return true;
      }
      return false;
    }

    // ===== Groups =====

    /**
     * The history batch of `groupSelection`: the members' back-links are set, the group is
     * appended and selected. An empty batch leaves the history as it was.
     */
    method FormGroup(members: seq<Node>, title: string, g: GroupId)
      requires Valid() && g < groupSeq
      modifies this`nodes, this`groups, this`selectedGroupId, this`history
      ensures Valid()
      ensures nodes == Joined(old(nodes), IdSet(members), g)
      ensures groups == old(groups) + [Group(g, title, Ids(members))]
      ensures selectedGroupId == Some(g) && history == old(history)
    {
      JoinedKeepsIds(nodes, IdSet(members), g, nodeSeq);
      GroupsBelowAppend(groups, Group(g, title, Ids(members)), groupSeq);
      JoinBatch(members, title, g);
    }

    /** The state change of `FormGroup`, with no claim about the invariant. */
    method JoinBatch(members: seq<Node>, title: string, g: GroupId)
      requires HistoryValid(history) && !history.lock
      modifies this`nodes, this`groups, this`selectedGroupId, this`history
      ensures nodes == Joined(old(nodes), IdSet(members), g)
      ensures groups == old(groups) + [Group(g, title, Ids(members))]
      ensures selectedGroupId == Some(g) && history == old(history)
    {
      ghost var h0 := history;
      BeginHistoryBatch();
      nodes := JoinAll(nodes, IdSet(members), g);
      groups := groups + [Group(g, title, Ids(members))];
      selectedGroupId := Some(g);
      EmptyBatchChangesNothing(h0, Snap());
      EndHistoryBatch();
    }

    /** `_groupUid`: a group id that no existing group carries; a counter stands in for the random suffix. */
    method NextGroupId() returns (g: GroupId)
      requires Valid()
      modifies this`groupSeq
      ensures Valid()
      ensures g == old(groupSeq) && groupSeq == g + 1
      ensures g !in GroupIdSet(groups)
    {
      g := groupSeq;
      GroupsBelowRaised(groups, g, g + 1);
      groupSeq := groupSeq + 1;
      GroupIdNotBelow(groups, g);
    }

    /** `groupSelection` from its history batch through `_cleanupGroups`, for a selection that makes a group. */
    method Regroup(name: string, g: GroupId)
      requires Valid() && g < groupSeq
      requires |Groupable(nodes, selectedIds)| >= 2
      modifies this`nodes, this`groups, this`selectedGroupId, this`history
      ensures Valid()
      ensures nodes == GroupedNodes(old(nodes), old(groups), selectedIds, name, g)
      ensures groups == GroupedGroups(old(nodes), old(groups), selectedIds, name, g)
      ensures selectedGroupId == Some(g) && history == old(history)
    {
      NewGroupSurvives(nodes, groups, selectedIds, name, g, nodeSeq);
      FormGroup(Groupable(nodes, selectedIds), GroupLabel(name, |groups|), g);
      CleanupGroups();
    }

    /**
     * `groupSelection({ name })`: with fewer than two selected unlocked nodes nothing happens;
     * otherwise they become a new group with a fresh id, which is selected, the groups are
     * reconciled and a commit is scheduled.
     */
    method GroupSelection(name: string) returns (gid: Option<GroupId>)
      requires Valid()
      modifies this`nodes, this`groups, this`selectedGroupId, this`groupSeq, this`history, this`autosaveDirty
      ensures Valid()
      ensures |Groupable(old(nodes), old(selectedIds))| < 2 ==> gid.None? && unchanged(this)
      ensures |Groupable(old(nodes), old(selectedIds))| >= 2 ==>
                && gid == Some(old(groupSeq)) && groupSeq == old(groupSeq) + 1
                && nodes == GroupedNodes(old(nodes), old(groups), old(selectedIds), name, old(groupSeq))
                && groups == GroupedGroups(old(nodes), old(groups), old(selectedIds), name, old(groupSeq))
                && selectedGroupId == gid
                && history == Scheduled(old(history)) && autosaveDirty
    {
      var members := Groupable(nodes, selectedIds);
      if |members| < 2 {
        return None;
      }
      var g := MakeGroup(name);
      MarkDirty();
      gid := Some(g);
    }

    /** `groupSelection` for a selection that makes a group: a fresh id, then the regrouping. */
    method MakeGroup(name: string) returns (g: GroupId)
      requires Valid() && |Groupable(nodes, selectedIds)| >= 2
      modifies this`nodes, this`groups, this`selectedGroupId, this`groupSeq, this`history
      ensures Valid()
      ensures g == old(groupSeq) && groupSeq == old(groupSeq) + 1
      ensures nodes == GroupedNodes(old(nodes), old(groups), old(selectedIds), name, g)
      ensures groups == GroupedGroups(old(nodes), old(groups), old(selectedIds), name, g)
      ensures selectedGroupId == Some(g) && history == old(history)
    {
      g := NextGroupId();
      Regroup(name, g);
    }

    /** The history batch of `ungroupSelection`: selected nodes lose their back-link, the groups they left drop them. */
    method ReleaseSelection(ids: set<NodeId>, affected: set<GroupId>)
      requires Valid()
      modifies this`nodes, this`groups, this`history
      ensures Valid()
      ensures nodes == Released(old(nodes), ids) && groups == Shrunk(old(groups), affected, ids)
      ensures history == old(history)
    {
      ReleaseKeepsInvariant(nodes, groups, ids, affected, nodeSeq, groupSeq);
      ReleaseBatch(ids, affected);
    }

    /** The state change of `ReleaseSelection`, with no claim about the invariant. */
    method ReleaseBatch(ids: set<NodeId>, affected: set<GroupId>)
      requires HistoryValid(history) && !history.lock
      modifies this`nodes, this`groups, this`history
      ensures nodes == Released(old(nodes), ids) && groups == Shrunk(old(groups), affected, ids)
      ensures history == old(history)
    {
      ghost var h0 := history;
      BeginHistoryBatch();
      nodes := ReleaseAll(nodes, ids);
      groups := ShrinkAll(groups, affected, ids);
      EmptyBatchChangesNothing(h0, Snap());
      EndHistoryBatch();
    }

    /** `ungroupSelection` from its history batch through `_cleanupGroups`. */
    method Ungroup()
      requires Valid()
      modifies this`nodes, this`groups, this`selectedGroupId, this`history
      ensures Valid()
      ensures nodes == UngroupedNodes(old(nodes), old(groups), selectedIds)
      ensures groups == UngroupedGroups(old(nodes), old(groups), selectedIds)
      ensures selectedGroupId == KeptGroupSelection(old(selectedGroupId), GroupIdSet(groups))
      ensures history == old(history)
    {
      var ids := IdsAsSet(selectedIds);
      ReleaseSelection(ids, Affected(nodes, ids));
      CleanupGroups();
    }

    /**
     * `ungroupSelection()`: when some selected node belongs to a group, every selected node
     * leaves its group, the groups it left drop it, the groups are reconciled and a commit is
     * scheduled; otherwise nothing happens. Reports whether anything was ungrouped.
     */
    method UngroupSelection() returns (ok: bool)
      requires Valid()
      modifies this`nodes, this`groups, this`selectedGroupId, this`history, this`autosaveDirty
      ensures Valid()
      ensures ok == (|Affected(old(nodes), IdsAsSet(old(selectedIds)))| > 0)
      ensures !ok ==> unchanged(this)
      ensures ok ==>
                && nodes == UngroupedNodes(old(nodes), old(groups), old(selectedIds))
                && groups == UngroupedGroups(old(nodes), old(groups), old(selectedIds))
                && selectedGroupId == KeptGroupSelection(old(selectedGroupId), GroupIdSet(groups))
                && history == Scheduled(old(history)) && autosaveDirty
    {
      var ids := IdsAsSet(selectedIds);
      if |ids| == 0 {
        assert Affected(nodes, ids) == {};
        return false;
      }
      if |Affected(nodes, ids)| == 0 {
        return false;
      }
      UngroupAndMark();
      ok := true;
    }

    /** `ungroupSelection` once some selected node is grouped: the ungrouping, then `markDirty`. */
    method UngroupAndMark()
      requires Valid()
      modifies this`nodes, this`groups, this`selectedGroupId, this`history, this`autosaveDirty
      ensures Valid()
      ensures nodes == UngroupedNodes(old(nodes), old(groups), selectedIds)
      ensures groups == UngroupedGroups(old(nodes), old(groups), selectedIds)
      ensures selectedGroupId == KeptGroupSelection(old(selectedGroupId), GroupIdSet(groups))
      ensures history == Scheduled(old(history)) && autosaveDirty
    {
      Ungroup();
      MarkDirty();
    }

    /** `selectGroup(groupId)`: an unknown group does nothing; otherwise it is selected along with its members. */
    method SelectGroup(groupId: GroupId)
      requires Valid()
      modifies this`selectedGroupId, this`selectedId, this`selectedIds
      ensures Valid()
      ensures FindGroup(old(groups), groupId).None? ==> unchanged(this)
      ensures FindGroup(old(groups), groupId).Some? ==>
                && selectedGroupId == Some(groupId)
                && selectedIds == Selectable(nodes, groups[FindGroup(groups, groupId).value].childIds)
                && selectedId == LastOrNone(selectedIds)
    {
      var k := FindGroup(groups, groupId);
      if k.None? {
        return;
      }
      selectedGroupId := Some(groupId);
      SetSelection(groups[k.value].childIds);
    }

    // ===== Clipboard and paste =====

    /**
     * `copySelected()`: with nothing selected nothing happens; otherwise the bounding box of
     * the selected nodes is computed and every selected node is recorded relative to its
     * corner, with its style.
     */
    method CopySelected() returns (ok: bool)
      requires Valid()
      modifies this`clipboard
      ensures Valid()
      ensures ok == (|SelectedNodes(nodes, selectedIds)| > 0)
      ensures ok ==> clipboard == Copied(SelectedNodes(nodes, selectedIds))
      ensures !ok ==> clipboard == old(clipboard)
    {
      var sel := SelectedNodes(nodes, selectedIds);
      if |sel| == 0 {
        return false;
      }
      var bbox := BoundingBox(sel);
      clipboard := Clipboard(seq(|sel|, i requires 0 <= i < |sel| => ClipOf(sel[i], bbox)), Some(bbox));
      ok := true;
    }

    /** One clip placed at (x, y): `addNode` with its colour, type and shape, then `updateNode` with its style. */
    method PlaceClip(c: ClipNode, x: real, y: real) returns (id: NodeId)
      requires Valid()
      modifies this`nodes, this`nodeSeq, this`selectedId, this`selectedIds, this`autosaveDirty, this`history
      ensures Valid()
      ensures id == old(nodeSeq) && nodeSeq == id + 1
      ensures nodes == old(nodes) + [Placed(c, id, |old(nodes)|, x, y)]
      ensures history == Scheduled(Scheduled(old(history))) && autosaveDirty
    {
      var added := NewNode(nodeSeq, |nodes|, Finite(x), Finite(y), Some(c.color), Some(c.typeId), FullMeta(c.meta));
      UpdateFreshLast(nodes, added, RestyleOf(c));
      PlacedByAddAndUpdate(c, nodeSeq, |nodes|, x, y);
      id := AddNode(Finite(x), Finite(y), Some(c.color), Some(c.typeId), FullMeta(c.meta));
      UpdateNode(id, RestyleOf(c));
    }

    /**
     * The nodes `pasteFromClipboard` adds inside its history batch: for each clip,
     * `addNode` at (ox + dx, oy + dy) with the clip's colour, type and shape, then
     * `updateNode` with its style. Each call requests one commit.
     */
    method PlaceClips(clips: seq<ClipNode>, ox: real, oy: real) returns (newIds: seq<NodeId>)
      requires Valid()
      modifies this`nodes, this`nodeSeq, this`selectedId, this`selectedIds, this`autosaveDirty, this`history
      ensures Valid()
      ensures nodes == old(nodes) + Materialized(clips, ox, oy, old(nodeSeq), |old(nodes)|)
      ensures nodeSeq == old(nodeSeq) + |clips|
      ensures newIds == Ids(Materialized(clips, ox, oy, old(nodeSeq), |old(nodes)|))
      ensures history == ScheduledTimes(old(history), 2 * |clips|)
      ensures autosaveDirty == (old(autosaveDirty) || |clips| > 0)
    {
      newIds := [];
      var i := 0;
      assert clips[..0] == [];
      while i < |clips|
        invariant 0 <= i <= |clips|
        invariant Valid()
        invariant PlacedSoFar(old(nodes), old(nodeSeq), old(history), old(autosaveDirty), clips[..i], ox, oy, newIds)
      {
        newIds := PlaceNext(old(nodes), old(nodeSeq), old(history), old(autosaveDirty), clips, i, ox, oy, newIds);
        i := i + 1;
      }
      assert clips[..i] == clips;
    }

    /** The state after the first clips of a paste were placed, starting from nodes `n0`, counter `s0`, history `h0` and flag `d0`. */
    ghost predicate PlacedSoFar(n0: seq<Node>, s0: nat, h0: History, d0: bool, placed: seq<ClipNode>, ox: real, oy: real, newIds: seq<NodeId>)
      reads this
    {
      && nodes == n0 + Materialized(placed, ox, oy, s0, |n0|)
      && nodeSeq == s0 + |placed|
      && newIds == Ids(Materialized(placed, ox, oy, s0, |n0|))
      && history == ScheduledTimes(h0, 2 * |placed|)
      && autosaveDirty == (d0 || |placed| > 0)
    }

    /** One turn of the loop of `PlaceClips`: clip i is placed and its id recorded. */
    method PlaceNext(ghost n0: seq<Node>, ghost s0: nat, ghost h0: History, ghost d0: bool,
                     clips: seq<ClipNode>, i: nat, ox: real, oy: real, newIds: seq<NodeId>)
      returns (next: seq<NodeId>)
      requires i < |clips| && Valid()
      requires PlacedSoFar(n0, s0, h0, d0, clips[..i], ox, oy, newIds)
      modifies this`nodes, this`nodeSeq, this`selectedId, this`selectedIds, this`autosaveDirty, this`history
      ensures Valid()
      ensures PlacedSoFar(n0, s0, h0, d0, clips[..i + 1], ox, oy, next)
    {
      var c := clips[i];
      var id := PlaceClip(c, ox + c.dx, oy + c.dy);
      PlacedStep(n0, clips, i, ox, oy, s0, |n0|);
      ScheduledTwice(h0, 2 * i);
      next := newIds + [id];
    }

    /** The body of the paste batch: the clips are placed at (ox, oy) and the new nodes become the selection. */
    method PlaceAndSelect(clips: seq<ClipNode>, ox: real, oy: real) returns (newIds: seq<NodeId>)
      requires Valid()
      modifies this`nodes, this`nodeSeq, this`selectedId, this`selectedIds, this`autosaveDirty, this`history
      ensures Valid()
      ensures nodes == old(nodes) + Materialized(clips, ox, oy, old(nodeSeq), |old(nodes)|)
      ensures nodeSeq == old(nodeSeq) + |clips|
      ensures newIds == Ids(Materialized(clips, ox, oy, old(nodeSeq), |old(nodes)|))
      ensures selectedIds == newIds && selectedId == LastOrNone(newIds)
      ensures history == ScheduledTimes(old(history), 2 * |clips|)
      ensures autosaveDirty == (old(autosaveDirty) || |clips| > 0)
    {
      newIds := PlaceClips(clips, ox, oy);
      PastedSelected(old(nodes), old(nodeSeq), clips, ox, oy, |old(nodes)|);
      SetSelection(newIds);
    }

    /**
     * The batch of `pasteFromClipboard`: the clips are placed at (ox, oy) inside one history
     * batch, which commits once, and the new nodes become the selection.
     */
    method PasteBatch(clips: seq<ClipNode>, ox: real, oy: real) returns (newIds: seq<NodeId>)
      requires Valid() && |clips| > 0
      modifies this`nodes, this`nodeSeq, this`selectedId, this`selectedIds, this`autosaveDirty, this`history
      ensures Valid()
      ensures nodes == old(nodes) + Materialized(clips, ox, oy, old(nodeSeq), |old(nodes)|)
      ensures nodeSeq == old(nodeSeq) + |clips|
      ensures newIds == Ids(Materialized(clips, ox, oy, old(nodeSeq), |old(nodes)|))
      ensures selectedIds == newIds && selectedId == LastOrNone(newIds)
      ensures history == (if old(history).batching == 0 then Pushed(old(history), Snap())
                          else old(history).(batchDirty := true))
      ensures autosaveDirty
    {
      ghost var h0 := history;
      BeginHistoryBatch();
      newIds := PlaceAndSelect(clips, ox, oy);
      BatchOutcome(h0, 2 * |clips|, Snap());
      EndHistoryBatch();
    }

    /** Replaces the paste session by a well-formed one. */
    method SetPasteSession(s: PasteSession)
      requires Valid() && SessionValid(s)
      modifies this`pasteSession
      ensures Valid() && pasteSession == s
    {
      pasteSession := s;
    }

    /**
     * `pasteFromClipboard({ x, y, offset, multi })` at time `now`: an empty clipboard does
     * nothing; otherwise the session is opened or timestamped, every clip is placed as one
     * history batch at the paste origin, the new nodes become the selection, a multi paste
     * counts one more cascade step, and the first new id is returned. The session is written
     * once, after the batch: nothing in the batch reads it, and snapshots do not hold it.
     */
    method PasteFromClipboard(x: Option<real>, y: Option<real>, offset: real, multi: bool, now: int)
      returns (first: Option<NodeId>)
      requires Valid()
      modifies this`nodes, this`nodeSeq, this`selectedId, this`selectedIds, this`autosaveDirty, this`history, this`pasteSession
      ensures Valid()
      ensures |clipboard.nodes| == 0 ==> first.None? && unchanged(this)
      ensures |clipboard.nodes| > 0 ==>
                var o := PasteOrigin(SessionOpened(old(pasteSession), multi, x, y, now), multi, x, y, offset);
                var added := Materialized(clipboard.nodes, o.0, o.1, old(nodeSeq), |old(nodes)|);
                && nodes == old(nodes) + added
                && nodeSeq == old(nodeSeq) + |added|
                && first == Some(old(nodeSeq))
                && selectedIds == Ids(added) && selectedId == LastOrNone(selectedIds)
                && pasteSession == SessionAfterPaste(old(pasteSession), multi, x, y, now)
                && history == (if old(history).batching == 0 then Pushed(old(history), Snap())
                               else old(history).(batchDirty := true))
                && autosaveDirty
    {
      if |clipboard.nodes| == 0 {
        return None;
      }
      var id := PasteClips(x, y, offset, multi, now);
      first := Some(id);
    }

    /** `pasteFromClipboard` for a non-empty clipboard: the batch at the paste origin, then the session update. */
    method PasteClips(x: Option<real>, y: Option<real>, offset: real, multi: bool, now: int)
      returns (first: NodeId)
      requires Valid() && |clipboard.nodes| > 0
      modifies this`nodes, this`nodeSeq, this`selectedId, this`selectedIds, this`autosaveDirty, this`history, this`pasteSession
      ensures Valid()
      ensures var o := PasteOrigin(SessionOpened(old(pasteSession), multi, x, y, now), multi, x, y, offset);
              var added := Materialized(clipboard.nodes, o.0, o.1, old(nodeSeq), |old(nodes)|);
              && nodes == old(nodes) + added
              && nodeSeq == old(nodeSeq) + |added|
              && first == old(nodeSeq)
              && selectedIds == Ids(added) && selectedId == LastOrNone(selectedIds)
              && pasteSession == SessionAfterPaste(old(pasteSession), multi, x, y, now)
              && history == (if old(history).batching == 0 then Pushed(old(history), Snap())
                             else old(history).(batchDirty := true))
              && autosaveDirty
    {
      var clips := clipboard.nodes;
      var session := SessionOpened(pasteSession, multi, x, y, now);
      var o := PasteOrigin(session, multi, x, y, offset);
      var newIds := PasteBatch(clips, o.0, o.1);
      FirstPastedId(clips, o.0, o.1, old(nodeSeq), |old(nodes)|);
      SetPasteSession(SessionAfterPaste(pasteSession, multi, x, y, now));
      first := newIds[0];
    }

    /**
     * `duplicateSelected({ offset })` at time `now`: with nothing selected nothing happens;
     * otherwise the selection is copied and pasted once, not as a cascade and with no paste
     * point, so the copy's box corner lands at (200 + offset, 200 + offset).
     */
    method DuplicateSelected(offset: real, now: int) returns (first: Option<NodeId>)
      requires Valid()
      modifies this`nodes, this`nodeSeq, this`selectedId, this`selectedIds, this`autosaveDirty, this`history,
               this`pasteSession, this`clipboard
      ensures Valid()
      ensures |old(selectedIds)| == 0 ==> first.None? && unchanged(this)
      ensures |old(selectedIds)| > 0 ==>
                var copied := Copied(SelectedNodes(old(nodes), old(selectedIds)));
                var added := Materialized(copied.nodes, DefaultPasteBase + offset, DefaultPasteBase + offset, old(nodeSeq), |old(nodes)|);
                && clipboard == copied
                && nodes == old(nodes) + added
                && nodeSeq == old(nodeSeq) + |added|
                && first == Some(old(nodeSeq))
                && selectedIds == Ids(added) && selectedId == LastOrNone(selectedIds)
                && pasteSession == old(pasteSession).(lastPasteAt := Some(now))
                && history == (if old(history).batching == 0 then Pushed(old(history), Snap())
                               else old(history).(batchDirty := true))
                && autosaveDirty
    {
      if |selectedIds| == 0 {
        return None;
      }
      SelectionNonEmpty(nodes, selectedIds);
      var ok := CopySelected();
      assert |clipboard.nodes| > 0;
      assert PasteOrigin(SessionOpened(pasteSession, false, None, None, now), false, None, None, offset)
             == (DefaultPasteBase + offset, DefaultPasteBase + offset);
      first := PasteFromClipboard(None, None, offset, false, now);
    }

    /**
     * `duplicateSelectedMany({ count, stepX, stepY, inPlace })`: the selection is copied and
     * pasted `RepeatCount(count)` times in one history batch, round k with the copied box's
     * corner moved by k steps (or not at all in place); each round selects its own copies,
     * and the ids of every copy are returned in creation order.
     */
    method DuplicateSelectedMany(count: JsNumber, stepX: real, stepY: real, inPlace: bool) returns (created: seq<NodeId>)
      requires Valid()
      modifies this`nodes, this`nodeSeq, this`selectedId, this`selectedIds, this`autosaveDirty, this`history, this`clipboard
      ensures Valid()
      ensures |SelectedNodes(old(nodes), old(selectedIds))| == 0 ==> created == [] && unchanged(this)
      ensures |SelectedNodes(old(nodes), old(selectedIds))| > 0 ==>
                clipboard == Copied(SelectedNodes(old(nodes), old(selectedIds)))
      ensures |SelectedNodes(old(nodes), old(selectedIds))| > 0 ==>
                && clipboard.bbox.Some?
                && RoundsPlaced(nodes, nodeSeq, selectedIds, created, old(nodes), old(nodeSeq),
                                Repeat(clipboard.nodes, clipboard.bbox.value.x, clipboard.bbox.value.y, stepX, stepY, inPlace),
                                RepeatCount(count))
                && history == (if old(history).batching == 0 then Pushed(old(history), Snap())
                               else old(history).(batchDirty := true))
                && selectedId == LastOrNone(selectedIds) && autosaveDirty
    {
      if |SelectedNodes(nodes, selectedIds)| == 0 {
        return [];
      }
      created := CopyAndRepeat(RepeatCount(count), stepX, stepY, inPlace);
    }

    /** `duplicateSelectedMany` with something selected: copy, then the rounds from the copied box's corner. */
    method CopyAndRepeat(times: nat, stepX: real, stepY: real, inPlace: bool) returns (created: seq<NodeId>)
      requires Valid() && |SelectedNodes(nodes, selectedIds)| > 0 && times > 0
      modifies this`nodes, this`nodeSeq, this`selectedId, this`selectedIds, this`autosaveDirty, this`history, this`clipboard
      ensures Valid()
      ensures clipboard == Copied(SelectedNodes(old(nodes), old(selectedIds))) && clipboard.bbox.Some?
      ensures RoundsPlaced(nodes, nodeSeq, selectedIds, created, old(nodes), old(nodeSeq),
                           Repeat(clipboard.nodes, clipboard.bbox.value.x, clipboard.bbox.value.y, stepX, stepY, inPlace), times)
      ensures history == (if old(history).batching == 0 then Pushed(old(history), Snap())
                          else old(history).(batchDirty := true))
      ensures selectedId == LastOrNone(selectedIds) && autosaveDirty
    {
      var ok := CopySelected();
      created := RepeatClipboard(times, stepX, stepY, inPlace);
    }

    /** `duplicateSelectedMany` once the clipboard holds the copy: the rounds from the copied box's corner. */
    method RepeatClipboard(times: nat, stepX: real, stepY: real, inPlace: bool) returns (created: seq<NodeId>)
      requires Valid() && |clipboard.nodes| > 0 && clipboard.bbox.Some? && times > 0
      modifies this`nodes, this`nodeSeq, this`selectedId, this`selectedIds, this`autosaveDirty, this`history
      ensures Valid()
      ensures RoundsPlaced(nodes, nodeSeq, selectedIds, created, old(nodes), old(nodeSeq),
                           Repeat(clipboard.nodes, clipboard.bbox.value.x, clipboard.bbox.value.y, stepX, stepY, inPlace), times)
      ensures history == (if old(history).batching == 0 then Pushed(old(history), Snap())
                          else old(history).(batchDirty := true))
      ensures selectedId == LastOrNone(selectedIds) && autosaveDirty
    {
      var bbox := clipboard.bbox.value;
      created := RoundsBatch(Repeat(clipboard.nodes, bbox.x, bbox.y, stepX, stepY, inPlace), times);
    }

    /** The history batch of `duplicateSelectedMany`, which commits once. */
    method RoundsBatch(p: Repeat, times: nat) returns (created: seq<NodeId>)
      requires Valid() && |p.clips| > 0 && times > 0
      modifies this`nodes, this`nodeSeq, this`selectedId, this`selectedIds, this`autosaveDirty, this`history
      ensures Valid()
      ensures RoundsPlaced(nodes, nodeSeq, selectedIds, created, old(nodes), old(nodeSeq), p, times)
      ensures history == (if old(history).batching == 0 then Pushed(old(history), Snap())
                          else old(history).(batchDirty := true))
      ensures selectedId == LastOrNone(selectedIds) && autosaveDirty
    {
      ghost var h0 := history;
      BeginHistoryBatch();
      created := PlaceRounds(p, times);
      ghost var added := Rounds(p, times, old(nodeSeq), |old(nodes)|);
      assert |added| >= |p.clips|;
      BatchOutcome(h0, 2 * |added|, Snap());
      EndHistoryBatch();
    }

    /** The rounds loop of `duplicateSelectedMany`. */
    method PlaceRounds(p: Repeat, times: nat) returns (created: seq<NodeId>)
      requires Valid() && |p.clips| > 0 && times > 0
      modifies this`nodes, this`nodeSeq, this`selectedId, this`selectedIds, this`autosaveDirty, this`history
      ensures Valid()
      ensures RoundsDone(nodes, nodeSeq, selectedIds, history, created, old(nodes), old(nodeSeq), old(history), p, times)
      ensures selectedId == LastOrNone(selectedIds) && autosaveDirty
    {
      created := [];
      var k := 0;
      while k < times
        invariant 0 <= k <= times
        invariant Valid()
        invariant RoundsDone(nodes, nodeSeq, selectedIds, history, created, old(nodes), old(nodeSeq), old(history), p, k)
        invariant k > 0 ==> selectedId == LastOrNone(selectedIds) && autosaveDirty
      {
        created := PlaceRound(old(nodes), old(nodeSeq), old(history), p, k, created);
        k := k + 1;
      }
    }

    /** Round k + 1 of `duplicateSelectedMany`: every clip placed again at the round's corner, and selected. */
    method PlaceRound(ghost n0: seq<Node>, ghost s0: nat, ghost h0: History, p: Repeat, k: nat, created: seq<NodeId>)
      returns (next: seq<NodeId>)
      requires Valid() && |p.clips| > 0
      requires RoundsDone(nodes, nodeSeq, selectedIds, history, created, n0, s0, h0, p, k)
      modifies this`nodes, this`nodeSeq, this`selectedId, this`selectedIds, this`autosaveDirty, this`history
      ensures Valid()
      ensures RoundsDone(nodes, nodeSeq, selectedIds, history, next, n0, s0, h0, p, k + 1)
      ensures selectedId == LastOrNone(selectedIds) && autosaveDirty
    {
      var newIds := PlaceAndSelect(p.clips, RoundOrigin(p, k + 1).0, RoundOrigin(p, k + 1).1);
      next := created + newIds;
      RoundsDoneStep(old(nodes), old(nodeSeq), old(selectedIds), old(history), created, n0, s0, h0, p, k,
                     Materialized(p.clips, RoundOrigin(p, k + 1).0, RoundOrigin(p, k + 1).1, old(nodeSeq), |old(nodes)|),
                     nodes, nodeSeq, selectedIds, history, next);
    }

    /** The `updateNode` loop shared by `alignSelection` and `distributeSelection`. */
    method ApplyUpdates(updates: seq<(NodeId, Patch)>)
      requires Valid() && Targets(updates, nodes)
      modifies this`nodes, this`autosaveDirty, this`history
      ensures Valid()
      ensures nodes == UpdateAll(old(nodes), updates)
      ensures history == ScheduledTimes(old(history), |updates|)
      ensures autosaveDirty == (old(autosaveDirty) || |updates| > 0)
    {
      var i := 0;
      while i < |updates|
        invariant 0 <= i <= |updates|
        invariant Valid()
        invariant UpdatedSoFar(nodes, history, autosaveDirty, old(nodes), old(history), old(autosaveDirty), updates, i)
      {
        ApplyNext(old(nodes), old(history), old(autosaveDirty), updates, i);
        i := i + 1;
      }
      assert updates[..i] == updates;
    }

    /** One `updateNode` call of the loop. */
    method ApplyNext(ghost n0: seq<Node>, ghost h0: History, ghost d0: bool, updates: seq<(NodeId, Patch)>, i: nat)
      requires Valid() && i < |updates| && Targets(updates, n0)
      requires UpdatedSoFar(nodes, history, autosaveDirty, n0, h0, d0, updates, i)
      modifies this`nodes, this`autosaveDirty, this`history
      ensures Valid()
      ensures UpdatedSoFar(nodes, history, autosaveDirty, n0, h0, d0, updates, i + 1)
    {
      assert updates[i].0 in IdSet(nodes);
      UpdateNode(updates[i].0, updates[i].1);
      UpdatedStep(old(nodes), old(history), n0, h0, d0, updates, i, nodes, history);
    }

    /**
     * `alignSelection(mode)`: with fewer than two unlocked selected nodes nothing happens;
     * otherwise one history batch moves each of them to its align target.
     */
    method AlignSelection(mode: string)
      requires Valid()
      modifies this`nodes, this`autosaveDirty, this`history
      ensures Valid()
      ensures |Movable(old(nodes), old(selectedIds))| < 2 ==> unchanged(this)
      ensures |Movable(old(nodes), old(selectedIds))| >= 2 ==>
                && nodes == UpdateAll(old(nodes), AlignUpdates(Movable(old(nodes), old(selectedIds)), mode))
                && autosaveDirty
                && history == (if old(history).batching == 0 then Pushed(old(history), Snap())
                               else old(history).(batchDirty := true))
    {
      var boxes := Movable(nodes, selectedIds);
      if |boxes| < 2 {
        return;
      }
      AlignTargetsPresent(nodes, selectedIds, mode);
      UpdateBatch(AlignUpdates(boxes, mode));
    }

    /**
     * `distributeSelection(axis)`: with fewer than three unlocked selected nodes nothing
     * happens; otherwise one history batch spaces the interior ones evenly along the axis.
     */
    method DistributeSelection(axis: string)
      requires Valid()
      modifies this`nodes, this`autosaveDirty, this`history
      ensures Valid()
      ensures |Movable(old(nodes), old(selectedIds))| < 3 ==> unchanged(this)
      ensures |Movable(old(nodes), old(selectedIds))| >= 3 ==>
                && nodes == UpdateAll(old(nodes), DistributeUpdates(AxisOrder(Movable(old(nodes), old(selectedIds)), axis), axis))
                && autosaveDirty
                && history == (if old(history).batching == 0 then Pushed(old(history), Snap())
                               else old(history).(batchDirty := true))
    {
      var sorted := AxisOrder(Movable(nodes, selectedIds), axis);
      if |sorted| < 3 {
        return;
      }
      DistributeTargetsPresent(nodes, selectedIds, axis);
      UpdateBatch(DistributeUpdates(sorted, axis));
    }

    /** A non-empty loop of `updateNode` calls inside one history batch. */
    method UpdateBatch(updates: seq<(NodeId, Patch)>)
      requires Valid() && Targets(updates, nodes) && |updates| > 0
      modifies this`nodes, this`autosaveDirty, this`history
      ensures Valid()
      ensures nodes == UpdateAll(old(nodes), updates)
      ensures autosaveDirty
      ensures history == (if old(history).batching == 0 then Pushed(old(history), Snap())
                          else old(history).(batchDirty := true))
    {
      ghost var h0 := history;
      BeginHistoryBatch();
      ApplyUpdates(updates);
      BatchOutcome(h0, |updates|, Snap());
      EndHistoryBatch();
    }
  }

  /** The state after the first `i` updates of a loop of `updateNode` calls. */
  ghost predicate UpdatedSoFar(nodes: seq<Node>, history: History, dirty: bool,
                               n0: seq<Node>, h0: History, d0: bool, updates: seq<(NodeId, Patch)>, i: nat)
  {
    && i <= |updates|
    && nodes == UpdateAll(n0, updates[..i])
    && IdSet(nodes) == IdSet(n0)
    && history == ScheduledTimes(h0, i)
    && dirty == (d0 || i > 0)
  }

  /** One more `updateNode` of a target present in the scene extends the loop state by one update. */
  lemma {:induction false} UpdatedStep(nodes: seq<Node>, history: History, n0: seq<Node>, h0: History, d0: bool,
                                       updates: seq<(NodeId, Patch)>, i: nat, nodes': seq<Node>, history': History)
    requires i < |updates|
    requires UpdatedSoFar(nodes, history, d0 || i > 0, n0, h0, d0, updates, i)
    requires nodes' == Scene.UpdateNode(nodes, updates[i].0, updates[i].1)
    requires history' == Scheduled(history)
    ensures UpdatedSoFar(nodes', history', true, n0, h0, d0, updates, i + 1)
  {
    assert updates[..i + 1][..i] == updates[..i];
    assert updates[..i + 1][i] == updates[i];
    SameIdsAndZ(nodes, nodes', 0);
  }
}
