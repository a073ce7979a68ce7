/**
 * `alignSelection` and `distributeSelection` as values: which nodes move, where each goes,
 * and the `updateNode` calls that move them. Only the unlocked selected nodes take part.
 */
module Align {
  import opened Common
  import opened Geometry
  import opened Scene
  import opened Boxes
  import opened Sorting

  /** `.filter(n => !n.locked)` */
  function Unlocked(nodes: seq<Node>): (r: seq<Node>)
    ensures forall n :: n in r <==> n in nodes && !n.locked
    decreases |nodes|
  {
    if |nodes| == 0 then []
    else
      var rest := Unlocked(nodes[1..]);
      assert forall n :: n in nodes <==> n == nodes[0] || n in nodes[1..] by {
        assert nodes == [nodes[0]] + nodes[1..];
      }
      (if !nodes[0].locked then [nodes[0]] else []) + rest
  }

  /** Dropping the locked nodes of a list with distinct ids keeps them distinct. */
  lemma {:induction false} UnlockedDistinct(nodes: seq<Node>)
    requires IdsDistinct(nodes)
    ensures IdsDistinct(Unlocked(nodes))
    decreases |nodes|
  {
    if |nodes| > 0 {
      TailDistinct(nodes);
      UnlockedDistinct(nodes[1..]);
      if !nodes[0].locked {
        ConsDistinct(nodes, Unlocked(nodes[1..]));
      }
    }
  }

  /** The movable nodes of a list with distinct ids have distinct ids. */
  lemma {:induction false} MovableDistinct(nodes: seq<Node>, selectedIds: seq<NodeId>)
    requires IdsDistinct(nodes)
    ensures IdsDistinct(Movable(nodes, selectedIds))
  {
    SelectedNodesDistinct(nodes, selectedIds);
    UnlockedDistinct(SelectedNodes(nodes, selectedIds));
  }

  /** The nodes an align or distribute acts on: the selected ones that are not locked. */
  function Movable(nodes: seq<Node>, selectedIds: seq<NodeId>): seq<Node>
  {
    Unlocked(SelectedNodes(nodes, selectedIds))
  }

  /**
   * Where `alignSelection(mode)` puts node `n` of the movable nodes `boxes`: against the
   * common left or right edge, the common top or bottom edge, or the centre of the
   * combined box; any other mode leaves the node's centre where it is.
   */
  function AlignTarget(boxes: seq<Node>, n: Node, mode: string): (real, real)
    requires |boxes| > 0
  {
    var minLeft := MinLeft(boxes);
    var maxRight := MaxRight(boxes);
    var minTop := MinTop(boxes);
    var maxBottom := MaxBottom(boxes);
    var b := NodeBox(n);
    var nx :=
      if mode == "left" then minLeft + b.width / 2.0
      else if mode == "right" then maxRight - b.width / 2.0
      else if mode == "center-x" then (minLeft + maxRight) / 2.0
      else n.x;
    var ny :=
      if mode == "top" then minTop + b.height / 2.0
      else if mode == "bottom" then maxBottom - b.height / 2.0
      else if mode == "center-y" then (minTop + maxBottom) / 2.0
      else n.y;
    (nx, ny)
  }

  /** The `updateNode(id, { x, y })` calls `alignSelection` makes, one per movable node, in order; none for fewer than two. */
  function AlignUpdates(boxes: seq<Node>, mode: string): (r: seq<(NodeId, Patch)>)
    ensures |boxes| < 2 ==> r == []
    ensures |boxes| >= 2 ==> |r| == |boxes| && forall j :: 0 <= j < |boxes| ==>
              r[j] == (boxes[j].id, Move(AlignTarget(boxes, boxes[j], mode).0, AlignTarget(boxes, boxes[j], mode).1))
  {
    if |boxes| < 2 then []
    else
      seq(|boxes|, j requires 0 <= j < |boxes| =>
        (boxes[j].id, Move(AlignTarget(boxes, boxes[j], mode).0, AlignTarget(boxes, boxes[j], mode).1)))
  }

  /** The coordinate `distributeSelection(axis)` spaces out: x for `'x'`, y for anything else. */
  function Coord(n: Node, axis: string): real
  {
    if axis == "x" then n.x else n.y
  }

  /** The sort key of `distributeSelection`: ascending coordinate on the axis. */
  function AxisKey(axis: string): Node -> real
  {
    n => Coord(n, axis)
  }

  /** The movable nodes in the order `distributeSelection` walks them. */
  function AxisOrder(boxes: seq<Node>, axis: string): (r: seq<Node>)
    ensures |r| == |boxes| && multiset(r) == multiset(boxes) && SortedBy(r, AxisKey(axis))
  {
    StableSort(boxes, AxisKey(axis))
  }

  /** `gap = (end - start) / (nodes.length - 1)` for the sorted nodes. */
  function Gap(sorted: seq<Node>, axis: string): real
    requires |sorted| >= 2
  {
    (Coord(sorted[|sorted| - 1], axis) - Coord(sorted[0], axis)) / (|sorted| - 1) as real
  }

  /** The slot of sorted position i: `start + gap * i`. */
  function Slot(sorted: seq<Node>, axis: string, i: nat): real
    requires |sorted| >= 2
  {
    Coord(sorted[0], axis) + Gap(sorted, axis) * i as real
  }

  /** The patch that puts a node's coordinate on the axis at `v`. */
  function AxisMove(axis: string, v: real): Patch
  {
    if axis == "x" then MoveX(v) else MoveY(v)
  }

  /**
   * The `updateNode` calls `distributeSelection` makes: the interior sorted nodes, in order,
   * each moved to its slot; none for fewer than three nodes.
   */
  function DistributeUpdates(sorted: seq<Node>, axis: string): (r: seq<(NodeId, Patch)>)
    ensures |sorted| < 3 ==> r == []
    ensures |sorted| >= 3 ==> |r| == |sorted| - 2 && forall j :: 0 <= j < |sorted| - 2 ==>
              r[j] == (sorted[j + 1].id, AxisMove(axis, Slot(sorted, axis, j + 1)))
  {
    if |sorted| < 3 then []
    else
      seq(|sorted| - 2, j requires 0 <= j < |sorted| - 2 =>
        (sorted[j + 1].id, AxisMove(axis, Slot(sorted, axis, j + 1))))
  }

  /**
   * Updates addressed to members of the node array, one per member with distinct ids: each
   * member gets its own patch and every other node is left alone.
   */
  lemma {:induction false} UpdatesOfMembers(nodes: seq<Node>, members: seq<Node>, updates: seq<(NodeId, Patch)>)
    requires IdsDistinct(nodes) && IdsDistinct(members)
    requires forall m :: m in members ==> m in nodes
    requires |updates| == |members| && forall j :: 0 <= j < |members| ==> updates[j].0 == members[j].id
    ensures |UpdateAll(nodes, updates)| == |nodes|
    ensures forall i, j :: 0 <= i < |nodes| && 0 <= j < |members| && members[j] == nodes[i] ==>
              UpdateAll(nodes, updates)[i] == Patched(nodes[i], updates[j].1)
    ensures forall i :: 0 <= i < |nodes| && nodes[i] !in members ==> UpdateAll(nodes, updates)[i] == nodes[i]
  {
    var ids := UpdateIds(updates);
    assert Distinct(ids) by {
      forall a, b | 0 <= a < b < |ids| ensures ids[a] != ids[b] {
        assert ids[a] == members[a].id && ids[b] == members[b].id;
      }
    }
    UpdateAllDistinct(nodes, updates);
    forall i | 0 <= i < |nodes| {
      PatchOfMember(nodes, members, updates, i);
    }
  }

  /** Which update reaches node i: the one of the member it is, or none when it is no member. */
  lemma {:induction false} PatchOfMember(nodes: seq<Node>, members: seq<Node>, updates: seq<(NodeId, Patch)>, i: nat)
    requires IdsDistinct(nodes) && Distinct(UpdateIds(updates)) && i < |nodes|
    requires forall m :: m in members ==> m in nodes
    requires |updates| == |members| && forall j :: 0 <= j < |members| ==> updates[j].0 == members[j].id
    ensures forall j :: 0 <= j < |members| && members[j] == nodes[i] ==> PatchFor(updates, nodes[i].id) == Some(updates[j].1)
    ensures PatchFor(updates, nodes[i].id).Some? ==> nodes[i] in members
  {
    if PatchFor(updates, nodes[i].id).Some? {
      var j :| 0 <= j < |updates| && UpdateIds(updates)[j] == nodes[i].id;
      assert members[j] in nodes;
      var k :| 0 <= k < |nodes| && nodes[k] == members[j];
      assert k == i;
    }
  }

  /**
   * Where the align targets put a node: for `left` its left edge on the leftmost edge of
   * the movable nodes, for `right` its right edge on the rightmost one, for `center-x` its
   * centre on the middle of their combined box, likewise vertically, and in every mode the
   * coordinate on the other axis unchanged.
   */
  lemma {:induction false} AlignTargetMeets(boxes: seq<Node>, n: Node, mode: string)
    requires |boxes| > 0
    ensures var t := AlignTarget(boxes, n, mode);
            var m := n.(x := t.0, y := t.1);
            && (mode == "left" ==> Left(m) == MinLeft(boxes) && m.y == n.y)
            && (mode == "right" ==> Right(m) == MaxRight(boxes) && m.y == n.y)
            && (mode == "center-x" ==> m.x == (MinLeft(boxes) + MaxRight(boxes)) / 2.0 && m.y == n.y)
            && (mode == "top" ==> Top(m) == MinTop(boxes) && m.x == n.x)
            && (mode == "bottom" ==> Bottom(m) == MaxBottom(boxes) && m.x == n.x)
            && (mode == "center-y" ==> m.y == (MinTop(boxes) + MaxBottom(boxes)) / 2.0 && m.x == n.x)
            && (mode !in {"left", "right", "center-x", "top", "bottom", "center-y"} ==> m == n)
  {
    var t := AlignTarget(boxes, n, mode);
    MovedEdges(n, t.0, t.1);
  }

  /** A node moved to (x, y) has its edges half its box away from (x, y). */
  lemma {:induction false} MovedEdges(n: Node, x: real, y: real)
    ensures var m := n.(x := x, y := y);
            && Left(m) == x - NodeBox(n).width / 2.0 && Right(m) == x + NodeBox(n).width / 2.0
            && Top(m) == y - NodeBox(n).height / 2.0 && Bottom(m) == y + NodeBox(n).height / 2.0
  {
    MoveKeepsExtent(n, x, y);
    Halved(ExtentX(n));
    Halved(ExtentY(n));
  }

  /** Moving a node does not change its extents. */
  lemma {:induction false} MoveKeepsExtent(n: Node, x: real, y: real)
    ensures ExtentX(n.(x := x, y := y)) == ExtentX(n) && ExtentY(n.(x := x, y := y)) == ExtentY(n)
  {
  }

  /** A box's half width is the extent it was built from. */
  lemma {:induction false} Halved(e: real)
    ensures (e * 2.0) / 2.0 == e
  {
  }

  /**
   * `alignSelection(mode)` with at least two movable nodes moves exactly those nodes, each
   * to its align target; every other node stays as it was.
   */
  lemma {:induction false} AlignMovesOnlyMovable(nodes: seq<Node>, selectedIds: seq<NodeId>, mode: string)
    requires IdsDistinct(nodes)
    requires |Movable(nodes, selectedIds)| >= 2
    ensures var boxes := Movable(nodes, selectedIds);
            var r := UpdateAll(nodes, AlignUpdates(boxes, mode));
            && |r| == |nodes|
            && (forall i :: 0 <= i < |nodes| && nodes[i] !in boxes ==> r[i] == nodes[i])
            && (forall i :: 0 <= i < |nodes| && nodes[i] in boxes ==>
                  r[i] == nodes[i].(x := AlignTarget(boxes, nodes[i], mode).0, y := AlignTarget(boxes, nodes[i], mode).1))
  {
    var boxes := Movable(nodes, selectedIds);
    MovableDistinct(nodes, selectedIds);
    AlignMembers(nodes, boxes, mode);
  }

  /** Every update of `alignSelection` names a node of the scene. */
  lemma {:induction false} AlignTargetsPresent(nodes: seq<Node>, selectedIds: seq<NodeId>, mode: string)
    ensures Targets(AlignUpdates(Movable(nodes, selectedIds), mode), nodes)
  {
    var boxes := Movable(nodes, selectedIds);
    var updates := AlignUpdates(boxes, mode);
    forall j | 0 <= j < |updates| ensures updates[j].0 in IdSet(nodes) {
      assert boxes[j] in boxes;
      assert boxes[j] in nodes;
    }
  }

  lemma {:induction false} AlignMembers(nodes: seq<Node>, boxes: seq<Node>, mode: string)
    requires IdsDistinct(nodes) && IdsDistinct(boxes) && |boxes| >= 2
    requires forall m :: m in boxes ==> m in nodes
    ensures var r := UpdateAll(nodes, AlignUpdates(boxes, mode));
            && |r| == |nodes|
            && (forall i :: 0 <= i < |nodes| && nodes[i] !in boxes ==> r[i] == nodes[i])
            && (forall i :: 0 <= i < |nodes| && nodes[i] in boxes ==>
                  r[i] == nodes[i].(x := AlignTarget(boxes, nodes[i], mode).0, y := AlignTarget(boxes, nodes[i], mode).1))
  {
    var updates := AlignUpdates(boxes, mode);
    UpdatesOfMembers(nodes, boxes, updates);
    forall i | 0 <= i < |nodes| && nodes[i] in boxes
      ensures UpdateAll(nodes, updates)[i] ==
                nodes[i].(x := AlignTarget(boxes, nodes[i], mode).0, y := AlignTarget(boxes, nodes[i], mode).1)
    {
      var j :| 0 <= j < |boxes| && boxes[j] == nodes[i];
      assert updates[j].1 == Move(AlignTarget(boxes, nodes[i], mode).0, AlignTarget(boxes, nodes[i], mode).1);
    }
  }

  /**
   * `r` is `nodes` with the `sorted` nodes evenly spaced along the axis: sorted node k at
   * slot k, the first and last slots being where the first and last nodes already are,
   * with only the axis coordinate changed and every other node as it was.
   */
  ghost predicate EvenlySpaced(nodes: seq<Node>, sorted: seq<Node>, axis: string, r: seq<Node>)
    requires |sorted| >= 2
  {
    && |r| == |nodes|
    && (forall i :: 0 <= i < |nodes| && nodes[i] !in sorted ==> r[i] == nodes[i])
    && (forall i, k :: 0 <= i < |nodes| && 0 <= k < |sorted| && sorted[k] == nodes[i] ==>
          && Coord(r[i], axis) == Slot(sorted, axis, k)
          && r[i] == (if axis == "x" then nodes[i].(x := r[i].x) else nodes[i].(y := r[i].y)))
    && Slot(sorted, axis, 0) == Coord(sorted[0], axis)
    && Slot(sorted, axis, |sorted| - 1) == Coord(sorted[|sorted| - 1], axis)
  }

  /**
   * `distributeSelection(axis)` with at least three movable nodes: in ascending order of
   * the axis coordinate, sorted node k ends up at `start + gap * k`, so the nodes are evenly
   * spaced between the first and the last, which stay put; the other coordinate and every
   * other node stay as they were.
   */
  lemma {:induction false} DistributeEvenly(nodes: seq<Node>, selectedIds: seq<NodeId>, axis: string)
    requires IdsDistinct(nodes)
    requires |Movable(nodes, selectedIds)| >= 3
    ensures var sorted := AxisOrder(Movable(nodes, selectedIds), axis);
            EvenlySpaced(nodes, sorted, axis, UpdateAll(nodes, DistributeUpdates(sorted, axis)))
  {
    var boxes := Movable(nodes, selectedIds);
    var sorted := AxisOrder(boxes, axis);
    MovableDistinct(nodes, selectedIds);
    PermutationKeepsIdsDistinct(boxes, sorted);
    forall m | m in sorted ensures m in nodes {
      assert m in multiset(boxes);
    }
    DistributeMembers(nodes, sorted, axis);
  }

  /** Every update of `distributeSelection` names a node of the scene. */
  lemma {:induction false} DistributeTargetsPresent(nodes: seq<Node>, selectedIds: seq<NodeId>, axis: string)
    ensures Targets(DistributeUpdates(AxisOrder(Movable(nodes, selectedIds), axis), axis), nodes)
  {
    var boxes := Movable(nodes, selectedIds);
    var sorted := AxisOrder(boxes, axis);
    var updates := DistributeUpdates(sorted, axis);
    forall j | 0 <= j < |updates| ensures updates[j].0 in IdSet(nodes) {
      assert sorted[j + 1] in multiset(boxes);
      assert sorted[j + 1] in nodes;
    }
  }

  lemma {:induction false} DistributeMembers(nodes: seq<Node>, sorted: seq<Node>, axis: string)
    requires IdsDistinct(nodes) && IdsDistinct(sorted) && |sorted| >= 3
    requires forall m :: m in sorted ==> m in nodes
    ensures EvenlySpaced(nodes, sorted, axis, UpdateAll(nodes, DistributeUpdates(sorted, axis)))
  {
    DistributeOthers(nodes, sorted, axis);
    DistributeSorted(nodes, sorted, axis);
    SlotEnds(sorted, axis);
  }

  /** Every sorted node of a distribute ends up in its slot, with only its axis coordinate changed. */
  lemma {:induction false} DistributeSorted(nodes: seq<Node>, sorted: seq<Node>, axis: string)
    requires IdsDistinct(nodes) && IdsDistinct(sorted) && |sorted| >= 3
    requires forall m :: m in sorted ==> m in nodes
    ensures |UpdateAll(nodes, DistributeUpdates(sorted, axis))| == |nodes|
    ensures var r := UpdateAll(nodes, DistributeUpdates(sorted, axis));
            forall i, k :: 0 <= i < |nodes| && 0 <= k < |sorted| && sorted[k] == nodes[i] ==>
              && Coord(r[i], axis) == Slot(sorted, axis, k)
              && r[i] == (if axis == "x" then nodes[i].(x := r[i].x) else nodes[i].(y := r[i].y))
  {
    var r := UpdateAll(nodes, DistributeUpdates(sorted, axis));
    UpdateAllKeepsShape(nodes, DistributeUpdates(sorted, axis));
    forall i, k | 0 <= i < |nodes| && 0 <= k < |sorted| && sorted[k] == nodes[i]
      ensures Coord(r[i], axis) == Slot(sorted, axis, k)
      ensures r[i] == (if axis == "x" then nodes[i].(x := r[i].x) else nodes[i].(y := r[i].y))
    {
      DistributeOne(nodes, sorted, axis, i, k);
    }
  }

  /** The nodes a distribute does not sort are left alone. */
  lemma {:induction false} DistributeOthers(nodes: seq<Node>, sorted: seq<Node>, axis: string)
    requires IdsDistinct(nodes) && IdsDistinct(sorted) && |sorted| >= 3
    requires forall m :: m in sorted ==> m in nodes
    ensures |UpdateAll(nodes, DistributeUpdates(sorted, axis))| == |nodes|
    ensures forall i :: 0 <= i < |nodes| && nodes[i] !in sorted ==> UpdateAll(nodes, DistributeUpdates(sorted, axis))[i] == nodes[i]
  {
    InteriorUpdates(nodes, sorted, axis);
    var interior := sorted[1..|sorted| - 1];
    forall i | 0 <= i < |nodes| && nodes[i] !in sorted ensures nodes[i] !in interior {
      forall j | 0 <= j < |interior| ensures interior[j] != nodes[i] {
        assert interior[j] == sorted[j + 1];
      }
    }
  }

  /** The distribute updates reach the interior sorted nodes, and nothing else. */
  lemma {:induction false} InteriorUpdates(nodes: seq<Node>, sorted: seq<Node>, axis: string)
    requires IdsDistinct(nodes) && IdsDistinct(sorted) && |sorted| >= 3
    requires forall m :: m in sorted ==> m in nodes
    ensures var interior := sorted[1..|sorted| - 1];
            var updates := DistributeUpdates(sorted, axis);
            var r := UpdateAll(nodes, updates);
            && |r| == |nodes|
            && (forall i, j :: 0 <= i < |nodes| && 0 <= j < |interior| && interior[j] == nodes[i] ==>
                  r[i] == Patched(nodes[i], updates[j].1))
            && (forall i :: 0 <= i < |nodes| && nodes[i] !in interior ==> r[i] == nodes[i])
  {
    var interior := sorted[1..|sorted| - 1];
    assert forall a :: 0 <= a < |interior| ==> interior[a] == sorted[a + 1];
    UpdatesOfMembers(nodes, interior, DistributeUpdates(sorted, axis));
  }

  /** Sorted node k of a distribute ends up in slot k; only its coordinate on the axis changes. */
  lemma {:induction false} DistributeOne(nodes: seq<Node>, sorted: seq<Node>, axis: string, i: nat, k: nat)
    requires IdsDistinct(nodes) && IdsDistinct(sorted) && |sorted| >= 3
    requires forall m :: m in sorted ==> m in nodes
    requires i < |nodes| && k < |sorted| && sorted[k] == nodes[i]
    ensures var r := UpdateAll(nodes, DistributeUpdates(sorted, axis));
            && |r| == |nodes|
            && Coord(r[i], axis) == Slot(sorted, axis, k)
            && r[i] == (if axis == "x" then nodes[i].(x := r[i].x) else nodes[i].(y := r[i].y))
  {
    var interior := sorted[1..|sorted| - 1];
    var updates := DistributeUpdates(sorted, axis);
    InteriorUpdates(nodes, sorted, axis);
    if 0 < k < |sorted| - 1 {
      assert interior[k - 1] == nodes[i];
      assert updates[k - 1].1 == AxisMove(axis, Slot(sorted, axis, k));
      AxisMoveSets(nodes[i], axis, Slot(sorted, axis, k));
    } else {
      SlotEnds(sorted, axis);
      forall j | 0 <= j < |interior| ensures interior[j] != nodes[i] {
        assert interior[j] == sorted[j + 1];
      }
    }
  }

  /** An axis move sets the node's coordinate on that axis and nothing else. */
  lemma {:induction false} AxisMoveSets(n: Node, axis: string, v: real)
    ensures var m := Patched(n, AxisMove(axis, v));
            Coord(m, axis) == v && m == (if axis == "x" then n.(x := m.x) else n.(y := m.y))
  {
  }

  /** The first slot is the first node's coordinate and the last slot the last node's. */
  lemma {:induction false} SlotEnds(sorted: seq<Node>, axis: string)
    requires |sorted| >= 2
    ensures Slot(sorted, axis, 0) == Coord(sorted[0], axis)
    ensures Slot(sorted, axis, |sorted| - 1) == Coord(sorted[|sorted| - 1], axis)
  {
    var d := Coord(sorted[|sorted| - 1], axis) - Coord(sorted[0], axis);
    var n := (|sorted| - 1) as real;
    assert Gap(sorted, axis) * n == d;
  }
}
