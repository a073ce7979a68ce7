/**
 * The scene records held by the editor store: balloon nodes, logical groups, the view and
 * the settings, plus the per-node queries and the `updateNode` patches the store's actions use.
 */
module Scene {
  import opened Common
  import opened Geometry

  type NodeId = nat
  type GroupId = nat

  /** The balloon shape parameters `addNode` builds (`radiusX ?? 46`, `radiusY ?? 60`, ...). */
  datatype Meta = Meta(radiusX: real, radiusY: real, knot: bool, shape: string)

  const DefaultMeta := Meta(46.0, 60.0, true, "ellipse")
  const DefaultTypeId := "round-11"

  datatype Node = Node(
    id: NodeId,
    typeId: string,
    x: real,
    y: real,
    rotation: real,
    scaleX: real,
    scaleY: real,
    opacity: real,
    color: string,
    locked: bool,
    visible: bool,
    zIndex: int,
    groupId: Option<GroupId>,
    meta: Meta)

  /** A logical group `{ id, name, childIds }`. */
  datatype Group = Group(id: GroupId, name: string, childIds: seq<NodeId>)

  datatype View = View(x: real, y: real, scale: real)

  datatype Settings = Settings(
    grid: bool,
    snap: bool,
    snapStep: real,
    snapGuides: bool,
    snapTolerance: real,
    snapGuidePriority: string)

  const DefaultView := View(0.0, 0.0, 1.0)
  const DefaultSettings := Settings(true, false, 10.0, true, 8.0, "center-first")

  function IdSet(nodes: seq<Node>): set<NodeId>
  {
    set n | n in nodes :: n.id
  }

  function GroupIdSet(groups: seq<Group>): set<GroupId>
  {
    set g | g in groups :: g.id
  }

  ghost predicate IdsDistinct(nodes: seq<Node>)
  {
    forall i, j :: 0 <= i < j < |nodes| ==> nodes[i].id != nodes[j].id
  }

  /** The draw order is dense: the node at array position i has zIndex i. */
  ghost predicate ZDense(nodes: seq<Node>)
  {
    forall i :: 0 <= i < |nodes| ==> nodes[i].zIndex == i
  }

  /** Distinct ids, every id below the id counter, dense zIndex. */
  ghost predicate WellFormed(nodes: seq<Node>, idBound: nat)
  {
    IdsDistinct(nodes) && ZDense(nodes) && forall i :: 0 <= i < |nodes| ==> nodes[i].id < idBound
  }

  /** With distinct ids, the first node's id does not occur again. */
  lemma {:induction false} HeadIdNotInTail(nodes: seq<Node>)
    requires |nodes| > 0 && IdsDistinct(nodes)
    ensures nodes[0].id !in IdSet(nodes[1..])
  {
    forall m | m in nodes[1..]
      ensures m.id != nodes[0].id
    {
      var j :| 0 <= j < |nodes| - 1 && nodes[1..][j] == m;
      assert nodes[j + 1] == m;
    }
  }

  /** The tail of a list with distinct ids has distinct ids. */
  lemma {:induction false} TailDistinct(nodes: seq<Node>)
    requires |nodes| > 0 && IdsDistinct(nodes)
    ensures IdsDistinct(nodes[1..])
  {
    var tail := nodes[1..];
    forall i, j | 0 <= i < j < |tail| ensures tail[i].id != tail[j].id {
      assert tail[i] == nodes[i + 1] && tail[j] == nodes[j + 1];
    }
  }

  /**
   * Keeping the head of a list with distinct ids in front of nodes drawn from its tail,
   * themselves with distinct ids, gives distinct ids.
   */
  lemma {:induction false} ConsDistinct(nodes: seq<Node>, rest: seq<Node>)
    requires |nodes| > 0 && IdsDistinct(nodes) && IdsDistinct(rest)
    requires forall m :: m in rest ==> m in nodes[1..]
    ensures IdsDistinct([nodes[0]] + rest)
  {
    HeadIdNotInTail(nodes);
    var r := [nodes[0]] + rest;
    forall i, j | 0 <= i < j < |r| ensures r[i].id != r[j].id {
      assert r[j] == rest[j - 1];
      if i == 0 {
        assert rest[j - 1] in nodes[1..];
      } else {
        assert r[i] == rest[i - 1];
      }
    }
  }

  /** The position of the first node with the given id (`nodes.find(n => n.id === id)`). */
  function IndexOf(nodes: seq<Node>, id: NodeId): (r: Option<nat>)
    ensures r.Some? ==> r.value < |nodes| && nodes[r.value].id == id
                        && forall j :: 0 <= j < r.value ==> nodes[j].id != id
    ensures r.None? <==> id !in IdSet(nodes)
  {
    if |nodes| == 0 then None
    else if nodes[0].id == id then Some(0)
    else
      var r := IndexOf(nodes[1..], id);
      assert IdSet(nodes) == {nodes[0].id} + IdSet(nodes[1..]) by {
        assert nodes == [nodes[0]] + nodes[1..];
      }
      if r.None? then None else Some(r.value + 1)
  }

  /** Half extents of a balloon: radius times the absolute scale on each axis. */
  function ExtentX(n: Node): real { n.meta.radiusX * Abs(n.scaleX) }
  function ExtentY(n: Node): real { n.meta.radiusY * Abs(n.scaleY) }

  /** The box `boxSelect`, `copySelected` and `alignSelection` compute for a node. */
  function NodeBox(n: Node): Rect
  {
    Rect(n.x - ExtentX(n), n.y - ExtentY(n), ExtentX(n) * 2.0, ExtentY(n) * 2.0)
  }

  /** The `meta` argument of `addNode`: each shape field may be missing. */
  datatype MetaInput = MetaInput(radiusX: Option<real>, radiusY: Option<real>, knot: Option<bool>, shape: Option<string>)

  /** `radiusX: meta.radiusX ?? 46`, and likewise for the other shape fields. */
  function MetaOf(m: MetaInput): (r: Meta)
    ensures m.radiusX.None? ==> r.radiusX == DefaultMeta.radiusX
    ensures m.radiusX.Some? ==> r.radiusX == m.radiusX.value
    ensures m.radiusY.None? ==> r.radiusY == DefaultMeta.radiusY
    ensures m.radiusY.Some? ==> r.radiusY == m.radiusY.value
    ensures m.knot.None? ==> r.knot == DefaultMeta.knot
    ensures m.knot.Some? ==> r.knot == m.knot.value
    ensures m.shape.None? ==> r.shape == DefaultMeta.shape
    ensures m.shape.Some? ==> r.shape == m.shape.value
  {
    Meta(
      if m.radiusX.Some? then m.radiusX.value else DefaultMeta.radiusX,
      if m.radiusY.Some? then m.radiusY.value else DefaultMeta.radiusY,
      if m.knot.Some? then m.knot.value else DefaultMeta.knot,
      if m.shape.Some? then m.shape.value else DefaultMeta.shape)
  }

  /** A meta record passed on whole; the defaults then change nothing. */
  function FullMeta(m: Meta): (r: MetaInput)
    ensures MetaOf(r) == m
  {
    MetaInput(Some(m.radiusX), Some(m.radiusY), Some(m.knot), Some(m.shape))
  }

  /** The colour `addNode` uses when none is given. */
  const DefaultNodeColor := "#ff3b30"

  /** `Number.isFinite(Number(v)) ? Number(v) : 100` */
  function CoordOrDefault(v: JsNumber): real
  {
    if v.Finite? then v.value else 100.0
  }

  /**
   * The node `addNode` appends: the given id and draw position, unrotated, unscaled, opaque,
   * unlocked, visible and ungrouped, with the defaults for whatever was not given.
   */
  function NewNode(id: NodeId, z: int, x: JsNumber, y: JsNumber, color: Option<string>, typeId: Option<string>, meta: MetaInput): Node
  {
    Node(
      id,
      if typeId.Some? then typeId.value else DefaultTypeId,
      CoordOrDefault(x), CoordOrDefault(y),
      0.0, 1.0, 1.0, 1.0,
      if color.Some? then color.value else DefaultNodeColor,
      false, true, z, None, MetaOf(meta))
  }

  /** The patches the store passes to `updateNode`. */
  datatype Patch =
    | Move(x: real, y: real)
    | MoveX(x: real)
    | MoveY(y: real)
    | Restyle(rotation: real, scaleX: real, scaleY: real, opacity: real, locked: bool, visible: bool)

  function Patched(n: Node, p: Patch): Node
  {
    match p
    case Move(x, y) => n.(x := x, y := y)
    case MoveX(x) => n.(x := x)
    case MoveY(y) => n.(y := y)
    case Restyle(r, sx, sy, o, l, v) =>
      n.(rotation := r, scaleX := sx, scaleY := sy, opacity := o, locked := l, visible := v)
  }

  /** `updateNode(id, patch)` on the node array: the first node with that id is patched; an unknown id changes nothing. */
  function UpdateNode(nodes: seq<Node>, id: NodeId, p: Patch): (r: seq<Node>)
    ensures |r| == |nodes|
    ensures id !in IdSet(nodes) ==> r == nodes
    ensures forall i :: 0 <= i < |nodes| ==>
              r[i].id == nodes[i].id && r[i].zIndex == nodes[i].zIndex && r[i].groupId == nodes[i].groupId
    ensures IdsDistinct(nodes) ==>
              forall i :: 0 <= i < |nodes| ==> r[i] == if nodes[i].id == id then Patched(nodes[i], p) else nodes[i]
  {
    match IndexOf(nodes, id)
    case None => nodes
    case Some(k) => nodes[k := Patched(nodes[k], p)]
  }

  /** Updating a node just appended with a fresh id patches that node and nothing else. */
  lemma {:induction false} UpdateFreshLast(nodes: seq<Node>, n: Node, p: Patch)
    requires n.id !in IdSet(nodes)
    ensures UpdateNode(nodes + [n], n.id, p) == nodes + [Patched(n, p)]
  {
    var all := nodes + [n];
    assert IdSet(all) == IdSet(nodes) + {n.id} by {
      forall m | m in all ensures m in nodes || m == n {}
    }
    assert forall j :: 0 <= j < |nodes| ==> all[j] == nodes[j] && nodes[j].id in IdSet(nodes);
  }

  /** Two node lists with the same id and zIndex at every position have the same ids and are equally well formed. */
  lemma {:induction false} SameIdsAndZ(a: seq<Node>, b: seq<Node>, bound: nat)
    requires |a| == |b| && forall i :: 0 <= i < |a| ==> a[i].id == b[i].id && a[i].zIndex == b[i].zIndex
    ensures IdSet(a) == IdSet(b)
    ensures WellFormed(a, bound) ==> WellFormed(b, bound)
  {
    forall id | id in IdSet(a) ensures id in IdSet(b) {
      var n :| n in a && n.id == id;
      var i :| 0 <= i < |a| && a[i] == n;
      assert b[i].id == id;
    }
    forall id | id in IdSet(b) ensures id in IdSet(a) {
      var n :| n in b && n.id == id;
      var i :| 0 <= i < |b| && b[i] == n;
      assert a[i].id == id;
    }
    if WellFormed(a, bound) {
      forall n | n in b ensures n.id < bound {
        var i :| 0 <= i < |b| && b[i] == n;
        assert a[i] in a;
      }
    }
  }

  /** A sequence of `updateNode` calls applied in order. */
  function UpdateAll(nodes: seq<Node>, updates: seq<(NodeId, Patch)>): seq<Node>
    decreases |updates|
  {
    if |updates| == 0 then nodes
    else UpdateNode(UpdateAll(nodes, updates[..|updates| - 1]), updates[|updates| - 1].0, updates[|updates| - 1].1)
  }

  /** Patches never touch a node's id, zIndex or group back-link. */
  lemma {:induction false} UpdateAllKeepsShape(nodes: seq<Node>, updates: seq<(NodeId, Patch)>)
    ensures |UpdateAll(nodes, updates)| == |nodes|
    ensures forall i :: 0 <= i < |nodes| ==>
              UpdateAll(nodes, updates)[i].id == nodes[i].id &&
              UpdateAll(nodes, updates)[i].zIndex == nodes[i].zIndex &&
              UpdateAll(nodes, updates)[i].groupId == nodes[i].groupId
    decreases |updates|
  {
    if |updates| > 0 {
      var prefix := updates[..|updates| - 1];
      UpdateAllKeepsShape(nodes, prefix);
      var last := updates[|updates| - 1];
      var before := UpdateAll(nodes, prefix);
      assert UpdateAll(nodes, updates) == UpdateNode(before, last.0, last.1);
    }
  }

  /** The ids a list of updates targets, in order. */
  function UpdateIds(updates: seq<(NodeId, Patch)>): (r: seq<NodeId>)
    ensures |r| == |updates| && forall j :: 0 <= j < |updates| ==> r[j] == updates[j].0
  {
    seq(|updates|, j requires 0 <= j < |updates| => updates[j].0)
  }

  /** Every update names a node of `nodes`. */
  ghost predicate Targets(updates: seq<(NodeId, Patch)>, nodes: seq<Node>)
  {
    forall j :: 0 <= j < |updates| ==> updates[j].0 in IdSet(nodes)
  }

  /** The patch the last update for `id` carries. */
  function PatchFor(updates: seq<(NodeId, Patch)>, id: NodeId): (r: Option<Patch>)
    ensures id !in UpdateIds(updates) ==> r.None?
    ensures Distinct(UpdateIds(updates)) ==>
              forall j :: 0 <= j < |updates| && updates[j].0 == id ==> r == Some(updates[j].1)
  {
    if |updates| == 0 then None
    else
      var init := updates[..|updates| - 1];
      assert UpdateIds(init) == UpdateIds(updates)[..|updates| - 1];
      if updates[|updates| - 1].0 == id then Some(updates[|updates| - 1].1)
      else PatchFor(init, id)
  }

  /** A node after a list of updates: patched by the update for its id, if there is one. */
  function PatchedBy(n: Node, updates: seq<(NodeId, Patch)>): Node
  {
    match PatchFor(updates, n.id)
    case None => n
    case Some(p) => Patched(n, p)
  }

  /** Updates aimed at distinct ids commute: each node ends up patched by its own update. */
  lemma {:induction false} UpdateAllDistinct(nodes: seq<Node>, updates: seq<(NodeId, Patch)>)
    requires IdsDistinct(nodes) && Distinct(UpdateIds(updates))
    ensures |UpdateAll(nodes, updates)| == |nodes|
    ensures forall i :: 0 <= i < |nodes| ==> UpdateAll(nodes, updates)[i] == PatchedBy(nodes[i], updates)
    decreases |updates|
  {
    UpdateAllKeepsShape(nodes, updates);
    if |updates| > 0 {
      var init := updates[..|updates| - 1];
      var last := updates[|updates| - 1];
      assert UpdateIds(init) == UpdateIds(updates)[..|updates| - 1];
      UpdateAllDistinct(nodes, init);
      var before := UpdateAll(nodes, init);
      UpdateAllKeepsShape(nodes, init);
      assert IdsDistinct(before);
      forall i | 0 <= i < |nodes|
        ensures UpdateAll(nodes, updates)[i] == PatchedBy(nodes[i], updates)
      {
        if nodes[i].id == last.0 {
          assert UpdateIds(updates)[|updates| - 1] == last.0;
          assert last.0 !in UpdateIds(init);
        }
      }
    }
  }

  /** A permutation of a node list with distinct ids has distinct ids. */
  lemma {:induction false} PermutationKeepsIdsDistinct(a: seq<Node>, b: seq<Node>)
    requires IdsDistinct(a) && multiset(a) == multiset(b)
    ensures IdsDistinct(b)
  {
    forall i, j | 0 <= i < j < |b|
      ensures b[i].id != b[j].id
    {
      if b[i].id == b[j].id {
        assert b[i] in multiset(a) && b[j] in multiset(a);
        var p :| 0 <= p < |a| && a[p] == b[i];
        var q :| 0 <= q < |a| && a[q] == b[j];
        assert p == q;
        OccursTwice(b, i, j);
        OccursOnce(a, p);
        assert false;
      }
    }
  }

  lemma {:induction false} OccursTwice(s: seq<Node>, i: nat, j: nat)
    requires i < j < |s| && s[i] == s[j]
    ensures multiset(s)[s[i]] >= 2
  {
    assert s == s[..j] + [s[j]] + s[j + 1..];
    assert s[i] in s[..j];
    assert multiset(s) == multiset(s[..j]) + multiset{s[j]} + multiset(s[j + 1..]);
  }

  lemma {:induction false} OccursOnce(s: seq<Node>, p: nat)
    requires p < |s| && IdsDistinct(s)
    ensures multiset(s)[s[p]] == 1
  {
    var front, back := s[..p], s[p + 1..];
    assert s == front + [s[p]] + back;
    assert s[p] !in front by {
      forall k | 0 <= k < p ensures front[k] != s[p] { assert front[k] == s[k]; }
    }
    assert s[p] !in back by {
      forall k | 0 <= k < |back| ensures back[k] != s[p] { assert back[k] == s[p + 1 + k]; }
    }
    assert multiset(s) == multiset(front) + multiset{s[p]} + multiset(back);
  }

  /** The getter `visibleNodes`. */
  function VisibleNodes(nodes: seq<Node>): (r: seq<Node>)
    ensures forall n :: n in r <==> n in nodes && n.visible
    ensures |r| <= |nodes|
    ensures Subseq(r, nodes)
  {
    if |nodes| == 0 then []
    else
      var rest := VisibleNodes(nodes[1..]);
      if nodes[0].visible then
        assert ([nodes[0]] + rest)[1..] == rest;
        [nodes[0]] + rest
      else
        assert |rest| > 0 ==> rest[0] != nodes[0] by {
          if |rest| > 0 { assert rest[0] in rest; }
        }
        rest
  }

  /** The getter `selectedNodes`: the nodes whose id is selected, in node-array order. */
  function SelectedNodes(nodes: seq<Node>, ids: seq<NodeId>): (r: seq<Node>)
    ensures forall n :: n in r <==> n in nodes && n.id in ids
    ensures |r| <= |nodes|
    ensures Subseq(r, nodes)
    decreases |nodes|
  {
    if |nodes| == 0 then []
    else
      var rest := SelectedNodes(nodes[1..], ids);
      assert forall n :: n in rest ==> n in nodes[1..];
      if nodes[0].id in ids then
        assert ([nodes[0]] + rest)[1..] == rest;
        [nodes[0]] + rest
      else
        assert |rest| > 0 ==> rest[0] != nodes[0] by {
          if |rest| > 0 { assert rest[0] in rest; }
        }
        rest
  }

  /** Selecting from a list with distinct ids gives distinct ids. */
  lemma {:induction false} SelectedNodesDistinct(nodes: seq<Node>, ids: seq<NodeId>)
    requires IdsDistinct(nodes)
    ensures IdsDistinct(SelectedNodes(nodes, ids))
    decreases |nodes|
  {
    if |nodes| > 0 {
      TailDistinct(nodes);
      SelectedNodesDistinct(nodes[1..], ids);
      if nodes[0].id in ids {
        ConsDistinct(nodes, SelectedNodes(nodes[1..], ids));
      }
    }
  }
}
