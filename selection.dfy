/**
 * The selection rules of the editor store: which id lists `select`, `toggleSelect`,
 * `setSelection` and `boxSelect` produce, and the validity invariant they keep.
 * The ordered `Set` of the source becomes a duplicate-free sequence in insertion order.
 */
module Selection {
  import opened Common
  import opened Geometry
  import opened Scene

  /** The selected ids are distinct existing node ids; the primary id is null exactly when nothing is selected, and is selected otherwise. */
  ghost predicate SelectionValid(nodes: seq<Node>, ids: seq<NodeId>, primary: Option<NodeId>)
  {
    && Distinct(ids)
    && (forall id :: id in ids ==> id in IdSet(nodes))
    && (primary.None? <==> |ids| == 0)
    && (primary.Some? ==> primary.value in ids)
  }

  /** The ids of a node list, in order. */
  function Ids(nodes: seq<Node>): (r: seq<NodeId>)
    ensures |r| == |nodes| && forall i :: 0 <= i < |nodes| ==> r[i] == nodes[i].id
  {
    seq(|nodes|, i requires 0 <= i < |nodes| => nodes[i].id)
  }

  /**
   * `setSelection(ids)`: the node ids, in node-array order, that occur in `ids`.
   * Unknown ids are dropped and the order of `ids` is irrelevant.
   */
  function Selectable(nodes: seq<Node>, ids: seq<NodeId>): (r: seq<NodeId>)
    ensures forall id :: id in r <==> id in ids && id in IdSet(nodes)
    ensures Subseq(r, Ids(nodes))
    decreases |nodes|
  {
    if |nodes| == 0 then []
    else
      var rest := Selectable(nodes[1..], ids);
      assert IdSet(nodes) == {nodes[0].id} + IdSet(nodes[1..]) by {
        assert nodes == [nodes[0]] + nodes[1..];
      }
      IdsTail(nodes);
      if nodes[0].id in ids then
        assert ([nodes[0].id] + rest)[1..] == rest;
        [nodes[0].id] + rest
      else
        assert |rest| > 0 ==> rest[0] != nodes[0].id by {
          if |rest| > 0 { assert rest[0] in rest; }
        }
        rest
  }

  lemma {:induction false} IdsTail(nodes: seq<Node>)
    requires |nodes| > 0
    ensures Ids(nodes)[0] == nodes[0].id && Ids(nodes)[1..] == Ids(nodes[1..])
  {
  }

  /** `setSelection` depends only on which ids are asked for, not on their order or repeats. */
  lemma {:induction false} SelectableIgnoresOrder(nodes: seq<Node>, a: seq<NodeId>, b: seq<NodeId>)
    requires forall x :: x in a <==> x in b
    ensures Selectable(nodes, a) == Selectable(nodes, b)
    decreases |nodes|
  {
    if |nodes| > 0 {
      SelectableIgnoresOrder(nodes[1..], a, b);
    }
  }

  /** `setSelection` keeps exactly the ids of the nodes `SelectedNodes` picks, in the same order. */
  lemma {:induction false} SelectableIsSelectedIds(nodes: seq<Node>, ids: seq<NodeId>)
    ensures Selectable(nodes, ids) == Ids(SelectedNodes(nodes, ids))
    decreases |nodes|
  {
    if |nodes| > 0 {
      SelectableIsSelectedIds(nodes[1..], ids);
      var rest := SelectedNodes(nodes[1..], ids);
      if nodes[0].id in ids {
        assert SelectedNodes(nodes, ids) == [nodes[0]] + rest;
        IdsCons(nodes[0], rest);
      } else {
        assert SelectedNodes(nodes, ids) == rest;
      }
    }
  }

  lemma {:induction false} IdsCons(n: Node, rest: seq<Node>)
    ensures Ids([n] + rest) == [n.id] + Ids(rest)
  {
    var l := Ids([n] + rest);
    var r := [n.id] + Ids(rest);
    assert |l| == |r|;
    forall i | 0 <= i < |l| ensures l[i] == r[i] {
      if i > 0 {
        assert ([n] + rest)[i] == rest[i - 1];
      }
    }
  }

  lemma {:induction false} IdsConcat(a: seq<Node>, b: seq<Node>)
    ensures Ids(a + b) == Ids(a) + Ids(b)
  {
    var l := Ids(a + b);
    var r := Ids(a) + Ids(b);
    assert |l| == |r|;
    forall i | 0 <= i < |l| ensures l[i] == r[i] {
      if i >= |a| {
        assert (a + b)[i] == b[i - |a|];
      }
    }
  }

  /** Over distinct node ids the selection is duplicate-free. */
  lemma {:induction false} SelectableDistinct(nodes: seq<Node>, ids: seq<NodeId>)
    requires IdsDistinct(nodes)
    ensures Distinct(Selectable(nodes, ids))
  {
    SelectableIsSelectedIds(nodes, ids);
    SelectedNodesDistinct(nodes, ids);
    var sel := SelectedNodes(nodes, ids);
    var r := Ids(sel);
    assert forall i, j :: 0 <= i < j < |r| ==> r[i] != r[j] by {
      forall i, j | 0 <= i < j < |r| ensures r[i] != r[j] {
        assert r[i] == sel[i].id && r[j] == sel[j].id;
      }
    }
  }

  /** Removes every occurrence of `id`. */
  function Without(ids: seq<NodeId>, id: NodeId): (r: seq<NodeId>)
    ensures forall x :: x in r <==> x in ids && x != id
    ensures Distinct(ids) ==> Distinct(r)
    ensures id !in ids ==> r == ids
    ensures Subseq(r, ids)
  {
    if |ids| == 0 then []
    else
      var rest := Without(ids[1..], id);
      assert forall x :: x in ids <==> x == ids[0] || x in ids[1..] by {
        assert ids == [ids[0]] + ids[1..];
      }
      assert Distinct(ids) ==> ids[0] !in ids[1..];
      if ids[0] == id then
        assert |rest| > 0 ==> rest[0] != ids[0] by {
          if |rest| > 0 { assert rest[0] in rest; }
        }
        rest
      else
        assert ([ids[0]] + rest)[1..] == rest;
        [ids[0]] + rest
  }

  /** `set.add(id)` on an insertion-ordered set: a new id goes last, a present one keeps its place. */
  function Added(ids: seq<NodeId>, id: NodeId): (r: seq<NodeId>)
    ensures forall x :: x in r <==> x in ids || x == id
    ensures Distinct(ids) ==> Distinct(r)
    ensures |ids| <= |r| && r[..|ids|] == ids
    ensures id !in ids ==> r == ids + [id]
    ensures id in ids ==> r == ids
  {
    if id in ids then ids else ids + [id]
  }

  /** Adds every id of `more`, in order (the append branch of `boxSelect`). */
  function AddedAll(ids: seq<NodeId>, more: seq<NodeId>): (r: seq<NodeId>)
    ensures forall x :: x in r <==> x in ids || x in more
    ensures Distinct(ids) ==> Distinct(r)
    ensures |r| == 0 <==> |ids| == 0 && |more| == 0
    ensures |ids| <= |r| && r[..|ids|] == ids
    ensures Subseq(r[|ids|..], more)
    decreases |more|
  {
    if |more| == 0 then
      assert ids[|ids|..] == [];
      ids
    else
      var ids' := Added(ids, more[0]);
      var r := AddedAll(ids', more[1..]);
      assert forall x :: x in more <==> x == more[0] || x in more[1..] by {
        assert more == [more[0]] + more[1..];
      }
      assert r[..|ids|] == r[..|ids'|][..|ids|];
      if more[0] in ids then
        r
      else
        assert r[|ids|..][0] == more[0] && r[|ids|..][1..] == r[|ids'|..];
        r
  }

  /** `toggleSelect(id)` on the id list: a selected id leaves, an unselected one is appended. */
  function Toggled(ids: seq<NodeId>, id: NodeId): (r: seq<NodeId>)
    ensures id in r <==> id !in ids
    ensures forall x :: x != id ==> (x in r <==> x in ids)
    ensures Distinct(ids) ==> Distinct(r)
    ensures id !in ids ==> r == ids + [id]
    ensures id in ids ==> Subseq(r, ids)
  {
    if id in ids then Without(ids, id) else Added(ids, id)
  }

  /** Toggling an unselected id twice gives back the original selection. */
  lemma {:induction false} ToggleTwiceRestores(ids: seq<NodeId>, id: NodeId)
    requires id !in ids
    ensures Toggled(Toggled(ids, id), id) == ids
  {
    var once := ids + [id];
    assert Toggled(ids, id) == once;
    WithoutLast(ids, id);
  }

  lemma {:induction false} WithoutLast(ids: seq<NodeId>, id: NodeId)
    requires id !in ids
    ensures Without(ids + [id], id) == ids
    decreases |ids|
  {
    if |ids| == 0 {
      assert Without([id], id) == Without([], id);
    } else {
      assert (ids + [id])[1..] == ids[1..] + [id];
      WithoutLast(ids[1..], id);
      assert ids == [ids[0]] + ids[1..];
    }
  }

  /** Scanning one more node extends the hits by that node's id when it is hit. */
  lemma {:induction false} BoxHitsSnoc(nodes: seq<Node>, n: Node, rect: Rect)
    ensures BoxHits(nodes + [n], rect) ==
              BoxHits(nodes, rect) + (if n.visible && RectsIntersect(rect, NodeBox(n)) then [n.id] else [])
    decreases |nodes|
  {
    if |nodes| == 0 {
      assert nodes + [n] == [n];
      assert [n][1..] == [];
    } else {
      assert (nodes + [n])[1..] == nodes[1..] + [n];
      BoxHitsSnoc(nodes[1..], n, rect);
    }
  }

  lemma {:induction false} SelectableSplit(a: seq<Node>, b: seq<Node>, ids: seq<NodeId>)
    ensures Selectable(a + b, ids) == Selectable(a, ids) + Selectable(b, ids)
    decreases |a|
  {
    if |a| == 0 {
      assert a + b == b;
    } else {
      assert (a + b)[1..] == a[1..] + b;
      SelectableSplit(a[1..], b, ids);
    }
  }

  lemma {:induction false} SelectedAll(b: seq<Node>, ids: seq<NodeId>)
    requires forall i :: 0 <= i < |b| ==> b[i].id in ids
    ensures SelectedNodes(b, ids) == b
    decreases |b|
  {
    if |b| > 0 {
      assert forall i :: 0 <= i < |b| - 1 ==> b[1..][i] == b[i + 1];
      SelectedAll(b[1..], ids);
      assert b == [b[0]] + b[1..];
    }
  }

  lemma {:induction false} SelectableAll(b: seq<Node>, ids: seq<NodeId>)
    requires forall i :: 0 <= i < |b| ==> b[i].id in ids
    ensures Selectable(b, ids) == Ids(b)
  {
    SelectedAll(b, ids);
    SelectableIsSelectedIds(b, ids);
  }

  lemma {:induction false} SelectableNone(a: seq<Node>, ids: seq<NodeId>)
    requires forall n :: n in a ==> n.id !in ids
    ensures Selectable(a, ids) == []
    decreases |a|
  {
    if |a| > 0 {
      assert forall n :: n in a[1..] ==> n in a;
      SelectableNone(a[1..], ids);
    }
  }

  /**
   * Selecting the ids of nodes just appended with fresh ids selects exactly those ids, in
   * their order (what `setSelection(newIds)` does after a paste).
   */
  lemma {:induction false} SelectAppended(a: seq<Node>, b: seq<Node>)
    requires forall n, m :: n in a && m in b ==> n.id != m.id
    ensures Selectable(a + b, Ids(b)) == Ids(b)
  {
    SelectableSplit(a, b, Ids(b));
    SelectableAll(b, Ids(b));
    forall n | n in a ensures n.id !in Ids(b) {
      forall j | 0 <= j < |b| ensures Ids(b)[j] != n.id {
        assert b[j] in b;
      }
    }
    SelectableNone(a, Ids(b));
  }

  /** The ids `boxSelect` hits: visible nodes whose box meets the rectangle, in node-array order. */
  function BoxHits(nodes: seq<Node>, rect: Rect): (r: seq<NodeId>)
    ensures forall id :: id in r <==> exists n :: n in nodes && n.id == id && n.visible && RectsIntersect(rect, NodeBox(n))
    ensures IdsDistinct(nodes) ==> Distinct(r)
    ensures forall id :: id in r ==> id in IdSet(nodes)
    ensures Subseq(r, Ids(nodes))
  {
    if |nodes| == 0 then []
    else
      var rest := BoxHits(nodes[1..], rect);
      var n := nodes[0];
      assert forall m :: m in nodes <==> m == n || m in nodes[1..] by {
        assert nodes == [n] + nodes[1..];
      }
      assert IdsDistinct(nodes) ==> n.id !in IdSet(nodes[1..]) by {
        if IdsDistinct(nodes) { HeadIdNotInTail(nodes); }
      }
      IdsTail(nodes);
      if n.visible && RectsIntersect(rect, NodeBox(n)) then
        assert ([n.id] + rest)[1..] == rest;
        [n.id] + rest
      else
        rest
  }
}
