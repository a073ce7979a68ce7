/**
 * Draw order. The node array order is the draw order (back to front); `reindexZ` rewrites
 * every zIndex to its position, `reorderByIds` moves listed nodes to the back in the given
 * order, and `reorderGroupChildIds` restacks one group's members as a block.
 */
module ZOrder {
  import opened Common
  import opened Scene
  import opened Selection

  /** `reindexZ`: zIndex becomes the array position; nothing else changes. */
  function Reindexed(nodes: seq<Node>): (r: seq<Node>)
    ensures |r| == |nodes| && ZDense(r)
    ensures forall i :: 0 <= i < |nodes| ==> r[i] == nodes[i].(zIndex := i)
  {
    seq(|nodes|, i requires 0 <= i < |nodes| => nodes[i].(zIndex := i))
  }

  lemma {:induction false} ReindexedKeepsIds(nodes: seq<Node>)
    ensures IdSet(Reindexed(nodes)) == IdSet(nodes)
    ensures IdsDistinct(nodes) ==> IdsDistinct(Reindexed(nodes))
  {
    var r := Reindexed(nodes);
    forall id | id in IdSet(nodes) ensures id in IdSet(r) {
      var n :| n in nodes && n.id == id;
      var i :| 0 <= i < |nodes| && nodes[i] == n;
      assert r[i].id == id;
    }
    forall id | id in IdSet(r) ensures id in IdSet(nodes) {
      var n :| n in r && n.id == id;
      var i :| 0 <= i < |r| && r[i] == n;
      assert nodes[i].id == id;
    }
  }

  /** The nodes whose id is not listed, in their old relative order. */
  function Unlisted(nodes: seq<Node>, orderedIds: seq<NodeId>): seq<Node>
  {
    if |nodes| == 0 then []
    else (if nodes[0].id in orderedIds then [] else [nodes[0]]) + Unlisted(nodes[1..], orderedIds)
  }

  /**
   * The unlisted nodes are exactly the nodes whose id is not listed, in their old relative
   * order (a subsequence of the input), and their ids stay distinct.
   */
  lemma {:induction false} UnlistedMembers(nodes: seq<Node>, orderedIds: seq<NodeId>)
    ensures forall n :: n in Unlisted(nodes, orderedIds) <==> n in nodes && n.id !in orderedIds
    ensures Subseq(Unlisted(nodes, orderedIds), nodes)
    ensures IdsDistinct(nodes) ==> IdsDistinct(Unlisted(nodes, orderedIds))
  {
    if |nodes| > 0 {
      var rest := Unlisted(nodes[1..], orderedIds);
      UnlistedMembers(nodes[1..], orderedIds);
      assert nodes == [nodes[0]] + nodes[1..];
      if nodes[0].id !in orderedIds {
        assert Unlisted(nodes, orderedIds) == [nodes[0]] + rest;
        assert ([nodes[0]] + rest)[1..] == rest;
      } else {
        assert Unlisted(nodes, orderedIds) == rest;
        assert Subseq(rest, nodes[1..]);
      }
      if IdsDistinct(nodes) && nodes[0].id !in orderedIds {
        TailDistinct(nodes);
        ConsDistinct(nodes, rest);
      } else if IdsDistinct(nodes) {
        TailDistinct(nodes);
      }
    }
  }

  /** The node an id maps to in `new Map(nodes.map(n => [n.id, n]))` (ids are distinct in the store). */
  function NodeFor(nodes: seq<Node>, id: NodeId): Option<Node>
  {
    match IndexOf(nodes, id)
    case None => None
    case Some(k) => Some(nodes[k])
  }

  /** The first loop of `reorderByIds` as written: every listed id that names a node pushes that node, repeats included. */
  function ListedAsWritten(nodes: seq<Node>, orderedIds: seq<NodeId>): seq<Node>
  {
    if |orderedIds| == 0 then []
    else
      (match NodeFor(nodes, orderedIds[0]) case None => [] case Some(n) => [n])
      + ListedAsWritten(nodes, orderedIds[1..])
  }

  /** `reorderByIds` as the source writes it (before `reindexZ`). */
  function ReorderedAsWritten(nodes: seq<Node>, orderedIds: seq<NodeId>): seq<Node>
  {
    ListedAsWritten(nodes, orderedIds) + Unlisted(nodes, orderedIds)
  }

  /**
   * A repeated id in `orderedIds` makes the source push the same node twice, so the
   * result is no longer a permutation: two nodes, order [a, a], give three entries.
   */
  lemma {:induction false} RepeatedIdDuplicatesNode()
    ensures var a := Node(0, DefaultTypeId, 0.0, 0.0, 0.0, 1.0, 1.0, 1.0, "#ff3b30", false, true, 0, None, DefaultMeta);
            var b := a.(id := 1, zIndex := 1);
            var r := ReorderedAsWritten([a, b], [0, 0]);
            |r| == 3 && r[0] == a && r[1] == a && multiset(r) != multiset([a, b])
  {
    var a := Node(0, DefaultTypeId, 0.0, 0.0, 0.0, 1.0, 1.0, 1.0, "#ff3b30", false, true, 0, None, DefaultMeta);
    var b := a.(id := 1, zIndex := 1);
    assert NodeFor([a, b], 0) == Some(a);
    assert ListedAsWritten([a, b], [0, 0]) == [a, a] by {
      assert [0, 0][1..] == [0];
      assert ListedAsWritten([a, b], [0]) == [a] + ListedAsWritten([a, b], []);
    }
    var rest := Unlisted([a, b], [0, 0]);
    assert rest == [b] by {
      assert [a, b][1..] == [b];
      assert Unlisted([b], [0, 0]) == [b] + Unlisted([], [0, 0]);
    }
    var r := ReorderedAsWritten([a, b], [0, 0]);
    assert r == [a, a, b];
    assert multiset(r)[a] == 2 && multiset([a, b])[a] == 1;
  }

  /** The listed nodes with repeats skipped (the corrected first loop). */
  function Picked(nodes: seq<Node>, orderedIds: seq<NodeId>, taken: set<NodeId>): (r: seq<Node>)
    ensures forall n :: n in r ==> n.id !in taken
    ensures IdsDistinct(nodes) ==>
              forall n :: n in r <==> n in nodes && n.id in orderedIds && n.id !in taken
    ensures IdsDistinct(r)
    decreases |orderedIds|
  {
    if |orderedIds| == 0 then []
    else
      var id := orderedIds[0];
      assert forall x :: x in orderedIds <==> x == id || x in orderedIds[1..] by {
        assert orderedIds == [id] + orderedIds[1..];
      }
      match NodeFor(nodes, id)
      case Some(n) =>
        if id in taken then Picked(nodes, orderedIds[1..], taken)
        else
          var rest := Picked(nodes, orderedIds[1..], taken + {id});
          assert IdsDistinct(nodes) ==> forall m :: m in nodes && m.id == id ==> m == n by {
            if IdsDistinct(nodes) {
              var k := IndexOf(nodes, id).value;
              forall m | m in nodes && m.id == id ensures m == n {
                var j :| 0 <= j < |nodes| && nodes[j] == m;
                assert j == k;
              }
            }
          }
          [n] + rest
      case None =>
        assert id !in IdSet(nodes);
        Picked(nodes, orderedIds[1..], taken)
  }

  /** The picked nodes come in the order of `orderedIds`: their ids are a subsequence of it. */
  lemma {:induction false} PickedInOrder(nodes: seq<Node>, orderedIds: seq<NodeId>, taken: set<NodeId>)
    ensures Subseq(Ids(Picked(nodes, orderedIds, taken)), orderedIds)
    decreases |orderedIds|
  {
    if |orderedIds| > 0 {
      var id := orderedIds[0];
      match NodeFor(nodes, id)
      case Some(n) =>
        if id in taken {
          PickedInOrder(nodes, orderedIds[1..], taken);
        } else {
          var rest := Picked(nodes, orderedIds[1..], taken + {id});
          PickedInOrder(nodes, orderedIds[1..], taken + {id});
          IdsCons(n, rest);
          assert ([id] + Ids(rest))[1..] == Ids(rest);
        }
      case None =>
        PickedInOrder(nodes, orderedIds[1..], taken);
    }
  }

  /**
   * `reorderByIds(orderedIds)` before `reindexZ`, with repeated ids taken once: the listed
   * nodes first, in the order given, then every unlisted node in its old relative order.
   */
  function Reordered(nodes: seq<Node>, orderedIds: seq<NodeId>): (r: seq<Node>)
    requires IdsDistinct(nodes)
    ensures r == Picked(nodes, orderedIds, {}) + Unlisted(nodes, orderedIds)
    ensures IdsDistinct(r) && multiset(r) == multiset(nodes)
  {
    var p := Picked(nodes, orderedIds, {});
    var u := Unlisted(nodes, orderedIds);
    UnlistedMembers(nodes, orderedIds);
    var r := p + u;
    assert IdsDistinct(r) by {
      forall i, j | 0 <= i < j < |r| ensures r[i].id != r[j].id {
        if j < |p| {
        } else if i >= |p| {
          assert r[i] == u[i - |p|] && r[j] == u[j - |p|];
        } else {
          assert r[i] in p && r[j] == u[j - |p|];
        }
      }
    }
    IdsDistinctMeansDistinct(r);
    IdsDistinctMeansDistinct(nodes);
    DistinctSameElements(r, nodes);
    r
  }

  lemma {:induction false} IdsDistinctMeansDistinct(nodes: seq<Node>)
    requires IdsDistinct(nodes)
    ensures Distinct(nodes)
  {
  }

  lemma {:induction false} HeadIsMember<T>(s: seq<T>)
    ensures |s| > 0 ==> s[0] in s
  {
  }

  /**
   * The first `k` entries of a reordering are listed nodes, whose ids follow the order of
   * `orderedIds`; the rest are the unlisted nodes, in their old relative order.
   */
  ghost predicate ListedThenUnlisted(r: seq<Node>, k: int, nodes: seq<Node>, orderedIds: seq<NodeId>)
  {
    && 0 <= k <= |r|
    && (forall i :: 0 <= i < k ==> r[i].id in orderedIds)
    && (forall i :: k <= i < |r| ==> r[i].id !in orderedIds)
    && Subseq(Ids(r[..k]), orderedIds)
    && Subseq(r[k..], nodes)
  }

  /** `reorderByIds` puts the listed nodes first, in the order given, and the others after them in their old order. */
  lemma {:induction false} ReorderedOrder(nodes: seq<Node>, orderedIds: seq<NodeId>)
    requires IdsDistinct(nodes)
    ensures exists k :: ListedThenUnlisted(Reordered(nodes, orderedIds), k, nodes, orderedIds)
  {
    var p := Picked(nodes, orderedIds, {});
    var u := Unlisted(nodes, orderedIds);
    UnlistedMembers(nodes, orderedIds);
    PickedInOrder(nodes, orderedIds, {});
    SplitAtPicked(p, u, nodes, orderedIds);
    assert Reordered(nodes, orderedIds) == p + u;
    assert ListedThenUnlisted(Reordered(nodes, orderedIds), |p|, nodes, orderedIds);
  }

  /** A listed part in the given order followed by an unlisted part in array order splits where the first ends. */
  lemma {:induction false} SplitAtPicked(p: seq<Node>, u: seq<Node>, nodes: seq<Node>, orderedIds: seq<NodeId>)
    requires forall n :: n in p ==> n.id in orderedIds
    requires forall n :: n in u ==> n.id !in orderedIds
    requires Subseq(Ids(p), orderedIds) && Subseq(u, nodes)
    ensures ListedThenUnlisted(p + u, |p|, nodes, orderedIds)
  {
    var r := p + u;
    var k := |p|;
    assert r[..k] == p && r[k..] == u;
    forall i | 0 <= i < k ensures r[i].id in orderedIds {
      assert r[i] == p[i];
    }
    forall i | k <= i < |r| ensures r[i].id !in orderedIds {
      assert r[i] == u[i - k];
    }
  }

  /** Without repeated ids the source's first loop and the corrected one agree. */
  lemma {:induction false} ListedAgrees(nodes: seq<Node>, orderedIds: seq<NodeId>, taken: set<NodeId>)
    requires Distinct(orderedIds) && forall x :: x in orderedIds ==> x !in taken
    ensures ListedAsWritten(nodes, orderedIds) == Picked(nodes, orderedIds, taken)
    decreases |orderedIds|
  {
    if |orderedIds| > 0 {
      var id := orderedIds[0];
      var tail := orderedIds[1..];
      assert orderedIds == [id] + tail;
      assert id !in tail;
      assert Distinct(tail) by {
        forall i, j | 0 <= i < j < |tail| ensures tail[i] != tail[j] {
          assert tail[i] == orderedIds[i + 1] && tail[j] == orderedIds[j + 1];
        }
      }
      match NodeFor(nodes, id)
      case Some(n) =>
        ListedAgrees(nodes, tail, taken + {id});
      case None =>
        ListedAgrees(nodes, tail, taken);
    }
  }

  /**
   * On an id list without repeats, `reorderByIds` as written and the corrected reordering
   * give the same array: the two differ only on repeated ids.
   */
  lemma {:induction false} AsWrittenAgrees(nodes: seq<Node>, orderedIds: seq<NodeId>)
    requires IdsDistinct(nodes) && Distinct(orderedIds)
    ensures ReorderedAsWritten(nodes, orderedIds) == Reordered(nodes, orderedIds)
  {
    ListedAgrees(nodes, orderedIds, {});
  }

  /** Two duplicate-free sequences with the same elements are permutations of each other. */
  lemma {:induction false} DistinctSameElements<T>(a: seq<T>, b: seq<T>)
    requires Distinct(a) && Distinct(b)
    requires forall x :: x in a <==> x in b
    ensures multiset(a) == multiset(b)
    decreases |a|
  {
    if |a| == 0 {
      HeadIsMember(b);
    } else {
      var x := a[0];
      assert x in b;
      var k :| 0 <= k < |b| && b[k] == x;
      var b' := b[..k] + b[k + 1..];
      assert b == b[..k] + [x] + b[k + 1..];
      assert a == [x] + a[1..];
      forall y ensures y in a[1..] <==> y in b' {
        if y in a[1..] {
          var i :| 1 <= i < |a| && a[i] == y;
          assert y != x;
          assert y in b;
        }
        if y in b' {
          var j :| 0 <= j < |b'| && b'[j] == y;
          if j < k { assert b[j] == y && j != k; } else { assert b[j + 1] == y && j + 1 != k; }
          assert y in a;
        }
      }
      assert Distinct(b') by {
        forall i, j | 0 <= i < j < |b'| ensures b'[i] != b'[j] {
          var i' := if i < k then i else i + 1;
          var j' := if j < k then j else j + 1;
          assert b'[i] == b[i'] && b'[j] == b[j'];
        }
      }
      DistinctSameElements(a[1..], b');
      calc {
        multiset(b);
        multiset(b[..k] + [x] + b[k + 1..]);
        multiset(b[..k]) + multiset([x]) + multiset(b[k + 1..]);
        multiset([x]) + multiset(b');
        multiset([x]) + multiset(a[1..]);
        multiset(a);
      }
    }
  }

  /** `reorderByIds`: reorder, then `reindexZ`; the result is a permutation with dense zIndex. */
  function ReorderByIds(nodes: seq<Node>, orderedIds: seq<NodeId>): (r: seq<Node>)
    requires IdsDistinct(nodes)
    ensures |r| == |nodes| && ZDense(r) && IdsDistinct(r) && IdSet(r) == IdSet(nodes)
    ensures |r| == |Reordered(nodes, orderedIds)|
    ensures forall i :: 0 <= i < |r| ==> r[i] == Reordered(nodes, orderedIds)[i].(zIndex := i)
  {
    var moved := Reordered(nodes, orderedIds);
    assert IdSet(moved) == IdSet(nodes) by {
      forall id | id in IdSet(nodes) ensures id in IdSet(moved) {
        var n :| n in nodes && n.id == id;
        assert n in multiset(moved);
      }
      forall id | id in IdSet(moved) ensures id in IdSet(nodes) {
        var n :| n in moved && n.id == id;
        assert n in multiset(nodes);
      }
    }
    assert |moved| == |nodes| by {
      assert |multiset(moved)| == |multiset(nodes)|;
    }
    ReindexedKeepsIds(moved);
    Reindexed(moved)
  }

  /** Appending one node to the input appends it to the unlisted nodes exactly when its id is not listed. */
  lemma {:induction false} UnlistedSnoc(nodes: seq<Node>, n: Node, orderedIds: seq<NodeId>)
    ensures Unlisted(nodes + [n], orderedIds) == Unlisted(nodes, orderedIds) + (if n.id in orderedIds then [] else [n])
    decreases |nodes|
  {
    if |nodes| == 0 {
      assert [n][1..] == [];
    } else {
      assert (nodes + [n])[1..] == nodes[1..] + [n];
      UnlistedSnoc(nodes[1..], n, orderedIds);
    }
  }

  /**
   * The two loops of `reorderByIds`, with the repeat check of the corrected first loop: the
   * listed nodes in the order given, each once, then the nodes not yet taken in array order.
   */
  method ReorderNodes(nodes: seq<Node>, orderedIds: seq<NodeId>) returns (next: seq<Node>)
    requires IdsDistinct(nodes)
    ensures next == Reordered(nodes, orderedIds)
  {
    next := [];
    var taken: set<NodeId> := {};
    var k := 0;
    while k < |orderedIds|
      invariant 0 <= k <= |orderedIds|
      invariant next + Picked(nodes, orderedIds[k..], taken) == Picked(nodes, orderedIds, {})
    {
      var id := orderedIds[k];
      assert orderedIds[k..][0] == id && orderedIds[k..][1..] == orderedIds[k + 1..];
      var node := NodeFor(nodes, id);
      if node.Some? && id !in taken {
        next := next + [node.value];
        taken := taken + {id};
      }
      k := k + 1;
    }
    assert orderedIds[k..] == [];
    ghost var picked := next;
    var i := 0;
    while i < |nodes|
      invariant 0 <= i <= |nodes|
      invariant next == picked + Unlisted(nodes[..i], orderedIds)
    {
      assert nodes[..i + 1] == nodes[..i] + [nodes[i]];
      UnlistedSnoc(nodes[..i], nodes[i], orderedIds);
      if nodes[i].id !in orderedIds {
        next := next + [nodes[i]];
      }
      i := i + 1;
    }
    assert nodes[..i] == nodes;
  }

  function Reverse<T>(s: seq<T>): (r: seq<T>)
    ensures |r| == |s| && forall i :: 0 <= i < |s| ==> r[i] == s[|s| - 1 - i]
  {
    seq(|s|, i requires 0 <= i < |s| => s[|s| - 1 - i])
  }

  /** `ids.filter(id => !set.has(id))` */
  function IdsNotIn(ids: seq<NodeId>, excluded: seq<NodeId>): (r: seq<NodeId>)
    ensures forall x :: x in r <==> x in ids && x !in excluded
    ensures |r| <= |ids|
  {
    if |ids| == 0 then []
    else
      var rest := IdsNotIn(ids[1..], excluded);
      assert forall x :: x in ids <==> x == ids[0] || x in ids[1..] by {
        assert ids == [ids[0]] + ids[1..];
      }
      (if ids[0] in excluded then [] else [ids[0]]) + rest
  }

  /** The filter keeps the surviving ids in their order: a subsequence of the stack. */
  lemma {:induction false} IdsNotInInOrder(ids: seq<NodeId>, excluded: seq<NodeId>)
    ensures Subseq(IdsNotIn(ids, excluded), ids)
  {
    if |ids| > 0 {
      var rest := IdsNotIn(ids[1..], excluded);
      IdsNotInInOrder(ids[1..], excluded);
      if ids[0] in excluded {
        assert IdsNotIn(ids, excluded) == rest;
      } else {
        assert IdsNotIn(ids, excluded) == [ids[0]] + rest;
        assert ([ids[0]] + rest)[1..] == rest;
      }
    }
  }

  /** `ids.indexOf(id)`, None for -1. */
  function PositionOf(ids: seq<NodeId>, id: NodeId): (r: Option<nat>)
    ensures r.Some? ==> r.value < |ids| && ids[r.value] == id && forall j :: 0 <= j < r.value ==> ids[j] != id
    ensures r.None? <==> id !in ids
  {
    if |ids| == 0 then None
    else if ids[0] == id then Some(0)
    else
      var r := PositionOf(ids[1..], id);
      assert ids == [ids[0]] + ids[1..];
      if r.None? then None else Some(r.value + 1)
  }

  /** `Math.min(...childIds.map(id => front.indexOf(id)).filter(i => i >= 0))`, None when no child is found. */
  function MinPosition(front: seq<NodeId>, childIds: seq<NodeId>): (r: Option<nat>)
    ensures r.Some? ==> r.value < |front| && front[r.value] in childIds
    ensures r.Some? ==> forall j :: 0 <= j < r.value ==> front[j] !in childIds
    ensures r.None? ==> forall j :: 0 <= j < |front| ==> front[j] !in childIds
    decreases |childIds|
  {
    if |childIds| == 0 then None
    else
      var here := PositionOf(front, childIds[0]);
      var rest := MinPosition(front, childIds[1..]);
      assert forall x :: x in childIds <==> x == childIds[0] || x in childIds[1..] by {
        assert childIds == [childIds[0]] + childIds[1..];
      }
      match (here, rest)
      case (None, _) => rest
      case (Some(p), None) => here
      case (Some(p), Some(q)) => if p <= q then here else rest
  }

  /** Leading ids that are kept by a filter survive it unchanged. */
  lemma {:induction false} FilterKeepsCleanPrefix(ids: seq<NodeId>, excluded: seq<NodeId>, m: nat)
    requires m <= |ids|
    requires forall j :: 0 <= j < m ==> ids[j] !in excluded
    ensures m <= |IdsNotIn(ids, excluded)| && IdsNotIn(ids, excluded)[..m] == ids[..m]
    decreases m
  {
    if m > 0 {
      FilterKeepsCleanPrefix(ids[1..], excluded, m - 1);
      var rest := IdsNotIn(ids[1..], excluded);
      assert IdsNotIn(ids, excluded) == [ids[0]] + rest;
      assert ids[..m] == [ids[0]] + ids[1..][..m - 1];
    }
  }

  /** `insertPos`: the front-most position of a group member, or the end of the stack when none is found. */
  function InsertPos(front: seq<NodeId>, childIds: seq<NodeId>): nat
  {
    match MinPosition(front, childIds)
    case None => |IdsNotIn(front, childIds)|
    case Some(p) => p
  }

  /**
   * Everything in front of `insertPos` is kept by the filter, so the position, taken in the
   * full stack, splits the filtered stack at the same node.
   */
  lemma {:induction false} InsertPosInCleanPrefix(front: seq<NodeId>, childIds: seq<NodeId>)
    ensures var others := IdsNotIn(front, childIds);
            InsertPos(front, childIds) <= |others| &&
            forall j :: 0 <= j < InsertPos(front, childIds) ==> others[j] == front[j]
  {
    var others := IdsNotIn(front, childIds);
    var pos := InsertPos(front, childIds);
    if MinPosition(front, childIds).Some? {
      FilterKeepsCleanPrefix(front, childIds, pos);
      assert forall j :: 0 <= j < pos ==> others[..pos][j] == front[..pos][j];
    } else {
      FilterKeepsCleanPrefix(front, childIds, |front|);
      assert others == front;
    }
  }

  /**
   * The front-to-back id stack `reorderGroupChildIds` hands (reversed) to `reorderByIds`:
   * the other nodes keep their relative order, and the group's ids, in the requested order,
   * are inserted as one block where the front-most member stood.
   */
  function RestackedFront(nodes: seq<Node>, orderedFrontToBack: seq<NodeId>): (r: seq<NodeId>)
    ensures var front := Reverse(Ids(nodes));
            var others := IdsNotIn(front, orderedFrontToBack);
            var pos := InsertPos(front, orderedFrontToBack);
            pos <= |others| &&
            r == others[..pos] + orderedFrontToBack + others[pos..] &&
            (forall j :: 0 <= j < pos ==> others[j] == front[j])
  {
    var front := Reverse(Ids(nodes));
    var others := IdsNotIn(front, orderedFrontToBack);
    var pos := InsertPos(front, orderedFrontToBack);
    InsertPosInCleanPrefix(front, orderedFrontToBack);
    others[..pos] + orderedFrontToBack + others[pos..]
  }

  /** Every node id is listed in the restacked order, so `reorderByIds` appends nothing after it. */
  lemma {:induction false} RestackedListsEveryNode(nodes: seq<Node>, orderedFrontToBack: seq<NodeId>)
    ensures forall n :: n in nodes ==> n.id in RestackedFront(nodes, orderedFrontToBack)
  {
    forall n | n in nodes ensures n.id in RestackedFront(nodes, orderedFrontToBack) {
      var i :| 0 <= i < |nodes| && nodes[i] == n;
      NodeInRestack(nodes, orderedFrontToBack, i);
    }
  }

  lemma {:induction false} NodeInRestack(nodes: seq<Node>, orderedFrontToBack: seq<NodeId>, i: nat)
    requires i < |nodes|
    ensures nodes[i].id in RestackedFront(nodes, orderedFrontToBack)
  {
    var id := nodes[i].id;
    var r := RestackedFront(nodes, orderedFrontToBack);
    var front := Reverse(Ids(nodes));
    assert front[|nodes| - 1 - i] == Ids(nodes)[i] == id;
    if id !in orderedFrontToBack {
      var others := IdsNotIn(front, orderedFrontToBack);
      var pos := InsertPos(front, orderedFrontToBack);
      assert id in others;
      assert others == others[..pos] + others[pos..];
    }
  }

  /**
   * The other nodes keep their stacking order: taking the group's ids back out of the
   * restacked list leaves exactly the filtered front-to-back stack, a subsequence of it.
   */
  lemma {:induction false} RestackedKeepsOthers(nodes: seq<Node>, orderedFrontToBack: seq<NodeId>)
    ensures IdsNotIn(RestackedFront(nodes, orderedFrontToBack), orderedFrontToBack)
            == IdsNotIn(Reverse(Ids(nodes)), orderedFrontToBack)
    ensures Subseq(IdsNotIn(RestackedFront(nodes, orderedFrontToBack), orderedFrontToBack), Reverse(Ids(nodes)))
  {
    var others := IdsNotIn(Reverse(Ids(nodes)), orderedFrontToBack);
    var pos := InsertPos(Reverse(Ids(nodes)), orderedFrontToBack);
    InsertPosInCleanPrefix(Reverse(Ids(nodes)), orderedFrontToBack);
    IdsNotInTwice(Reverse(Ids(nodes)), orderedFrontToBack);
    BlockRemoved(others, pos, orderedFrontToBack);
    IdsNotInInOrder(Reverse(Ids(nodes)), orderedFrontToBack);
  }

  /** Removing a block's ids from a list the block was spliced into at `pos` gives the list back. */
  lemma {:induction false} BlockRemoved(others: seq<NodeId>, pos: nat, block: seq<NodeId>)
    requires pos <= |others|
    requires IdsNotIn(others, block) == others
    ensures IdsNotIn(others[..pos] + block + others[pos..], block) == others
  {
    var a, b := others[..pos], others[pos..];
    assert a + b == others;
    IdsNotInAppend(a, b, block);
    var x, y := IdsNotIn(a, block), IdsNotIn(b, block);
    assert x + y == a + b;
    assert |x| == |a|;
    assert x == (x + y)[..|x|] == (a + b)[..|a|] == a;
    assert y == (x + y)[|x|..] == (a + b)[|a|..] == b;
    SpliceRemoved(a, block, b);
  }

  /** Filtering twice is filtering once. */
  lemma {:induction false} IdsNotInTwice(ids: seq<NodeId>, excluded: seq<NodeId>)
    ensures IdsNotIn(IdsNotIn(ids, excluded), excluded) == IdsNotIn(ids, excluded)
  {
    if |ids| > 0 {
      var rest := IdsNotIn(ids[1..], excluded);
      IdsNotInTwice(ids[1..], excluded);
      if ids[0] !in excluded {
        var r := [ids[0]] + rest;
        assert IdsNotIn(ids, excluded) == r;
        assert r[0] == ids[0] && r[1..] == rest;
        assert IdsNotIn(r, excluded) == [ids[0]] + IdsNotIn(rest, excluded);
      } else {
        assert IdsNotIn(ids, excluded) == rest;
      }
    }
  }

  /** Filtering a block out of `a + block + b` leaves `a + b` when `a` and `b` pass unchanged. */
  lemma {:induction false} SpliceRemoved(a: seq<NodeId>, block: seq<NodeId>, b: seq<NodeId>)
    requires IdsNotIn(a, block) == a && IdsNotIn(b, block) == b
    ensures IdsNotIn(a + block + b, block) == a + b
  {
    IdsNotInOfExcluded(block);
    IdsNotInAppend(a + block, b, block);
    IdsNotInAppend(a, block, block);
    assert a + [] == a;
  }

  /** Nothing of the excluded list itself passes the filter. */
  lemma {:induction false} IdsNotInOfExcluded(excluded: seq<NodeId>)
    ensures IdsNotIn(excluded, excluded) == []
  {
    AllExcluded(excluded, excluded);
  }

  /** A list made only of excluded ids filters to nothing. */
  lemma {:induction false} AllExcluded(ids: seq<NodeId>, excluded: seq<NodeId>)
    requires forall x :: x in ids ==> x in excluded
    ensures IdsNotIn(ids, excluded) == []
  {
    if |ids| > 0 {
      assert ids[0] in ids;
      assert forall x :: x in ids[1..] ==> x in ids;
      AllExcluded(ids[1..], excluded);
    }
  }

  /** Filtering distributes over concatenation. */
  lemma {:induction false} IdsNotInAppend(a: seq<NodeId>, b: seq<NodeId>, excluded: seq<NodeId>)
    ensures IdsNotIn(a + b, excluded) == IdsNotIn(a, excluded) + IdsNotIn(b, excluded)
  {
    if |a| > 0 {
      IdsNotInAppend(a[1..], b, excluded);
      assert (a + b)[1..] == a[1..] + b;
    } else {
      assert a + b == b;
    }
  }
}
