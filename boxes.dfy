/**
 * Node edges and the bounding box of a node list, as `copySelected` and `alignSelection`
 * compute them: each balloon spans its centre plus or minus radius times |scale|.
 */
module Boxes {
  import opened Common
  import opened Geometry
  import opened Scene

  function Left(n: Node): real { n.x - ExtentX(n) }
  function Right(n: Node): real { n.x + ExtentX(n) }
  function Top(n: Node): real { n.y - ExtentY(n) }
  function Bottom(n: Node): real { n.y + ExtentY(n) }

  /** The running `Math.min` over the left edges; `BoundsAttained` says what it is. */
  function MinLeft(nodes: seq<Node>): real
    requires |nodes| > 0
  {
    if |nodes| == 1 then Left(nodes[0])
    else Min(MinLeft(nodes[..|nodes| - 1]), Left(nodes[|nodes| - 1]))
  }

  /** The running `Math.max` over the right edges. */
  function MaxRight(nodes: seq<Node>): real
    requires |nodes| > 0
  {
    if |nodes| == 1 then Right(nodes[0])
    else Max(MaxRight(nodes[..|nodes| - 1]), Right(nodes[|nodes| - 1]))
  }

  /** The running `Math.min` over the top edges. */
  function MinTop(nodes: seq<Node>): real
    requires |nodes| > 0
  {
    if |nodes| == 1 then Top(nodes[0])
    else Min(MinTop(nodes[..|nodes| - 1]), Top(nodes[|nodes| - 1]))
  }

  /** The running `Math.max` over the bottom edges. */
  function MaxBottom(nodes: seq<Node>): real
    requires |nodes| > 0
  {
    if |nodes| == 1 then Bottom(nodes[0])
    else Max(MaxBottom(nodes[..|nodes| - 1]), Bottom(nodes[|nodes| - 1]))
  }

  /** Each running extreme bounds every node's edge on its side and is attained by some node. */
  lemma {:induction false} BoundsAttained(nodes: seq<Node>)
    requires |nodes| > 0
    ensures forall i :: 0 <= i < |nodes| ==> MinLeft(nodes) <= Left(nodes[i]) && Right(nodes[i]) <= MaxRight(nodes)
    ensures forall i :: 0 <= i < |nodes| ==> MinTop(nodes) <= Top(nodes[i]) && Bottom(nodes[i]) <= MaxBottom(nodes)
    ensures exists i :: 0 <= i < |nodes| && MinLeft(nodes) == Left(nodes[i])
    ensures exists i :: 0 <= i < |nodes| && MaxRight(nodes) == Right(nodes[i])
    ensures exists i :: 0 <= i < |nodes| && MinTop(nodes) == Top(nodes[i])
    ensures exists i :: 0 <= i < |nodes| && MaxBottom(nodes) == Bottom(nodes[i])
    decreases |nodes|
  {
    if |nodes| > 1 {
      var k := |nodes| - 1;
      var init := nodes[..k];
      BoundsAttained(init);
      assert forall i :: 0 <= i < k ==> init[i] == nodes[i];
      var a :| 0 <= a < k && MinLeft(init) == Left(init[a]);
      var b :| 0 <= b < k && MaxRight(init) == Right(init[b]);
      var c :| 0 <= c < k && MinTop(init) == Top(init[c]);
      var d :| 0 <= d < k && MaxBottom(init) == Bottom(init[d]);
      if MinLeft(nodes) == Left(nodes[k]) { assert 0 <= k < |nodes|; } else { assert MinLeft(nodes) == Left(nodes[a]); }
      if MaxRight(nodes) == Right(nodes[k]) { assert 0 <= k < |nodes|; } else { assert MaxRight(nodes) == Right(nodes[b]); }
      if MinTop(nodes) == Top(nodes[k]) { assert 0 <= k < |nodes|; } else { assert MinTop(nodes) == Top(nodes[c]); }
      if MaxBottom(nodes) == Bottom(nodes[k]) { assert 0 <= k < |nodes|; } else { assert MaxBottom(nodes) == Bottom(nodes[d]); }
    }
  }

  /** One more node folds into the bounds with one more `Math.min` / `Math.max`. */
  lemma {:induction false} BoundsSnoc(nodes: seq<Node>, n: Node)
    requires |nodes| > 0
    ensures MinLeft(nodes + [n]) == Min(MinLeft(nodes), Left(n))
    ensures MaxRight(nodes + [n]) == Max(MaxRight(nodes), Right(n))
    ensures MinTop(nodes + [n]) == Min(MinTop(nodes), Top(n))
    ensures MaxBottom(nodes + [n]) == Max(MaxBottom(nodes), Bottom(n))
  {
    assert (nodes + [n])[..|nodes|] == nodes;
  }

  /** The bounds of a prefix one node longer. */
  lemma {:induction false} BoundsStep(nodes: seq<Node>, i: nat)
    requires 1 <= i < |nodes|
    ensures MinLeft(nodes[..i + 1]) == Min(MinLeft(nodes[..i]), Left(nodes[i]))
    ensures MaxRight(nodes[..i + 1]) == Max(MaxRight(nodes[..i]), Right(nodes[i]))
    ensures MinTop(nodes[..i + 1]) == Min(MinTop(nodes[..i]), Top(nodes[i]))
    ensures MaxBottom(nodes[..i + 1]) == Max(MaxBottom(nodes[..i]), Bottom(nodes[i]))
  {
    BoundsSnoc(nodes[..i], nodes[i]);
    assert nodes[..i + 1] == nodes[..i] + [nodes[i]];
  }

  /** The bounding box `{ x: minX, y: minY, width: maxX - minX, height: maxY - minY }`. */
  function BoundsOf(nodes: seq<Node>): Rect
    requires |nodes| > 0
  {
    Rect(MinLeft(nodes), MinTop(nodes), MaxRight(nodes) - MinLeft(nodes), MaxBottom(nodes) - MinTop(nodes))
  }

  /**
   * The bounds loop of `copySelected`: one pass keeping the running minima and maxima of
   * the edges. The source seeds them with plus and minus infinity; here the first node seeds them.
   */
  method BoundingBox(nodes: seq<Node>) returns (b: Rect)
    requires |nodes| > 0
    ensures b == BoundsOf(nodes)
  {
    var minX, minY, maxX, maxY := Left(nodes[0]), Top(nodes[0]), Right(nodes[0]), Bottom(nodes[0]);
    var i := 1;
    while i < |nodes|
      invariant 1 <= i <= |nodes|
      invariant minX == MinLeft(nodes[..i]) && maxX == MaxRight(nodes[..i])
      invariant minY == MinTop(nodes[..i]) && maxY == MaxBottom(nodes[..i])
    {
      BoundsStep(nodes, i);
      minX, minY := Min(minX, Left(nodes[i])), Min(minY, Top(nodes[i]));
      maxX, maxY := Max(maxX, Right(nodes[i])), Max(maxY, Bottom(nodes[i]));
      i := i + 1;
    }
    assert nodes[..i] == nodes;
    b := Rect(minX, minY, maxX - minX, maxY - minY);
  }

  /** The box of a node list contains every node's box: it is a genuine bounding box. */
  lemma {:induction false} BoundsContainNodes(nodes: seq<Node>)
    requires |nodes| > 0
    ensures var b := BoundsOf(nodes);
            forall i :: 0 <= i < |nodes| ==>
              b.x <= Left(nodes[i]) && Right(nodes[i]) <= b.x + b.width && b.y <= Top(nodes[i]) && Bottom(nodes[i]) <= b.y + b.height
  {
    BoundsAttained(nodes);
  }
}
