/**
 * Snap-to-guide scoring (`snapBoxToGuides`, `featureWeightX`, `featureWeightY`). Each edge or
 * centre of the dragged box is paired with each guide on the same axis. Pairs farther apart
 * than the tolerance are dropped. The winner is the pair that is lexicographically smallest
 * on (feature priority, distance, guide source), and on a full tie the first pair found wins.
 */
module Snap {
  import opened Common
  import opened Scene

  /** A guide line: its coordinate and its `type` (`node-…`, `canvas-…` or anything else). */
  datatype Guide = Guide(value: real, kind: string)

  /** The candidate guides on each axis (`candidates.xs`, `candidates.ys`). */
  datatype Guides = Guides(xs: seq<Guide>, ys: seq<Guide>)

  /** The dragged box's edges and centres. */
  datatype SnapBox = SnapBox(left: real, centerX: real, right: real, top: real, centerY: real, bottom: real)

  datatype Feature = Feature(value: real, key: string)

  /** A surviving (feature, guide) pair with its priority, distance, signed delta and source weight. */
  datatype Candidate = Candidate(featureKey: string, p: nat, ad: real, diff: real, guide: Guide, srcW: nat)

  /** `{ dx, dy, gx, gy }` */
  datatype SnapResult = SnapResult(dx: real, dy: real, gx: Option<Guide>, gy: Option<Guide>)

  datatype Axis = X | Y

  /** `String(snapGuidePriority || 'center-first')` selects edges-first exactly when it is `edges-first`. */
  predicate EdgesFirst(mode: string)
  {
    mode == "edges-first"
  }

  /** `featureWeightX` / `featureWeightY`: lower is preferred. */
  function FeatureWeight(axis: Axis, mode: string, key: string): (w: nat)
    ensures w <= 2
    ensures key == "center" ==> w == (if EdgesFirst(mode) then 1 else 0)
    ensures (axis == X && (key == "left" || key == "right")) || (axis == Y && (key == "top" || key == "bottom")) ==>
              w == (if EdgesFirst(mode) then 0 else 1)
  {
    var edge := if axis == X then key == "left" || key == "right" else key == "top" || key == "bottom";
    if EdgesFirst(mode) then
      if edge then 0 else if key == "center" then 1 else 2
    else
      if key == "center" then 0 else if edge then 1 else 2
  }

  /** `guideSourceWeight`: node guides before canvas guides before anything else. */
  function SourceWeight(kind: string): (w: nat)
    ensures StartsWith(kind, "node-") ==> w == 0
    ensures !StartsWith(kind, "node-") && StartsWith(kind, "canvas-") ==> w == 1
    ensures !StartsWith(kind, "node-") && !StartsWith(kind, "canvas-") ==> w == 2
  {
    if StartsWith(kind, "node-") then 0
    else if StartsWith(kind, "canvas-") then 1
    else 2
  }

  /** `fx` and `fy`: the features tried on each axis, in the order the loops visit them. */
  function Features(axis: Axis, box: SnapBox): seq<Feature>
  {
    if axis == X then [Feature(box.left, "left"), Feature(box.centerX, "center"), Feature(box.right, "right")]
    else [Feature(box.top, "top"), Feature(box.centerY, "center"), Feature(box.bottom, "bottom")]
  }

  /** The candidate the inner loop builds for feature `f` and guide `g`. */
  function Pair(axis: Axis, mode: string, f: Feature, g: Guide): Candidate
  {
    Candidate(f.key, FeatureWeight(axis, mode, f.key), Abs(g.value - f.value), g.value - f.value, g, SourceWeight(g.kind))
  }

  /** The pairs of one feature within the tolerance, in guide order. */
  function PairsFor(axis: Axis, mode: string, tol: real, f: Feature, guides: seq<Guide>): seq<Candidate>
  {
    if |guides| == 0 then []
    else
      (if Abs(guides[0].value - f.value) <= tol then [Pair(axis, mode, f, guides[0])] else []) +
      PairsFor(axis, mode, tol, f, guides[1..])
  }

  /** The pairs of one feature are exactly its pairings with the guides within the tolerance. */
  lemma {:induction false} PairsForMembers(axis: Axis, mode: string, tol: real, f: Feature, guides: seq<Guide>)
    ensures forall c :: c in PairsFor(axis, mode, tol, f, guides) <==>
              exists g :: g in guides && c == Pair(axis, mode, f, g) && Abs(g.value - f.value) <= tol
    decreases |guides|
  {
    if |guides| > 0 {
      PairsForMembers(axis, mode, tol, f, guides[1..]);
      assert forall g :: g in guides <==> g == guides[0] || g in guides[1..] by {
        assert guides == [guides[0]] + guides[1..];
      }
    }
  }

  /** Every candidate the two nested loops consider, in visiting order (features outside, guides inside). */
  function Candidates(axis: Axis, mode: string, tol: real, features: seq<Feature>, guides: seq<Guide>): seq<Candidate>
  {
    if |features| == 0 then []
    else PairsFor(axis, mode, tol, features[0], guides) + Candidates(axis, mode, tol, features[1..], guides)
  }

  /** The candidates are exactly the feature-guide pairings within the tolerance. */
  lemma {:induction false} CandidatesMembers(axis: Axis, mode: string, tol: real, features: seq<Feature>, guides: seq<Guide>)
    ensures forall c :: c in Candidates(axis, mode, tol, features, guides) <==>
              exists f, g :: f in features && g in guides && c == Pair(axis, mode, f, g) && Abs(g.value - f.value) <= tol
    decreases |features|
  {
    if |features| > 0 {
      CandidatesMembers(axis, mode, tol, features[1..], guides);
      PairsForMembers(axis, mode, tol, features[0], guides);
      assert forall f :: f in features <==> f == features[0] || f in features[1..] by {
        assert features == [features[0]] + features[1..];
      }
    }
  }

  /** The replacement test of the loop: strictly better priority, else strictly closer, else a strictly better source. */
  predicate Better(c: Candidate, b: Candidate)
  {
    c.p < b.p || (c.p == b.p && c.ad < b.ad) || (c.p == b.p && c.ad == b.ad && c.srcW < b.srcW)
  }

  /**
   * The position of the running best after the loop has seen `cands` (a left fold): the
   * first candidate seeds it and a later one replaces it only when strictly better.
   * The winner is a lexicographic minimum, and strictly better than every candidate
   * before it, so on a full tie the first one found wins.
   */
  function BestIndex(cands: seq<Candidate>): (r: Option<nat>)
    ensures r.None? <==> |cands| == 0
    ensures r.Some? ==> r.value < |cands|
    ensures r.Some? ==> forall i :: 0 <= i < |cands| ==> !Better(cands[i], cands[r.value])
    ensures r.Some? ==> forall i :: 0 <= i < r.value ==> Better(cands[r.value], cands[i])
  {
    if |cands| == 0 then None
    else
      var prefix := cands[..|cands| - 1];
      var c := cands[|cands| - 1];
      match BestIndex(prefix)
      case None => Some(0)
      case Some(k) =>
        assert cands[k] == prefix[k];
        assert forall i :: 0 <= i < |prefix| ==> cands[i] == prefix[i];
        if Better(c, cands[k]) then Some(|cands| - 1) else Some(k)
  }

  /** The winner of one axis, if any candidate survived. */
  function Best(cands: seq<Candidate>): (r: Option<Candidate>)
    ensures r.None? <==> |cands| == 0
    ensures r.Some? ==> r.value in cands && forall c :: c in cands ==> !Better(c, r.value)
  {
    match BestIndex(cands)
    case None => None
    case Some(k) => Some(cands[k])
  }

  /** The winner of one axis for the box, the guides, the priority mode and the tolerance. */
  function AxisWinner(axis: Axis, mode: string, tol: real, box: SnapBox, guides: seq<Guide>): Option<Candidate>
  {
    Best(Candidates(axis, mode, tol, Features(axis, box), guides))
  }

  /**
   * `snapBoxToGuides(box, candidates)` with the store's settings and the tolerance passed
   * in: no snap when guide snapping is off, otherwise each axis moves by its winner's
   * signed delta and reports its guide.
   */
  function SnapBoxToGuides(settings: Settings, tol: real, box: SnapBox, guides: Guides): (r: SnapResult)
    ensures !settings.snapGuides ==> r == SnapResult(0.0, 0.0, None, None)
  {
    if !settings.snapGuides then SnapResult(0.0, 0.0, None, None)
    else
      var bestX := AxisWinner(X, settings.snapGuidePriority, tol, box, guides.xs);
      var bestY := AxisWinner(Y, settings.snapGuidePriority, tol, box, guides.ys);
      SnapResult(
        if bestX.Some? then bestX.value.diff else 0.0,
        if bestY.Some? then bestY.value.diff else 0.0,
        if bestX.Some? then Some(bestX.value.guide) else None,
        if bestY.Some? then Some(bestY.value.guide) else None)
  }

  /** No feature-guide pair within the tolerance is better than `c`. */
  ghost predicate Unbeaten(axis: Axis, mode: string, tol: real, features: seq<Feature>, guides: seq<Guide>, c: Candidate)
  {
    forall f', g' :: f' in features && g' in guides && Abs(g'.value - f'.value) <= tol ==>
      !Better(Pair(axis, mode, f', g'), c)
  }

  /**
   * The winner of one axis: there is one exactly when some feature lies within the
   * tolerance of some guide; it is such a pair, its delta is the guide's value minus the
   * feature's, and no other pair within the tolerance is better.
   */
  lemma {:induction false} WinnerIsBestPair(axis: Axis, mode: string, tol: real, features: seq<Feature>, guides: seq<Guide>)
    ensures var w := Best(Candidates(axis, mode, tol, features, guides));
            && (w.Some? <==> exists f, g :: f in features && g in guides && Abs(g.value - f.value) <= tol)
            && (w.Some? ==> Unbeaten(axis, mode, tol, features, guides, w.value))
            && (w.Some? ==>
                  exists f, g :: f in features && g in guides && Abs(g.value - f.value) <= tol &&
                    w.value == Pair(axis, mode, f, g) && w.value.diff == g.value - f.value)
  {
    var cands := Candidates(axis, mode, tol, features, guides);
    var w := Best(cands);
    CandidatesMembers(axis, mode, tol, features, guides);
    if exists f, g :: f in features && g in guides && Abs(g.value - f.value) <= tol {
      var f, g :| f in features && g in guides && Abs(g.value - f.value) <= tol;
      assert Pair(axis, mode, f, g) in cands;
    }
    if w.Some? {
      forall f', g' | f' in features && g' in guides && Abs(g'.value - f'.value) <= tol
        ensures !Better(Pair(axis, mode, f', g'), w.value)
      {
        assert Pair(axis, mode, f', g') in cands;
      }
    }
  }

  /**
   * With guide snapping on, a guide is reported on the x axis
   * exactly when some feature lies within the tolerance of some guide; with none, `dx` is 0.
   */
  lemma {:induction false} SnapXFound(settings: Settings, tol: real, box: SnapBox, guides: Guides)
    requires settings.snapGuides
    ensures var r := SnapBoxToGuides(settings, tol, box, guides);
            && (r.gx.Some? <==> exists f, g :: f in Features(X, box) && g in guides.xs && Abs(g.value - f.value) <= tol)
            && (r.gx.None? ==> r.dx == 0.0)
  {
    var w := AxisWinner(X, settings.snapGuidePriority, tol, box, guides.xs);
    WinnerIsBestPair(X, settings.snapGuidePriority, tol, Features(X, box), guides.xs);
    assert SnapBoxToGuides(settings, tol, box, guides).gx.Some? <==> w.Some?;
  }

  /**
   * The guide reported on the x axis: `dx` is its value minus some feature's and at most
   * the tolerance in size, and no other pair within the tolerance is better.
   */
  lemma {:induction false} SnapXWinner(settings: Settings, tol: real, box: SnapBox, guides: Guides)
    requires settings.snapGuides
    ensures var r := SnapBoxToGuides(settings, tol, box, guides);
            var mode := settings.snapGuidePriority;
            r.gx.Some? ==>
              exists f :: f in Features(X, box) && r.dx == r.gx.value.value - f.value && Abs(r.dx) <= tol &&
                Unbeaten(X, mode, tol, Features(X, box), guides.xs, Pair(X, mode, f, r.gx.value))
  {
    var mode := settings.snapGuidePriority;
    var r := SnapBoxToGuides(settings, tol, box, guides);
    var w := AxisWinner(X, mode, tol, box, guides.xs);
    if w.Some? {
      WinnerIsBestPair(X, mode, tol, Features(X, box), guides.xs);
      var f, g :| f in Features(X, box) && g in guides.xs && Abs(g.value - f.value) <= tol &&
                  w.value == Pair(X, mode, f, g) && w.value.diff == g.value - f.value;
      assert r.gx == Some(g) && r.dx == g.value - f.value;
    }
  }

  /** The y axis: a guide is reported exactly when some feature lies within the tolerance of some guide. */
  lemma {:induction false} SnapYFound(settings: Settings, tol: real, box: SnapBox, guides: Guides)
    requires settings.snapGuides
    ensures var r := SnapBoxToGuides(settings, tol, box, guides);
            && (r.gy.Some? <==> exists f, g :: f in Features(Y, box) && g in guides.ys && Abs(g.value - f.value) <= tol)
            && (r.gy.None? ==> r.dy == 0.0)
  {
    var w := AxisWinner(Y, settings.snapGuidePriority, tol, box, guides.ys);
    WinnerIsBestPair(Y, settings.snapGuidePriority, tol, Features(Y, box), guides.ys);
    assert SnapBoxToGuides(settings, tol, box, guides).gy.Some? <==> w.Some?;
  }

  /** The guide reported on the y axis: `dy` is its value minus some feature's, within the tolerance, and unbeaten. */
  lemma {:induction false} SnapYWinner(settings: Settings, tol: real, box: SnapBox, guides: Guides)
    requires settings.snapGuides
    ensures var r := SnapBoxToGuides(settings, tol, box, guides);
            var mode := settings.snapGuidePriority;
            r.gy.Some? ==>
              exists f :: f in Features(Y, box) && r.dy == r.gy.value.value - f.value && Abs(r.dy) <= tol &&
                Unbeaten(Y, mode, tol, Features(Y, box), guides.ys, Pair(Y, mode, f, r.gy.value))
  {
    var mode := settings.snapGuidePriority;
    var r := SnapBoxToGuides(settings, tol, box, guides);
    var w := AxisWinner(Y, mode, tol, box, guides.ys);
    if w.Some? {
      WinnerIsBestPair(Y, mode, tol, Features(Y, box), guides.ys);
      var f, g :| f in Features(Y, box) && g in guides.ys && Abs(g.value - f.value) <= tol &&
                  w.value == Pair(Y, mode, f, g) && w.value.diff == g.value - f.value;
      assert r.gy == Some(g) && r.dy == g.value - f.value;
    }
  }

  /**
   * Edges-first, a box whose left edge is at 100, a node guide at 98 and a canvas guide at
   * 102, tolerance 8: both guides are 2 away from the left edge, the node guide wins the
   * source tie-break, and the box moves by -2.
   */
  lemma {:induction false} EdgesFirstPrefersNodeGuide()
    ensures var settings := DefaultSettings.(snapGuidePriority := "edges-first");
            var box := SnapBox(100.0, 146.0, 192.0, 100.0, 160.0, 220.0);
            var guides := Guides([Guide(98.0, "node-left"), Guide(102.0, "canvas-left")], []);
            var r := SnapBoxToGuides(settings, 8.0, box, guides);
            r.dx == -2.0 && r.gx == Some(Guide(98.0, "node-left")) && r.dy == 0.0 && r.gy.None?
  {
    var box := SnapBox(100.0, 146.0, 192.0, 100.0, 160.0, 220.0);
    NodeGuideWinsX();
    assert Candidates(Y, "edges-first", 8.0, Features(Y, box), []) == [];
  }

  /** The x axis of the example above: the node guide's pair comes first and nothing beats it. */
  lemma {:induction false} NodeGuideWinsX()
    ensures var box := SnapBox(100.0, 146.0, 192.0, 100.0, 160.0, 220.0);
            var g1 := Guide(98.0, "node-left");
            var w := AxisWinner(X, "edges-first", 8.0, box, [g1, Guide(102.0, "canvas-left")]);
            w == Some(Pair(X, "edges-first", Features(X, box)[0], g1)) && w.value.diff == -2.0
  {
    var mode := "edges-first";
    var box := SnapBox(100.0, 146.0, 192.0, 100.0, 160.0, 220.0);
    var g1 := Guide(98.0, "node-left");
    var g2 := Guide(102.0, "canvas-left");
    var fs := Features(X, box);
    assert StartsWith(g1.kind, "node-");
    assert g2.kind[..5] != "node-" by { assert g2.kind[0] == 'c'; }
    assert !StartsWith(g2.kind, "node-") && StartsWith(g2.kind, "canvas-");
    var c1 := Pair(X, mode, fs[0], g1);
    var c2 := Pair(X, mode, fs[0], g2);
    assert PairsFor(X, mode, 8.0, fs[0], [g1, g2]) == [c1, c2] by {
      assert [g1, g2][1..] == [g2];
      assert PairsFor(X, mode, 8.0, fs[0], [g2]) == [c2] + PairsFor(X, mode, 8.0, fs[0], []);
    }
    assert PairsFor(X, mode, 8.0, fs[1], [g1, g2]) == [] by {
      assert [g1, g2][1..] == [g2];
      assert Abs(g1.value - fs[1].value) > 8.0 && Abs(g2.value - fs[1].value) > 8.0;
      assert PairsFor(X, mode, 8.0, fs[1], [g2]) == [] + PairsFor(X, mode, 8.0, fs[1], []);
    }
    assert PairsFor(X, mode, 8.0, fs[2], [g1, g2]) == [] by {
      assert [g1, g2][1..] == [g2];
      assert Abs(g1.value - fs[2].value) > 8.0 && Abs(g2.value - fs[2].value) > 8.0;
      assert PairsFor(X, mode, 8.0, fs[2], [g2]) == [] + PairsFor(X, mode, 8.0, fs[2], []);
    }
    assert Candidates(X, mode, 8.0, fs, [g1, g2]) == [c1, c2] by {
      assert fs[1..][1..] == [fs[2]];
      assert Candidates(X, mode, 8.0, fs[1..], [g1, g2]) == [] + Candidates(X, mode, 8.0, fs[1..][1..], [g1, g2]);
      assert Candidates(X, mode, 8.0, [fs[2]], [g1, g2]) == [] + Candidates(X, mode, 8.0, [], [g1, g2]);
    }
    assert [c1, c2][..1] == [c1];
    assert BestIndex([c1, c2]) == Some(0);
    assert Best([c1, c2]) == Some(c1);
  }

  /** The pairs of a concatenation of guide lists are those of each part, in order. */
  lemma {:induction false} PairsForAppend(axis: Axis, mode: string, tol: real, f: Feature, a: seq<Guide>, b: seq<Guide>)
    ensures PairsFor(axis, mode, tol, f, a + b) == PairsFor(axis, mode, tol, f, a) + PairsFor(axis, mode, tol, f, b)
    decreases |a|
  {
    if |a| > 0 {
      var head := if Abs(a[0].value - f.value) <= tol then [Pair(axis, mode, f, a[0])] else [];
      assert (a + b)[0] == a[0];
      assert (a + b)[1..] == a[1..] + b;
      assert PairsFor(axis, mode, tol, f, a + b) == head + PairsFor(axis, mode, tol, f, a[1..] + b);
      assert PairsFor(axis, mode, tol, f, a) == head + PairsFor(axis, mode, tol, f, a[1..]);
      PairsForAppend(axis, mode, tol, f, a[1..], b);
      SeqAssoc(head, PairsFor(axis, mode, tol, f, a[1..]), PairsFor(axis, mode, tol, f, b));
    } else {
      assert a + b == b;
    }
  }

  /** The candidates of a concatenation of feature lists are those of each part, in order. */
  lemma {:induction false} CandidatesAppend(axis: Axis, mode: string, tol: real, a: seq<Feature>, b: seq<Feature>, guides: seq<Guide>)
    ensures Candidates(axis, mode, tol, a + b, guides) ==
              Candidates(axis, mode, tol, a, guides) + Candidates(axis, mode, tol, b, guides)
    decreases |a|
  {
    if |a| > 0 {
      assert (a + b)[1..] == a[1..] + b;
      CandidatesAppend(axis, mode, tol, a[1..], b, guides);
    } else {
      assert a + b == b;
    }
  }

  /** The loop's replacement step: a candidate seeds an empty best and replaces only a worse one. */
  function Step(best: Option<Candidate>, c: Candidate): Option<Candidate>
  {
    if best.None? || Better(c, best.value) then Some(c) else best
  }

  /** The winner of a list with one more candidate is one replacement step from the winner before it. */
  lemma {:induction false} BestSnoc(cands: seq<Candidate>, c: Candidate)
    ensures Best(cands + [c]) == Step(Best(cands), c)
  {
    var all := cands + [c];
    assert all[..|all| - 1] == cands;
    assert all[|all| - 1] == c;
    match BestIndex(cands)
    case None =>
    case Some(k) =>
      assert all[k] == cands[k];
  }

  /** One more guide of the inner loop: a pair within the tolerance takes one replacement step. */
  lemma {:induction false} GuideStep(seen: seq<Candidate>, axis: Axis, mode: string, tol: real, f: Feature, guides: seq<Guide>,
                                     j: nat, best: Option<Candidate>, next: Option<Candidate>)
    requires j < |guides|
    requires best == Best(seen + PairsFor(axis, mode, tol, f, guides[..j]))
    requires next == if Abs(guides[j].value - f.value) <= tol then Step(best, Pair(axis, mode, f, guides[j])) else best
    ensures next == Best(seen + PairsFor(axis, mode, tol, f, guides[..j + 1]))
  {
    var g := guides[j];
    var one := if Abs(g.value - f.value) <= tol then [Pair(axis, mode, f, g)] else [];
    var pre := PairsFor(axis, mode, tol, f, guides[..j]);
    assert guides[..j + 1] == guides[..j] + [g];
    PairsForAppend(axis, mode, tol, f, guides[..j], [g]);
    assert [g][1..] == [];
    assert PairsFor(axis, mode, tol, f, [g]) == one + PairsFor(axis, mode, tol, f, []);
    assert PairsFor(axis, mode, tol, f, guides[..j + 1]) == pre + one;
    SeqAssoc(seen, pre, one);
    if Abs(g.value - f.value) <= tol {
      BestSnoc(seen + pre, Pair(axis, mode, f, g));
      assert seen + pre + one == seen + pre + [Pair(axis, mode, f, g)];
    } else {
      assert seen + pre + one == seen + pre;
    }
  }

  /** One more feature of the outer loop: its pairs follow those of the features before it. */
  lemma {:induction false} FeatureStep(axis: Axis, mode: string, tol: real, features: seq<Feature>, guides: seq<Guide>, i: nat)
    requires i < |features|
    ensures Candidates(axis, mode, tol, features[..i + 1], guides) ==
              Candidates(axis, mode, tol, features[..i], guides) + PairsFor(axis, mode, tol, features[i], guides)
  {
    var f := features[i];
    assert features[..i + 1] == features[..i] + [f];
    CandidatesAppend(axis, mode, tol, features[..i], [f], guides);
    assert [f][1..] == [];
    assert Candidates(axis, mode, tol, [f], guides) == PairsFor(axis, mode, tol, f, guides) + Candidates(axis, mode, tol, [], guides);
  }

  /**
   * One axis of `snapBoxToGuides` as its two nested loops (features outside, guides inside).
   * It finds the winner of that axis.
   */
  method ScanAxis(axis: Axis, mode: string, tol: real, features: seq<Feature>, guides: seq<Guide>)
    returns (best: Option<Candidate>)
    ensures best == Best(Candidates(axis, mode, tol, features, guides))
  {
    best := None;
    var i := 0;
    while i < |features|
      invariant 0 <= i <= |features|
      invariant best == Best(Candidates(axis, mode, tol, features[..i], guides))
    {
      best := ScanFeature(Candidates(axis, mode, tol, features[..i], guides), axis, mode, tol, features[i], guides, best);
      FeatureStep(axis, mode, tol, features, guides, i);
      i := i + 1;
    }
    assert features[..i] == features;
  }

  /** The inner loop: every guide tried against one feature, in order. */
  method ScanFeature(ghost seen: seq<Candidate>, axis: Axis, mode: string, tol: real, f: Feature, guides: seq<Guide>,
                     best0: Option<Candidate>) returns (best: Option<Candidate>)
    requires best0 == Best(seen)
    ensures best == Best(seen + PairsFor(axis, mode, tol, f, guides))
  {
    var p := FeatureWeight(axis, mode, f.key);
    best := best0;
    var j := 0;
    assert seen + PairsFor(axis, mode, tol, f, guides[..0]) == seen;
    while j < |guides|
      invariant 0 <= j <= |guides|
      invariant best == Best(seen + PairsFor(axis, mode, tol, f, guides[..j]))
    {
      ghost var before := best;
      best := TryGuide(axis, mode, p, tol, f, guides[j], best);
      GuideStep(seen, axis, mode, tol, f, guides, j, before, best);
      j := j + 1;
    }
    assert guides[..j] == guides;
  }

  /**
   * The inner loop's body: a guide farther than the tolerance is skipped; otherwise its
   * pair seeds an empty best, or replaces the best on strictly better priority, else
   * strictly smaller distance, else a strictly better source.
   */
  method TryGuide(axis: Axis, mode: string, p: nat, tol: real, f: Feature, g: Guide, best: Option<Candidate>)
    returns (next: Option<Candidate>)
    requires p == FeatureWeight(axis, mode, f.key)
    ensures next == if Abs(g.value - f.value) <= tol then Step(best, Pair(axis, mode, f, g)) else best
  {
    next := best;
    var diff := g.value - f.value;
    var ad := Abs(diff);
    if ad > tol {
      return;
    }
    var cand := Candidate(f.key, p, ad, diff, g, SourceWeight(g.kind));
    if best.None? {
      next := Some(cand);
    } else if cand.p < best.value.p {
      next := Some(cand);
    } else if cand.p == best.value.p && cand.ad < best.value.ad {
      next := Some(cand);
    } else if cand.p == best.value.p && cand.ad == best.value.ad && cand.srcW < best.value.srcW {
      next := Some(cand);
    }
  }

  /** `snapBoxToGuides` as the source runs it: the x loops, then the y loops. */
  method SnapToGuides(settings: Settings, tol: real, box: SnapBox, guides: Guides) returns (r: SnapResult)
    ensures r == SnapBoxToGuides(settings, tol, box, guides)
  {
    if !settings.snapGuides {
      return SnapResult(0.0, 0.0, None, None);
    }
    var bestX := ScanAxis(X, settings.snapGuidePriority, tol, Features(X, box), guides.xs);
    var bestY := ScanAxis(Y, settings.snapGuidePriority, tol, Features(Y, box), guides.ys);
    r := SnapResult(
      if bestX.Some? then bestX.value.diff else 0.0,
      if bestY.Some? then bestY.value.diff else 0.0,
      if bestX.Some? then Some(bestX.value.guide) else None,
      if bestY.Some? then Some(bestY.value.guide) else None);
  }
}
