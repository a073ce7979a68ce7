/**
 * The clipboard and the cascading paste session of the editor store as values: what
 * `copySelected` records for each node, where `pasteFromClipboard` and
 * `duplicateSelectedMany` place the copies, and how the paste session evolves.
 */
module Paste {
  import opened Common
  import opened Geometry
  import opened Scene
  import opened Boxes

  /** One copied node: its offset from the copied box's corner and the style reapplied on paste. */
  datatype ClipNode = ClipNode(
    dx: real,
    dy: real,
    typeId: string,
    color: string,
    rotation: real,
    scaleX: real,
    scaleY: real,
    opacity: real,
    locked: bool,
    visible: bool,
    meta: Meta)

  /** The `clipboard` record: the copied nodes and the box they were copied from. */
  datatype Clipboard = Clipboard(nodes: seq<ClipNode>, bbox: Option<Rect>)

  const EmptyClipboard := Clipboard([], None)

  /**
   * The `pasteSession` record. `count` is the number of multi pastes made since the
   * session opened; times are milliseconds.
   */
  datatype PasteSession = PasteSession(
    active: bool,
    count: nat,
    baseX: Option<real>,
    baseY: Option<real>,
    startedAt: Option<int>,
    lastPasteAt: Option<int>)

  /** `pasteSession.timeoutMs` */
  const PasteTimeoutMs: int := 4000
  /** The paste point used when no finite coordinate is given. */
  const DefaultPasteBase: real := 200.0
  const DefaultColor := "#000000"

  /** `endPasteSession` leaves every field reset. */
  const ClosedSession := PasteSession(false, 0, None, None, None, None)

  /** An open session has its base point and timestamps; a closed one has no base and a zero count. */
  ghost predicate SessionValid(s: PasteSession)
  {
    && (s.active ==> s.baseX.Some? && s.baseY.Some? && s.startedAt.Some? && s.lastPasteAt.Some?)
    && (!s.active ==> s.count == 0 && s.baseX.None? && s.baseY.None? && s.startedAt.None?)
  }

  /** `Number.isFinite(v) ? v : 200`, with None standing for a null or non-finite coordinate. */
  function OrDefaultBase(v: Option<real>): real
  {
    if v.Some? then v.value else DefaultPasteBase
  }

  /** The record `copySelected` keeps for one node of the copied box `bbox`. */
  function ClipOf(n: Node, bbox: Rect): (c: ClipNode)
    ensures c.dx == n.x - bbox.x && c.dy == n.y - bbox.y
    ensures c.typeId == (if n.typeId == "" then DefaultTypeId else n.typeId)
    ensures c.color == (if n.color == "" then DefaultColor else n.color)
  {
    ClipNode(
      n.x - bbox.x, n.y - bbox.y,
      if n.typeId == "" then DefaultTypeId else n.typeId,
      if n.color == "" then DefaultColor else n.color,
      n.rotation, n.scaleX, n.scaleY, n.opacity, n.locked, n.visible, n.meta)
  }

  /** The clipboard `copySelected` leaves for the selected nodes, which must be non-empty. */
  function Copied(selected: seq<Node>): (c: Clipboard)
    requires |selected| > 0
    ensures c.bbox == Some(BoundsOf(selected)) && |c.nodes| == |selected|
    ensures forall i :: 0 <= i < |selected| ==> c.nodes[i] == ClipOf(selected[i], BoundsOf(selected))
  {
    var bbox := BoundsOf(selected);
    Clipboard(seq(|selected|, i requires 0 <= i < |selected| => ClipOf(selected[i], bbox)), Some(bbox))
  }

  /** The style patch `pasteFromClipboard` passes to `updateNode` for a clip. */
  function RestyleOf(c: ClipNode): Patch
  {
    Restyle(c.rotation, c.scaleX, c.scaleY, c.opacity, c.locked, c.visible)
  }

  /**
   * The node `addNode` followed by `updateNode` builds for clip `c` at (x, y): a fresh id,
   * the next draw position, no group, and the clip's type, colour, style and shape.
   */
  function Placed(c: ClipNode, id: NodeId, z: int, x: real, y: real): Node
  {
    Node(id, c.typeId, x, y, c.rotation, c.scaleX, c.scaleY, c.opacity, c.color, c.locked, c.visible, z, None, c.meta)
  }

  /**
   * The nodes one paste appends: clip i lands at (ox + dx, oy + dy), takes id `firstId + i`
   * and draw position `firstZ + i`.
   */
  function Materialized(clips: seq<ClipNode>, ox: real, oy: real, firstId: nat, firstZ: int): (r: seq<Node>)
    ensures |r| == |clips|
  {
    seq(|clips|, i requires 0 <= i < |clips| =>
      Placed(clips[i], firstId + i, firstZ + i, ox + clips[i].dx, oy + clips[i].dy))
  }

  /** Placing one more clip appends one more node. */
  lemma {:induction false} MaterializedSnoc(clips: seq<ClipNode>, c: ClipNode, ox: real, oy: real, firstId: nat, firstZ: int)
    ensures Materialized(clips + [c], ox, oy, firstId, firstZ) ==
              Materialized(clips, ox, oy, firstId, firstZ) + [Placed(c, firstId + |clips|, firstZ + |clips|, ox + c.dx, oy + c.dy)]
  {
    var all := clips + [c];
    assert forall i :: 0 <= i < |clips| ==> all[i] == clips[i];
  }

  /**
   * Copying and pasting at the copied box's corner puts every copy exactly on its original,
   * with the original's style; pasting anywhere else translates the whole group rigidly.
   */
  lemma {:induction false} CopyPasteKeepsLayout(selected: seq<Node>, ox: real, oy: real, firstId: nat, firstZ: int)
    requires |selected| > 0
    ensures var b := BoundsOf(selected);
            var placed := Materialized(Copied(selected).nodes, ox, oy, firstId, firstZ);
            |placed| == |selected| &&
            forall i :: 0 <= i < |selected| ==>
              && placed[i].x == selected[i].x + (ox - b.x)
              && placed[i].y == selected[i].y + (oy - b.y)
              && placed[i].rotation == selected[i].rotation
              && placed[i].scaleX == selected[i].scaleX && placed[i].scaleY == selected[i].scaleY
              && placed[i].meta == selected[i].meta && placed[i].visible == selected[i].visible
  {
  }

  /** The session as `pasteFromClipboard` finds it before placing: opened by a multi paste when closed, else only timestamped. */
  function SessionOpened(s: PasteSession, multi: bool, x: Option<real>, y: Option<real>, now: int): (r: PasteSession)
    ensures r.lastPasteAt == Some(now)
    ensures multi && !s.active ==>
              r == PasteSession(true, 0, Some(OrDefaultBase(x)), Some(OrDefaultBase(y)), Some(now), Some(now))
    ensures s.active || !multi ==> r == s.(lastPasteAt := Some(now))
  {
    if multi && !s.active then
      PasteSession(true, 0, Some(OrDefaultBase(x)), Some(OrDefaultBase(y)), Some(now), Some(now))
    else s.(lastPasteAt := Some(now))
  }

  /** The origin of the pasted box and the step multiplier: the session base and its count for a multi paste, the given point and one step otherwise. */
  function PasteOrigin(s: PasteSession, multi: bool, x: Option<real>, y: Option<real>, offset: real): (r: (real, real))
    requires multi ==> s.baseX.Some? && s.baseY.Some?
  {
    var baseX := if multi then s.baseX.value else OrDefaultBase(x);
    var baseY := if multi then s.baseY.value else OrDefaultBase(y);
    var step := if multi then s.count as real else 1.0;
    (baseX + offset * step, baseY + offset * step)
  }

  /** The session after a whole paste: a multi paste counts one more step. */
  function SessionAfterPaste(s: PasteSession, multi: bool, x: Option<real>, y: Option<real>, now: int): (r: PasteSession)
    ensures SessionValid(s) ==> SessionValid(r)
    ensures multi ==> r.active && r.count == (if s.active then s.count else 0) + 1
    ensures !multi ==> r == s.(lastPasteAt := Some(now))
  {
    var s1 := SessionOpened(s, multi, x, y, now);
    if multi then s1.(count := s1.count + 1) else s1
  }

  /** Multi pastes at the given times, starting from session `s`. */
  function MultiPastes(s: PasteSession, x: Option<real>, y: Option<real>, times: seq<int>): PasteSession
    decreases |times|
  {
    if |times| == 0 then s
    else MultiPastes(SessionAfterPaste(s, true, x, y, times[0]), x, y, times[1..])
  }

  /**
   * The cascade: starting from a closed session, n multi pastes keep the base point of the
   * first one and count n steps, so paste k (from 0) lands `offset * k` from the base.
   */
  lemma {:induction false} CascadeCounts(s: PasteSession, x: Option<real>, y: Option<real>, times: seq<int>)
    requires SessionValid(s)
    ensures var r := MultiPastes(s, x, y, times);
            && SessionValid(r)
            && r.count == (if s.active then s.count else 0) + |times|
            && (|times| > 0 ==> r.active && r.lastPasteAt == Some(times[|times| - 1]))
            && (|times| > 0 && !s.active ==> r.baseX == Some(OrDefaultBase(x)) && r.baseY == Some(OrDefaultBase(y)))
            && (s.active ==> r.baseX == s.baseX && r.baseY == s.baseY)
    decreases |times|
  {
    if |times| > 0 {
      var s1 := SessionAfterPaste(s, true, x, y, times[0]);
      CascadeCounts(s1, x, y, times[1..]);
      if |times| > 1 {
        assert times[1..][|times[1..]| - 1] == times[|times| - 1];
      }
    }
  }

  /**
   * Paste k (counting from 0) of a cascade that starts on a closed session places the
   * copied box at the first paste's base point plus `offset * k` on both axes.
   */
  lemma {:induction false} CascadeOrigin(x: Option<real>, y: Option<real>, offset: real, times: seq<int>, k: nat)
    requires k < |times|
    ensures var before := MultiPastes(ClosedSession, x, y, times[..k]);
            var s := SessionOpened(before, true, x, y, times[k]);
            s.baseX.Some? && s.baseY.Some? &&
            PasteOrigin(s, true, x, y, offset) == (OrDefaultBase(x) + offset * k as real, OrDefaultBase(y) + offset * k as real)
  {
    var before := MultiPastes(ClosedSession, x, y, times[..k]);
    CascadeCounts(ClosedSession, x, y, times[..k]);
    assert before.count == k;
    assert k > 0 ==> before.active && before.baseX == Some(OrDefaultBase(x)) && before.baseY == Some(OrDefaultBase(y));
    var s := SessionOpened(before, true, x, y, times[k]);
    assert s.count == k && s.baseX == Some(OrDefaultBase(x)) && s.baseY == Some(OrDefaultBase(y));
    var o := PasteOrigin(s, true, x, y, offset);
    assert o.0 == OrDefaultBase(x) + offset * k as real && o.1 == OrDefaultBase(y) + offset * k as real;
  }

  /** `tickPasteSession`'s test: open, with a non-zero last paste time more than `timeoutMs` ago. */
  predicate Expired(s: PasteSession, now: int)
  {
    s.active && s.lastPasteAt.Some? && s.lastPasteAt.value != 0 && now - s.lastPasteAt.value > PasteTimeoutMs
  }

  /** A session that was just used does not expire until `timeoutMs` has passed. */
  lemma {:induction false} FreshSessionDoesNotExpire(s: PasteSession, x: Option<real>, y: Option<real>, t: int, now: int)
    requires now - t <= PasteTimeoutMs
    ensures !Expired(SessionAfterPaste(s, true, x, y, t), now)
  {
  }

  /**
   * What `duplicateSelectedMany` repeats: the copied clips, the copied box's corner and the
   * step of each round, or no step in place.
   */
  datatype Repeat = Repeat(clips: seq<ClipNode>, baseX: real, baseY: real, stepX: real, stepY: real, inPlace: bool)

  /** The offset of round k (counted from 1): none in place, k steps otherwise. */
  function RoundOffset(step: real, inPlace: bool, k: nat): real
  {
    if inPlace then 0.0 else step * k as real
  }

  /** The box corner of round k. */
  function RoundOrigin(p: Repeat, k: nat): (real, real)
  {
    (p.baseX + RoundOffset(p.stepX, p.inPlace, k), p.baseY + RoundOffset(p.stepY, p.inPlace, k))
  }

  /**
   * The nodes `duplicateSelectedMany` appends in its first `n` rounds: round k places every
   * clip again at the round's corner, with the next fresh ids and draw positions.
   */
  function Rounds(p: Repeat, n: nat, firstId: nat, firstZ: int): seq<Node>
  {
    if n == 0 then []
    else
      var prev := Rounds(p, n - 1, firstId, firstZ);
      prev + Materialized(p.clips, RoundOrigin(p, n).0, RoundOrigin(p, n).1, firstId + |prev|, firstZ + |prev|)
  }

  /** `n` rounds create `n` copies of every clip. */
  lemma {:induction false} RoundsLength(p: Repeat, n: nat, firstId: nat, firstZ: int)
    ensures |Rounds(p, n, firstId, firstZ)| == n * |p.clips|
    decreases n
  {
    if n > 0 {
      RoundsLength(p, n - 1, firstId, firstZ);
      assert (n - 1) * |p.clips| + |p.clips| == n * |p.clips|;
    }
  }

  /** `Math.max(1, Math.min(200, Math.floor(n)))` for a finite count, 3 otherwise. */
  function RepeatCount(count: JsNumber): (r: nat)
    ensures 1 <= r <= 200
    ensures count.Finite? && 1.0 <= count.value < 201.0 ==> r == count.value.Floor
    ensures count.Finite? && count.value < 1.0 ==> r == 1
    ensures count.Finite? && count.value >= 201.0 ==> r == 200
    ensures !count.Finite? ==> r == 3
  {
    match count
    case Finite(v) => MaxInt(1, MinInt(200, v.Floor))
    case _ => 3
  }
}
