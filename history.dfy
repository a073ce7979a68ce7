/**
 * The undo/redo history of the editor store as values: the `history` record, the snapshot
 * it stacks, and the effect of `_pushHistory`, `scheduleHistoryCommit`, the debounce timer,
 * `beginHistoryBatch`/`endHistoryBatch`, `undo` and `redo` on that record. The store's
 * methods are proved against these functions.
 */
module History {
  import opened Common
  import opened Scene

  /** `_captureSnapshot`: nodes, view and settings. Groups and the selection are not part of a snapshot. */
  datatype Snapshot = Snapshot(nodes: seq<Node>, view: View, settings: Settings)

  /** `history.max` */
  const MaxHistory: nat := 80

  /**
   * The `history` record: the past stack (oldest first, live state on top), the future
   * stack (next redo first), the restore lock, whether the debounce timer is armed, the
   * batch depth and whether a commit was requested inside the current batch.
   */
  datatype History = History(
    past: seq<Snapshot>,
    future: seq<Snapshot>,
    lock: bool,
    timerPending: bool,
    batching: nat,
    batchDirty: bool)

  const InitialHistory := History([], [], false, false, 0, false)

  /** The two stacks together never hold more than `max` snapshots, and a batch flag is only pending inside a batch. */
  ghost predicate HistoryValid(h: History)
  {
    |h.past| + |h.future| <= MaxHistory && (h.batching == 0 ==> !h.batchDirty)
  }

  /** `past.splice(0, past.length - max)`: only the newest `max` entries are kept. */
  function Trimmed(past: seq<Snapshot>): (r: seq<Snapshot>)
    ensures |r| <= MaxHistory
    ensures |r| == if |past| > MaxHistory then MaxHistory else |past|
    ensures r == past[|past| - |r|..]
  {
    if |past| > MaxHistory then past[|past| - MaxHistory..] else past
  }

  /** The snapshot `_pushHistory` compares against: the top of `past`. */
  predicate RepeatsTop(h: History, snap: Snapshot)
  {
    |h.past| > 0 && h.past[|h.past| - 1] == snap
  }

  /**
   * `_pushHistory` with the live state `snap`: nothing happens under the lock or when `snap`
   * equals the top of `past`; otherwise `snap` goes on top, the oldest entries beyond `max`
   * are dropped and the redo stack is emptied.
   */
  function Pushed(h: History, snap: Snapshot): (r: History)
    ensures h.lock || RepeatsTop(h, snap) ==> r == h
    ensures !h.lock && !RepeatsTop(h, snap) ==>
              && r.future == []
              && |r.past| > 0 && r.past[|r.past| - 1] == snap
              && |r.past| <= MaxHistory
              && |r.past| == (if |h.past| < MaxHistory then |h.past| + 1 else MaxHistory)
              && r.past == (h.past + [snap])[|h.past| + 1 - |r.past|..]
              && r.(past := h.past, future := h.future) == h
    ensures |r.past| >= (if |h.past| < MaxHistory then |h.past| else MaxHistory)
    ensures RepeatsTop(r, snap) || r == h
  {
    if h.lock || RepeatsTop(h, snap) then h
    else h.(past := Trimmed(h.past + [snap]), future := [])
  }

  /**
   * `scheduleHistoryCommit`: under the lock nothing happens; inside a batch only the
   * batch-dirty flag is set; otherwise the debounce timer is (re)armed.
   */
  function Scheduled(h: History): (r: History)
    ensures r.past == h.past && r.future == h.future && r.lock == h.lock && r.batching == h.batching
    ensures h.lock ==> r == h
    ensures !h.lock && h.batching > 0 ==> r.batchDirty && r.timerPending == h.timerPending
    ensures !h.lock && h.batching == 0 ==> r.timerPending && r.batchDirty == h.batchDirty
  {
    if h.lock then h
    else if h.batching > 0 then h.(batchDirty := true)
    else h.(timerPending := true)
  }

  /** The debounce timer fires: it is disarmed and the live state `snap` is pushed. */
  function TimerFired(h: History, snap: Snapshot): (r: History)
    ensures !h.timerPending ==> r == h
    ensures h.timerPending ==> !r.timerPending && r == Pushed(h.(timerPending := false), snap)
  {
    if h.timerPending then Pushed(h.(timerPending := false), snap) else h
  }

  /** `beginHistoryBatch` */
  function BatchBegun(h: History): (r: History)
    ensures r.batching == h.batching + 1 && r.(batching := h.batching) == h
  {
    h.(batching := h.batching + 1)
  }

  /**
   * `endHistoryBatch` with the live state `snap`: the depth drops by one but not below zero;
   * the call that reaches zero with a pending commit clears the flag and pushes once.
   */
  function BatchEnded(h: History, snap: Snapshot): (r: History)
    ensures r.batching == if h.batching == 0 then 0 else h.batching - 1
    ensures r.batching > 0 || !h.batchDirty ==> r == h.(batching := r.batching)
    ensures r.batching == 0 && h.batchDirty ==>
              r == Pushed(h.(batching := 0, batchDirty := false), snap) && !r.batchDirty
  {
    var depth := if h.batching == 0 then 0 else h.batching - 1;
    var h1 := h.(batching := depth);
    if depth == 0 && h1.batchDirty then Pushed(h1.(batchDirty := false), snap) else h1
  }

  /** `undo` may proceed: not restoring, and the past holds more than the live state. */
  predicate CanUndo(h: History)
  {
    !h.lock && |h.past| > 1
  }

  /** `redo` may proceed. */
  predicate CanRedo(h: History)
  {
    !h.lock && |h.future| > 0
  }

  /** The pop/unshift of `undo`: the top of `past` moves to the front of `future`. */
  function UndoStep(h: History): (r: History)
    requires |h.past| > 1
    ensures |r.past| == |h.past| - 1 && |r.future| == |h.future| + 1
    ensures r.future[0] == h.past[|h.past| - 1]
    ensures r.past + [r.future[0]] == h.past && r.future[1..] == h.future
  {
    h.(past := h.past[..|h.past| - 1], future := [h.past[|h.past| - 1]] + h.future)
  }

  /** The shift/push of `redo`: the front of `future` goes back on top of `past`. */
  function RedoStep(h: History): (r: History)
    requires |h.future| > 0
    ensures |r.past| == |h.past| + 1 && |r.future| == |h.future| - 1
    ensures r.past[|r.past| - 1] == h.future[0]
    ensures r.past[..|h.past|] == h.past && [h.future[0]] + r.future == h.future
  {
    h.(past := h.past + [h.future[0]], future := h.future[1..])
  }

  /** `undo` when it proceeds: an armed timer is cancelled and its commit made first, then one step back. */
  function Undone(h: History, live: Snapshot): (r: History)
    requires CanUndo(h)
    ensures |r.past| >= 1 && !r.timerPending
    ensures !h.timerPending ==> r == UndoStep(h)
  {
    var h1 := if h.timerPending then Pushed(h.(timerPending := false), live) else h;
    UndoStep(h1)
  }

  /** Redo undoes an undo: with no commit pending, the stacks come back exactly. */
  lemma {:induction false} RedoAfterUndo(h: History, live: Snapshot)
    requires CanUndo(h) && !h.timerPending
    ensures CanRedo(Undone(h, live)) && RedoStep(Undone(h, live)) == h
  {
    var u := Undone(h, live);
    assert u.past + [u.future[0]] == h.past;
  }

  /** Undo undoes a redo. */
  lemma {:induction false} UndoAfterRedo(h: History)
    requires CanRedo(h) && |h.past| > 0
    ensures CanUndo(RedoStep(h)) && UndoStep(RedoStep(h)) == h
  {
    var r := RedoStep(h);
    assert r.past[..|h.past|] == h.past;
  }

  /** Every history operation keeps the stacks within `max` and never leaves a batch flag outside a batch. */
  lemma {:induction false} OperationsKeepHistoryValid(h: History, snap: Snapshot)
    requires HistoryValid(h)
    ensures HistoryValid(Pushed(h, snap))
    ensures HistoryValid(Scheduled(h))
    ensures HistoryValid(TimerFired(h, snap))
    ensures HistoryValid(BatchBegun(h))
    ensures HistoryValid(BatchEnded(h, snap))
    ensures CanUndo(h) ==> HistoryValid(Undone(h, snap))
    ensures CanRedo(h) ==> HistoryValid(RedoStep(h))
  {
    if CanUndo(h) && h.timerPending {
      var h1 := Pushed(h.(timerPending := false), snap);
      assert |h1.past| + |h1.future| <= MaxHistory;
    }
  }

  /** `n` consecutive `scheduleHistoryCommit` calls. */
  function ScheduledTimes(h: History, n: nat): History
  {
    if n == 0 then h else Scheduled(ScheduledTimes(h, n - 1))
  }

  /** Two more commit requests. */
  lemma {:induction false} ScheduledTwice(h: History, n: nat)
    ensures ScheduledTimes(h, n + 2) == Scheduled(Scheduled(ScheduledTimes(h, n)))
  {
    assert ScheduledTimes(h, n + 1) == Scheduled(ScheduledTimes(h, n));
  }

  /** Commit requests made in two runs add up. */
  lemma {:induction false} ScheduledTimesAdd(h: History, a: nat, b: nat)
    ensures ScheduledTimes(ScheduledTimes(h, a), b) == ScheduledTimes(h, a + b)
    decreases b
  {
    if b > 0 {
      ScheduledTimesAdd(h, a, b - 1);
    }
  }

  /** Inside a batch, any number of commit requests only raise the batch flag: nothing is pushed and no timer is armed. */
  lemma {:induction false} BatchDefersCommits(h: History, n: nat)
    requires h.batching > 0
    ensures ScheduledTimes(h, n) == if n == 0 || h.lock then h else h.(batchDirty := true)
  {
    if n > 0 {
      BatchDefersCommits(h, n - 1);
    }
  }

  /**
   * Batch atomicity: an outermost batch in which `n` commits were requested ends with
   * exactly one push of the final state, or with no change at all when none was.
   */
  lemma {:induction false} BatchCommitsOnce(h: History, n: nat, snap: Snapshot)
    requires !h.lock && h.batching == 0 && !h.batchDirty
    ensures BatchEnded(ScheduledTimes(BatchBegun(h), n), snap) == if n == 0 then h else Pushed(h, snap)
  {
    BatchDefersCommits(BatchBegun(h), n);
  }

  /** Repeated requests outside a batch arm one timer; the timer commits once. */
  lemma {:induction false} DebounceCollapses(h: History, n: nat)
    requires !h.lock && h.batching == 0 && n > 0
    ensures ScheduledTimes(h, n) == h.(timerPending := true)
  {
    if n > 1 {
      DebounceCollapses(h, n - 1);
    }
  }

  /** A batch in which no commit was requested changes nothing. */
  lemma {:induction false} EmptyBatchChangesNothing(h: History, snap: Snapshot)
    requires HistoryValid(h)
    ensures BatchEnded(BatchBegun(h), snap) == h
  {
  }

  /** Requesting a commit twice is the same as requesting it once. */
  lemma {:induction false} ScheduledIdempotent(h: History)
    ensures Scheduled(Scheduled(h)) == Scheduled(h)
  {
  }

  /**
   * A batch in which `n > 0` commits were requested: the outermost batch pushes the final
   * state once; a nested one only leaves the enclosing batch flagged.
   */
  lemma {:induction false} BatchOutcome(h: History, n: nat, snap: Snapshot)
    requires n > 0 && !h.lock && HistoryValid(h)
    ensures BatchEnded(ScheduledTimes(BatchBegun(h), n), snap) ==
              if h.batching == 0 then Pushed(h, snap) else h.(batchDirty := true)
  {
    BatchDefersCommits(BatchBegun(h), n);
  }
}
