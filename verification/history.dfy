/** The undo/redo snapshot history: a `past` stack whose last element is the
    snapshot currently shown, and a `future` stack of undone snapshots whose
    last element is the next one to redo. The same structure is used with
    `ImageData` snapshots and no cap (src/hooks/useHistory.ts) and with
    data-URL string snapshots capped at 100 entries (src/DrawEraseBoard.tsx).

    Both sources test a popped snapshot for JavaScript truthiness before
    using it (`if (current)`, `if (!next)`). An `ImageData` object is always
    truthy, a data-URL string is truthy exactly when it is non-empty, so the
    operations take that test as the parameter `truthy`. */
module History {
  import opened Basics

  datatype History<S> = History(past: seq<S>, future: seq<S>)

  /** What reading the canvas back produced: no canvas (or no context) to
      read, a thrown exception, or a snapshot. */
  datatype Capture<S> = NoSurface | Threw | Captured(snapshot: S)

  /** The history after an undo or redo, and the snapshot it asked the canvas
      to repaint from, if any. */
  datatype Step<S> = Step(after: History<S>, restored: Option<S>)

  /** The cap of src/DrawEraseBoard.tsx; src/hooks/useHistory.ts has none. */
  const BoardCap: Option<nat> := Some(100)
  const NoCap: Option<nat> := None

  function Empty<S>(): History<S> { History([], []) }

  function Last<S>(s: seq<S>): S
    requires |s| > 0
  {
    s[|s| - 1]
  }

  /** A cap of zero would evict the snapshot just pushed; both sources use a
      cap of 100 or none. */
  predicate ValidCap(cap: Option<nat>) { cap.None? || cap.value >= 1 }

  predicate WithinCap<S>(h: History<S>, cap: Option<nat>) {
    cap.None? || |h.past| <= cap.value
  }

  /** Every snapshot on either stack passes the truthiness test. */
  predicate AllTruthy<S>(h: History<S>, truthy: S -> bool) {
    && (forall i | 0 <= i < |h.past| :: truthy(h.past[i]))
    && (forall i | 0 <= i < |h.future| :: truthy(h.future[i]))
  }

  /** Number of snapshots held on both stacks. */
  function Total<S>(h: History<S>): nat { |h.past| + |h.future| }

  /** `saveSnapshot`: push the captured snapshot, evict the oldest entry when
      the cap is exceeded, and forget every undone snapshot. A missing canvas
      or a capture that throws leaves both stacks as they were. */
  function Save<S>(h: History<S>, cap: Option<nat>, c: Capture<S>): (r: History<S>)
    requires ValidCap(cap)
    ensures !c.Captured? ==> r == h
    ensures c.Captured? ==> r.future == [] && |r.past| > 0 && Last(r.past) == c.snapshot
    ensures c.Captured? ==>
              (r.past == h.past + [c.snapshot] <==> cap.None? || |h.past| < cap.value)
    ensures c.Captured? && cap.Some? && |h.past| >= cap.value ==>
              |h.past| > 0 && r.past == h.past[1..] + [c.snapshot]
    ensures c.Captured? && WithinCap(h, cap) ==> WithinCap(r, cap)
  {
    match c
    case Captured(s) =>
      var pushed := h.past + [s];
      var kept := if cap.Some? && |pushed| > cap.value then pushed[1..] else pushed;
      History(kept, [])
    case _ => h
  }

  /** `undo`: refuse with fewer than two entries; otherwise move the top of
      `past` onto `future` and repaint from the new top of `past`. */
  function Undo<S>(h: History<S>, truthy: S -> bool): (r: Step<S>)
    ensures |h.past| < 2 ==> r == Step(h, None)
    ensures |h.past| >= 2 ==> r.after.past == h.past[..|h.past| - 1]
    ensures |h.past| >= 2 && truthy(Last(h.past)) ==>
              r.after.future == h.future + [Last(h.past)]
    ensures |h.past| >= 2 && !truthy(Last(h.past)) ==> r.after.future == h.future
    ensures r.restored.Some? ==>
              |r.after.past| > 0 && r.restored.value == Last(r.after.past)
    ensures |h.past| >= 2 ==> (r.restored.Some? <==> truthy(Last(r.after.past)))
    ensures |h.past| >= 1 ==> |r.after.past| >= 1
  {
    if |h.past| < 2 then Step(h, None)
    else
      var current := Last(h.past);
      var past := h.past[..|h.past| - 1];
      var future := if truthy(current) then h.future + [current] else h.future;
      var prev := Last(past);
      Step(History(past, future), if truthy(prev) then Some(prev) else None)
  }

  /** `redo`: refuse on an empty `future`; otherwise pop its top and, when it
      passes the truthiness test, push it onto `past` and repaint from it. */
  function Redo<S>(h: History<S>, truthy: S -> bool): (r: Step<S>)
    ensures |h.future| == 0 ==> r == Step(h, None)
    ensures |h.future| > 0 ==> r.after.future == h.future[..|h.future| - 1]
    ensures |h.future| > 0 && truthy(Last(h.future)) ==>
              r.after.past == h.past + [Last(h.future)] && r.restored == Some(Last(h.future))
    ensures |h.future| > 0 && !truthy(Last(h.future)) ==>
              r.after.past == h.past && r.restored == None
  {
    if |h.future| == 0 then Step(h, None)
    else
      var next := Last(h.future);
      var future := h.future[..|h.future| - 1];
      if truthy(next) then Step(History(h.past + [next], future), Some(next))
      else Step(History(h.past, future), None)
  }

  /** Undo `n` times in a row. */
  function UndoN<S>(h: History<S>, truthy: S -> bool, n: nat): History<S>
    decreases n
  {
    if n == 0 then h else UndoN(Undo(h, truthy).after, truthy, n - 1)
  }

  /** Redo `n` times in a row. */
  function RedoN<S>(h: History<S>, truthy: S -> bool, n: nat): History<S>
  {
    if n == 0 then h else Redo(RedoN(h, truthy, n - 1), truthy).after
  }

  // ---------------------------------------------------------------------
  // Laws

  /** An undo that acts is reversed by the next redo, which repaints the
      snapshot the undo took off. */
  lemma UndoThenRedo<S>(h: History<S>, truthy: S -> bool)
    requires |h.past| >= 2 && truthy(Last(h.past))
    ensures Redo(Undo(h, truthy).after, truthy).after == h
    ensures Redo(Undo(h, truthy).after, truthy).restored == Some(Last(h.past))
  {
  }

  /** A redo that acts is reversed by the next undo, which repaints the
      snapshot that was current before the redo. */
  lemma RedoThenUndo<S>(h: History<S>, truthy: S -> bool)
    requires |h.past| >= 1 && |h.future| >= 1 && truthy(Last(h.future))
    ensures Undo(Redo(h, truthy).after, truthy).after == h
    ensures truthy(Last(h.past)) ==>
              Undo(Redo(h, truthy).after, truthy).restored == Some(Last(h.past))
  {
  }

  /** Undo and redo move snapshots between the stacks without creating or
      losing any, as long as the moved snapshot passes the truthiness test. */
  lemma UndoRedoKeepTotal<S>(h: History<S>, truthy: S -> bool)
    requires AllTruthy(h, truthy)
    ensures Total(Undo(h, truthy).after) == Total(h)
    ensures Total(Redo(h, truthy).after) == Total(h)
  {
  }

  /** A redo whose snapshot fails the truthiness test drops it from both
      stacks: the source pops before it tests. */
  lemma FalsyRedoLosesSnapshot<S>(h: History<S>, truthy: S -> bool)
    requires |h.future| > 0 && !truthy(Last(h.future))
    ensures Total(Redo(h, truthy).after) == Total(h) - 1
    ensures Redo(h, truthy).restored == None
  {
  }

  /** A save after any number of undos leaves nothing to redo. */
  lemma SaveDisablesRedo<S>(h: History<S>, cap: Option<nat>, s: S, truthy: S -> bool)
    requires ValidCap(cap)
    ensures Redo(Save(h, cap, Captured(s)), truthy) == Step(Save(h, cap, Captured(s)), None)
  {
  }

  /** Undo, redo and saving truthy snapshots keep every stored snapshot truthy. */
  lemma TruthyPreserved<S>(h: History<S>, truthy: S -> bool, cap: Option<nat>, c: Capture<S>)
    requires AllTruthy(h, truthy) && ValidCap(cap)
    requires c.Captured? ==> truthy(c.snapshot)
    ensures AllTruthy(Undo(h, truthy).after, truthy)
    ensures AllTruthy(Redo(h, truthy).after, truthy)
    ensures AllTruthy(Save(h, cap, c), truthy)
  {
  }

  lemma TopIsTruthy<S>(h: History<S>, truthy: S -> bool)
    requires AllTruthy(h, truthy) && |h.past| > 0
    ensures truthy(Last(h.past))
  {
  }

  /** An undo keeps every stored snapshot truthy. */
  lemma UndoKeepsTruthy<S>(h: History<S>, truthy: S -> bool)
    requires AllTruthy(h, truthy)
    ensures AllTruthy(Undo(h, truthy).after, truthy)
  {
    TruthyPreserved(h, truthy, NoCap, NoSurface);
  }

  /** Undoing `n` steps and then redoing `n` steps returns to the starting
      history, provided the undos all acted. */
  lemma {:induction false} UndoNThenRedoN<S>(h: History<S>, truthy: S -> bool, n: nat)
    requires n < |h.past| && AllTruthy(h, truthy)
    ensures RedoN(UndoN(h, truthy, n), truthy, n) == h
    decreases n
  {
    if n > 0 {
      var h1 := Undo(h, truthy).after;
      var x := UndoN(h1, truthy, n - 1);
      assert UndoN(h, truthy, n) == x;
      UndoKeepsTruthy(h, truthy);
      UndoNThenRedoN(h1, truthy, n - 1);
      RedoNUnfold(x, truthy, n);
      assert RedoN(x, truthy, n) == Redo(h1, truthy).after;
      TopIsTruthy(h, truthy);
      UndoThenRedo(h, truthy);
    }
  }

  /** `RedoN` peels its last redo off the end. */
  lemma RedoNUnfold<S>(h: History<S>, truthy: S -> bool, n: nat)
    requires n > 0
    ensures RedoN(h, truthy, n) == Redo(RedoN(h, truthy, n - 1), truthy).after
  {
  }

  /** However many undos are requested, at least one snapshot stays on `past`. */
  lemma {:induction false} UndoNKeepsFloor<S>(h: History<S>, truthy: S -> bool, n: nat)
    requires |h.past| >= 1
    ensures |UndoN(h, truthy, n).past| >= 1
    decreases n
  {
    if n > 0 {
      UndoNKeepsFloor(Undo(h, truthy).after, truthy, n - 1);
    }
  }

  /** The `past` left by `n` undos, computed on `past` alone. */
  function PastAfterUndos<S>(p: seq<S>, n: nat): seq<S>
    decreases n
  {
    if n == 0 || |p| < 2 then p else PastAfterUndos(p[..|p| - 1], n - 1)
  }

  /** What undos do to `past` does not depend on `future` or truthiness. */
  lemma {:induction false} UndoNPast<S>(h: History<S>, truthy: S -> bool, n: nat)
    ensures UndoN(h, truthy, n).past == PastAfterUndos(h.past, n)
    decreases n
  {
    if n > 0 {
      UndoNPast(Undo(h, truthy).after, truthy, n - 1);
    }
  }

  lemma {:induction false} PastAfterUndosDrops<S>(p: seq<S>, n: nat)
    requires n < |p|
    ensures PastAfterUndos(p, n) == p[..|p| - n]
    decreases n
  {
    if n > 0 {
      PastAfterUndosDrops(p[..|p| - 1], n - 1);
      DropOneThenMore(p, p[..|p| - 1], PastAfterUndos(p[..|p| - 1], n - 1), n - 1);
    }
  }

  /** Undos that all act take exactly that many snapshots off the top of `past`. */
  lemma UndoNDropsTop<S>(h: History<S>, truthy: S -> bool, n: nat)
    requires n < |h.past|
    ensures UndoN(h, truthy, n).past == h.past[..|h.past| - n]
  {
    UndoNPast(h, truthy, n);
    PastAfterUndosDrops(h.past, n);
  }

  /** Dropping one entry and then `k` more drops `k + 1`. */
  lemma DropOneThenMore<S>(a: seq<S>, b: seq<S>, c: seq<S>, k: nat)
    requires 0 < |a| && b == a[..|a| - 1] && k < |b| && c == b[..|b| - k]
    ensures c == a[..|a| - (k + 1)]
  {
  }
}
