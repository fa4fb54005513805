/** The stroke session of src/hooks/useDrawing.ts: a `drawing` flag that a
    pointer-down raises and a pointer-up, -cancel or -leave lowers, the start
    of the canvas's current path, and the animation-frame throttle on
    pointer-moves, modelled as an explicit pending-sample register driven by
    `Move` and `FrameFires` events.

    Whether the canvas has a 2D context is the parameter `hasCtx`; it is
    fixed for a run. */
module Drawing {
  import opened Basics
  import opened StrokeStyle

  /** The tool, colour and size a binding of the hook closes over. */
  datatype Brush = Brush(tool: Tool, color: string, size: real)

  /** One `stroke()` call: a straight line between two points. */
  datatype Segment = Segment(from: Point, to: Point, style: Style)

  /** `drawingRef` and the start point of the canvas's current path (`None`
      while no path has been started). */
  datatype Session = Session(drawing: bool, anchor: Option<Point>)

  const Idle: Session := Session(false, None)

  datatype Moved = Moved(session: Session, segment: Option<Segment>)

  datatype Ended = Ended(session: Session, snapshot: bool)

  /** `startStroke`: raise the flag, even without a context; with one, start
      a new path at the pointer. The style it applies is not visible until
      something is stroked. */
  function StartStroke(s: Session, hasCtx: bool, p: Sample): (r: Session)
    ensures r.drawing
    ensures r.anchor == if hasCtx then Some(p.at) else s.anchor
  {
    if hasCtx then Session(true, Some(p.at)) else s.(drawing := true)
  }

  /** `moveStroke`: while drawing and with a context, stroke one segment from
      the path's start to the pointer and restart the path there. With an
      empty path, `lineTo` only starts the path and nothing is drawn. */
  function MoveStroke(s: Session, hasCtx: bool, b: Brush, p: Sample): (r: Moved)
    ensures !s.drawing || !hasCtx ==> r == Moved(s, None)
    ensures s.drawing && hasCtx ==> r.session == Session(true, Some(p.at))
    ensures r.segment.Some? <==> s.drawing && hasCtx && s.anchor.Some?
    ensures r.segment.Some? ==>
              r.segment.value.from == s.anchor.value && r.segment.value.to == p.at
              && r.segment.value.style == StyleFor(b.tool, b.color, b.size, p.pressure)
  {
    if !s.drawing || !hasCtx then Moved(s, None)
    else
      var seg := match s.anchor
        case Some(a) => Some(Segment(a, p.at, StyleFor(b.tool, b.color, b.size, p.pressure)))
        case None => None;
      Moved(Session(true, Some(p.at)), seg)
  }

  /** `endStroke`: only while drawing, lower the flag and ask for exactly
      one snapshot. */
  function EndStroke(s: Session): (r: Ended)
    ensures !r.session.drawing
    ensures r.snapshot <==> s.drawing
    ensures r.session.anchor == s.anchor
    ensures !s.drawing ==> r.session == s
  {
    if !s.drawing then Ended(s, false) else Ended(s.(drawing := false), true)
  }

  /** A second `endStroke` adds no snapshot. */
  lemma EndStrokeOnce(s: Session)
    ensures !EndStroke(EndStroke(s).session).snapshot
    ensures EndStroke(EndStroke(s).session) == Ended(EndStroke(s).session, false)
  {
  }

  // ---------------------------------------------------------------------
  // The throttled pointer binding

  /** A scheduled animation frame and the sample it will draw, with the
      number of the stroke during which it was scheduled. */
  datatype Pending = Pending(sample: Sample, stroke: nat)

  /** The state of one binding of the pointer listeners: the session, the
      pending frame (`rafId` together with the sample its callback closes
      over), the brush the listeners close over, and how many strokes have
      been started. */
  datatype Throttle = Throttle(session: Session, pending: Option<Pending>, brush: Brush, strokes: nat)

  /** Pointer input and frame callbacks. `Up` stands for pointerup,
      pointercancel and pointerleave, which share one listener. `Rebind` is
      the effect re-running because the brush changed: its cleanup cancels
      the pending frame and the new listeners close over the new brush. */
  datatype Event = Down(sample: Sample) | Move(sample: Sample) | FrameFires | Up | Rebind(brush: Brush)

  datatype Output = Output(segment: Option<Segment>, snapshot: bool)

  datatype Transition = Transition(next: Throttle, out: Output)

  const Quiet: Output := Output(None, false)

  function Initial(b: Brush): Throttle { Throttle(Idle, None, b, 0) }

  /** One event as the source handles it. */
  function Step(t: Throttle, hasCtx: bool, e: Event): (r: Transition)
    ensures e.Move? && (!t.session.drawing || t.pending.Some?) ==> r == Transition(t, Quiet)
    ensures e.Move? && t.session.drawing && t.pending.None? ==>
              r == Transition(t.(pending := Some(Pending(e.sample, t.strokes))), Quiet)
    ensures e.FrameFires? && t.pending.None? ==> r == Transition(t, Quiet)
    ensures e.FrameFires? && t.pending.Some? ==>
              && r.next.pending.None?
              && r.next.session == MoveStroke(t.session, hasCtx, t.brush, t.pending.value.sample).session
              && r.out == Output(MoveStroke(t.session, hasCtx, t.brush, t.pending.value.sample).segment, false)
    ensures e.FrameFires? ==> r.next.brush == t.brush && r.next.strokes == t.strokes
    ensures e.FrameFires? && t.pending.Some? && !t.session.drawing ==> r.out == Quiet
    ensures e.Up? ==> r.next == t.(session := EndStroke(t.session).session)
                      && r.out == Output(None, t.session.drawing)
    ensures e.Down? ==> r.next.session.drawing && r.next.pending == t.pending
                        && r.next.strokes == t.strokes + 1 && r.out == Quiet
    ensures e.Down? ==>
              r.next == t.(session := StartStroke(t.session, hasCtx, e.sample), strokes := t.strokes + 1)
    ensures e.Rebind? ==> r.next == t.(pending := None, brush := e.brush) && r.out == Quiet
    ensures r.out.segment.Some? ==> e.FrameFires? && t.pending.Some?
  {
    match e
    case Down(p) =>
      Transition(t.(session := StartStroke(t.session, hasCtx, p), strokes := t.strokes + 1), Quiet)
    case Move(p) =>
      if !t.session.drawing || t.pending.Some? then Transition(t, Quiet)
      else Transition(t.(pending := Some(Pending(p, t.strokes))), Quiet)
    case FrameFires =>
      if t.pending.None? then Transition(t, Quiet)
      else
        var m := MoveStroke(t.session, hasCtx, t.brush, t.pending.value.sample);
        Transition(t.(session := m.session, pending := None), Output(m.segment, false))
    case Up =>
      var en := EndStroke(t.session);
      Transition(t.(session := en.session), Output(None, en.snapshot))
    case Rebind(b) =>
      Transition(t.(pending := None, brush := b), Quiet)
  }

  /** A pending frame, if any, was scheduled during the stroke in progress. */
  predicate PendingIsCurrent(t: Throttle) {
    t.pending.Some? ==> t.session.drawing && t.pending.value.stroke == t.strokes
  }

  /** The step with the defect removed: a stroke starting or ending cancels
      the pending frame, as the effect's cleanup already does on `Rebind`.
      Every other event is handled as the source handles it. */
  function StepCancelling(t: Throttle, hasCtx: bool, e: Event): (r: Transition)
    ensures !(e.Up? || e.Down?) ==> r == Step(t, hasCtx, e)
    ensures (e.Up? || e.Down?) ==> r.next.pending.None?
    ensures r.out == Step(t, hasCtx, e).out
    ensures r.next == Step(t, hasCtx, e).next.(pending := r.next.pending)
    ensures PendingIsCurrent(t) ==> PendingIsCurrent(r.next)
    ensures PendingIsCurrent(t) && r.out.segment.Some? ==>
              t.pending.Some? && t.pending.value.stroke == t.strokes
  {
    var r := Step(t, hasCtx, e);
    if e.Up? || e.Down? then Transition(r.next.(pending := None), r.out) else r
  }

  /** The drawing the events of a run produced. */
  datatype Trace = Trace(final: Throttle, segments: seq<Segment>, snapshots: nat)

  function SegmentsOf(o: Output): seq<Segment> {
    if o.segment.Some? then [o.segment.value] else []
  }

  /** The drawing a sequence of events produces as the source handles it. */
  function Run(t: Throttle, hasCtx: bool, events: seq<Event>): Trace
    decreases |events|
  {
    if |events| == 0 then Trace(t, [], 0)
    else
      var r := Step(t, hasCtx, events[0]);
      var rest := Run(r.next, hasCtx, events[1..]);
      Trace(rest.final, SegmentsOf(r.out) + rest.segments,
            (if r.out.snapshot then 1 else 0) + rest.snapshots)
  }

  function CountFrames(events: seq<Event>): (n: nat)
    ensures n <= |events|
    decreases |events|
  {
    if |events| == 0 then 0 else (if events[0].FrameFires? then 1 else 0) + CountFrames(events[1..])
  }

  /** The same run with a pending frame cancelled whenever a stroke starts or
      ends (see `StaleFrameJoinsStrokes` for what the source does instead):
      if every pending frame belongs to the stroke in progress at the start,
      that stays so, so no frame draws into a stroke other than its own. */
  function RunCancelling(t: Throttle, hasCtx: bool, events: seq<Event>): (tr: Trace)
    ensures PendingIsCurrent(t) ==> PendingIsCurrent(tr.final)
    decreases |events|
  {
    if |events| == 0 then Trace(t, [], 0)
    else
      var r := StepCancelling(t, hasCtx, events[0]);
      var rest := RunCancelling(r.next, hasCtx, events[1..]);
      Trace(rest.final, SegmentsOf(r.out) + rest.segments,
            (if r.out.snapshot then 1 else 0) + rest.snapshots)
  }

  predicate NoDown(events: seq<Event>) {
    forall i | 0 <= i < |events| :: !events[i].Down?
  }

  function CountDowns(events: seq<Event>): nat
    decreases |events|
  {
    if |events| == 0 then 0 else (if events[0].Down? then 1 else 0) + CountDowns(events[1..])
  }

  /** Each segment starts where the previous one ended. */
  predicate Chained(segments: seq<Segment>) {
    forall i | 0 < i < |segments| :: segments[i].from == segments[i - 1].to
  }

  // ---------------------------------------------------------------------
  // Laws about runs

  /** Only a frame draws, at most one segment each, and every other event
      takes at most one snapshot. */
  lemma {:induction false} RunBounds(t: Throttle, hasCtx: bool, events: seq<Event>)
    ensures |Run(t, hasCtx, events).segments| <= CountFrames(events)
    ensures Run(t, hasCtx, events).snapshots <= |events| - CountFrames(events)
    decreases |events|
  {
    if |events| > 0 {
      RunBounds(Step(t, hasCtx, events[0]).next, hasCtx, events[1..]);
    }
  }

  /** Running two event sequences one after the other is running their
      concatenation. */
  lemma {:induction false} RunConcat(t: Throttle, hasCtx: bool, xs: seq<Event>, ys: seq<Event>)
    ensures var a := Run(t, hasCtx, xs);
            var b := Run(a.final, hasCtx, ys);
            Run(t, hasCtx, xs + ys) == Trace(b.final, a.segments + b.segments, a.snapshots + b.snapshots)
    decreases |xs|
  {
    if |xs| == 0 {
      assert xs + ys == ys;
    } else {
      var r := Step(t, hasCtx, xs[0]);
      assert (xs + ys)[0] == xs[0];
      assert (xs + ys)[1..] == xs[1..] + ys;
      RunConcat(r.next, hasCtx, xs[1..], ys);
      var a := Run(r.next, hasCtx, xs[1..]);
      var b := Run(a.final, hasCtx, ys);
      assert SegmentsOf(r.out) + (a.segments + b.segments)
          == (SegmentsOf(r.out) + a.segments) + b.segments;
    }
  }

  /** The tail of a run that starts no stroke starts none either. */
  lemma NoDownTail(events: seq<Event>)
    requires |events| > 0 && NoDown(events)
    ensures !events[0].Down? && NoDown(events[1..])
  {
    forall i | 0 <= i < |events[1..]| ensures !events[1..][i].Down? {
      assert events[1..][i] == events[i + 1];
    }
  }

  /** Outside a pointer-down, the path moves only to the end of a drawn
      segment, or from having no start point to having one. */
  lemma StepMovesAnchor(t: Throttle, hasCtx: bool, e: Event)
    requires !e.Down?
    ensures var r := Step(t, hasCtx, e);
            && (r.out.segment.Some? ==>
                  && r.next.session.anchor == Some(r.out.segment.value.to)
                  && t.session.anchor == Some(r.out.segment.value.from))
            && (r.out.segment.None? && t.session.anchor.Some? ==>
                  r.next.session.anchor == t.session.anchor)
  {
  }

  /** Putting a segment in front of a chain that starts at its end keeps it
      a chain. */
  lemma ChainedCons(seg: Segment, rest: seq<Segment>)
    requires Chained(rest) && (|rest| > 0 ==> rest[0].from == seg.to)
    ensures Chained([seg] + rest)
  {
    var segs := [seg] + rest;
    forall i | 0 < i < |segs| ensures segs[i].from == segs[i - 1].to {
      if i > 1 {
        assert segs[i] == rest[i - 1] && segs[i - 1] == rest[i - 2];
      }
    }
  }

  /** The chaining facts for one step's output put in front of the rest of
      a run: `a0` is the path start before the step, `a1` after it, and
      `fin` at the end of the run. */
  lemma ChainPrepend(out: Output, rest: seq<Segment>, a0: Option<Point>, a1: Option<Point>, fin: Option<Point>)
    requires Chained(rest)
    requires out.segment.Some? ==> a1 == Some(out.segment.value.to) && a0 == Some(out.segment.value.from)
    requires out.segment.None? && a0.Some? ==> a1 == a0
    requires |rest| > 0 && a1.Some? ==> rest[0].from == a1.value
    requires |rest| > 0 ==> fin == Some(rest[|rest| - 1].to)
    requires |rest| == 0 && a1.Some? ==> fin == a1
    ensures var segs := SegmentsOf(out) + rest;
            && Chained(segs)
            && (|segs| > 0 && a0.Some? ==> segs[0].from == a0.value)
            && (|segs| > 0 ==> fin == Some(segs[|segs| - 1].to))
            && (|segs| == 0 && a0.Some? ==> fin == a0)
  {
    if out.segment.Some? {
      ChainedCons(out.segment.value, rest);
    } else {
      assert SegmentsOf(out) + rest == rest;
    }
  }

  /** With no new stroke started, the segments drawn form one connected
      polyline: each starts where the previous one ended, the first starts at
      the path's start point, and the path ends up at the last one's end. */
  lemma {:induction false} SegmentsChain(t: Throttle, hasCtx: bool, events: seq<Event>)
    requires NoDown(events)
    ensures var tr := Run(t, hasCtx, events);
            && Chained(tr.segments)
            && (|tr.segments| > 0 && t.session.anchor.Some? ==> tr.segments[0].from == t.session.anchor.value)
            && (|tr.segments| > 0 ==> tr.final.session.anchor == Some(tr.segments[|tr.segments| - 1].to))
            && (|tr.segments| == 0 && t.session.anchor.Some? ==> tr.final.session.anchor == t.session.anchor)
    decreases |events|
  {
    if |events| > 0 {
      NoDownTail(events);
      var r := Step(t, hasCtx, events[0]);
      StepMovesAnchor(t, hasCtx, events[0]);
      SegmentsChain(r.next, hasCtx, events[1..]);
      var rest := Run(r.next, hasCtx, events[1..]);
      assert Run(t, hasCtx, events) == Trace(rest.final, SegmentsOf(r.out) + rest.segments,
                                               (if r.out.snapshot then 1 else 0) + rest.snapshots);
      ChainPrepend(r.out, rest.segments, t.session.anchor, r.next.session.anchor, rest.final.session.anchor);
    }
  }

  /** Events that start no stroke take no snapshot when no stroke is active,
      and leave none active. */
  lemma {:induction false} IdleRunSavesNothing(t: Throttle, hasCtx: bool, events: seq<Event>)
    requires !t.session.drawing && NoDown(events)
    ensures Run(t, hasCtx, events).snapshots == 0
    ensures !Run(t, hasCtx, events).final.session.drawing
    ensures Run(t, hasCtx, events).segments == []
    decreases |events|
  {
    if |events| > 0 {
      NoDownTail(events);
      IdleRunSavesNothing(Step(t, hasCtx, events[0]).next, hasCtx, events[1..]);
    }
  }

  /** A started stroke that ends takes exactly one snapshot, however many
      moves, frames, rebinds and further ends follow, as long as no new
      stroke starts. */
  lemma {:induction false} StrokeSavesOnce(t: Throttle, hasCtx: bool, events: seq<Event>)
    requires t.session.drawing && NoDown(events)
    requires exists i :: 0 <= i < |events| && events[i].Up?
    ensures Run(t, hasCtx, events).snapshots == 1
    decreases |events|
  {
    var r := Step(t, hasCtx, events[0]);
    NoDownTail(events);
    if events[0].Up? {
      IdleRunSavesNothing(r.next, hasCtx, events[1..]);
    } else {
      var i :| 0 <= i < |events| && events[i].Up?;
      assert events[1..][i - 1].Up?;
      StrokeSavesOnce(r.next, hasCtx, events[1..]);
    }
  }

  /** No run takes more snapshots than it starts strokes, plus one for a
      stroke already in progress. */
  lemma {:induction false} SnapshotsBoundedByStrokes(t: Throttle, hasCtx: bool, events: seq<Event>)
    ensures Run(t, hasCtx, events).snapshots
              <= CountDowns(events) + (if t.session.drawing then 1 else 0)
    decreases |events|
  {
    if |events| > 0 {
      SnapshotsBoundedByStrokes(Step(t, hasCtx, events[0]).next, hasCtx, events[1..]);
    }
  }

  /** Moves that arrive while a frame is pending are dropped. */
  lemma {:induction false} MovesWhilePendingDropped(t: Throttle, hasCtx: bool, samples: seq<Sample>)
    requires t.pending.Some?
    ensures Run(t, hasCtx, Moves(samples)) == Trace(t, [], 0)
    decreases |samples|
  {
    if |samples| > 0 {
      assert Moves(samples)[1..] == Moves(samples[1..]);
      MovesWhilePendingDropped(t, hasCtx, samples[1..]);
    }
  }

  function Moves(samples: seq<Sample>): (es: seq<Event>)
    ensures |es| == |samples|
    ensures forall i | 0 <= i < |samples| :: es[i] == Move(samples[i])
  {
    seq(|samples|, i requires 0 <= i < |samples| => Move(samples[i]))
  }

  /** A burst of moves within one frame draws a single segment, from the
      path's start to the FIRST sample of the burst: the sample that
      scheduled the frame. */
  lemma BurstDrawsFirstSample(t: Throttle, hasCtx: bool, samples: seq<Sample>)
    requires t.session.drawing && t.pending.None? && hasCtx && t.session.anchor.Some?
    requires |samples| > 0
    ensures var tr := Run(t, hasCtx, Moves(samples) + [FrameFires]);
            && tr.segments == [Segment(t.session.anchor.value, samples[0].at,
                                       StyleFor(t.brush.tool, t.brush.color, t.brush.size, samples[0].pressure))]
            && tr.final.pending.None?
            && tr.final.session.anchor == Some(samples[0].at)
  {
    var t1 := Step(t, hasCtx, Move(samples[0])).next;
    assert Moves(samples) == [Move(samples[0])] + Moves(samples[1..]);
    MovesWhilePendingDropped(t1, hasCtx, samples[1..]);
    RunConcat(t, hasCtx, [Move(samples[0])], Moves(samples[1..]));
    assert Run(t1, hasCtx, []) == Trace(t1, [], 0);
    RunConcat(t, hasCtx, Moves(samples), [FrameFires]);
    var t2 := Step(t1, hasCtx, FrameFires);
    assert Run(t2.next, hasCtx, []) == Trace(t2.next, [], 0);
  }

  /** A frame that fires after the stroke ended draws nothing, because the
      move it runs sees the flag lowered. */
  lemma EndThenFrameDrawsNothing(t: Throttle, hasCtx: bool)
    ensures var t1 := Step(t, hasCtx, Up).next;
            Step(t1, hasCtx, FrameFires).out == Quiet
  {
  }

  // ---------------------------------------------------------------------
  // A frame scheduled in one stroke can draw in the next

  /** As written, nothing cancels the pending frame when a stroke ends. If
      the pointer goes up and down again before the frame fires, the frame
      draws a segment from the new stroke's start point to the last sample
      of the previous stroke, joining two separate strokes. */
  lemma StaleFrameJoinsStrokes(b: Brush, first: Sample, last: Sample, next: Sample)
    ensures var t1 := Step(Initial(b), true, Down(first)).next;
            var t2 := Step(t1, true, Move(last)).next;
            var t3 := Step(t2, true, Up).next;
            var t4 := Step(t3, true, Down(next)).next;
            && !PendingIsCurrent(t4)
            && Step(t4, true, FrameFires).out.segment
                 == Some(Segment(next.at, last.at, StyleFor(b.tool, b.color, b.size, last.pressure)))
  {
  }

  /** With cancellation the sequence above draws nothing. */
  lemma CancellingKeepsStrokesApart(b: Brush, first: Sample, last: Sample, next: Sample)
    ensures var t1 := StepCancelling(Initial(b), true, Down(first)).next;
            var t2 := StepCancelling(t1, true, Move(last)).next;
            var t3 := StepCancelling(t2, true, Up).next;
            var t4 := StepCancelling(t3, true, Down(next)).next;
            StepCancelling(t4, true, FrameFires).out == Quiet
  {
  }
}
