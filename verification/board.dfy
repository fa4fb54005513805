/** The self-contained board component of src/DrawEraseBoard.tsx: its own
    tool, colour and size state, a history of data-URL snapshots capped at
    100 entries, the stroke handlers, clear, and the keyboard shortcuts.

    Reading the canvas back (`toDataURL`) is an input: every event that may
    save a snapshot carries the capture it would produce. Pixels are not
    modelled; a restore is recorded as the snapshot it repaints from. */
module Board {
  import opened Basics
  import opened StrokeStyle
  import H = History

  /** A data URL is falsy for `if (...)` exactly when it is empty. */
  predicate Truthy(url: string) { url != "" }

  /** One `stroke()` call on the board: this component never restarts the
      path during a stroke, so each call strokes the whole polyline so far. */
  datatype Draw = Draw(path: seq<Point>, style: Style)

  datatype Board = Board(
    canvas: bool,            // boardRef.current is set
    ctx: bool,               // ctxRef.current is set
    tool: Tool,
    color: string,
    size: real,
    history: H.History<string>,
    drawing: bool,           // drawingRef.current
    path: seq<Point>,        // the context's current path
    endListeners: nat,       // endStroke listeners registered per end event
    shown: Option<string>)   // the snapshot last repainted from

  function Initial(): (b: Board)
    ensures b.history == H.Empty() && !b.drawing && b.tool == Pen && b.size == 8.0
  {
    Board(false, false, Pen, "#22d3ee", 8.0, H.Empty(), false, [], 0, None)
  }

  datatype KeyPress = KeyPress(key: string, ctrl: bool, meta: bool, shift: bool)

  /** Toolbar buttons and the operations keyboard shortcuts reach. */
  datatype Command = UndoCmd | RedoCmd | DownloadCmd | ClearCmd | ChooseTool(tool: Tool)

  datatype Input =
    | Mount(boardCanvas: bool, gridCanvas: bool, ctxOk: bool, capture: H.Capture<string>)
    | PointerDown(sample: Sample)
    | PointerMove(sample: Sample)
    | PointerEnd(capture: H.Capture<string>)   // pointerup, pointercancel, pointerleave
    | Key(press: KeyPress, capture: H.Capture<string>)
    | Click(cmd: Command, capture: H.Capture<string>)
    | PickColor(color: string)
    | PickSize(size: real)

  datatype Reaction = Reaction(board: Board, drawn: Option<Draw>)

  /** `saveSnapshot`: nothing without a canvas, else the capped save. */
  function SaveSnapshot(b: Board, c: H.Capture<string>): (r: Board)
    ensures r == b.(history := r.history)
    ensures r.history == H.Save(b.history, H.BoardCap, if b.canvas then c else H.NoSurface)
  {
    b.(history := H.Save(b.history, H.BoardCap, if b.canvas then c else H.NoSurface))
  }

  /** `restoreFromDataURL`: repaints only with both a canvas and a context. */
  function Restore(b: Board, url: Option<string>): (r: Board)
    ensures r.history == b.history
    ensures r.shown == (if b.canvas && b.ctx && url.Some? then url else b.shown)
    ensures r == b.(shown := r.shown)
  {
    if b.canvas && b.ctx && url.Some? then b.(shown := url) else b
  }

  /** `handleUndo` over the capped string history. */
  function HandleUndo(b: Board): (r: Board)
    ensures r.history == H.Undo(b.history, Truthy).after
    ensures |b.history.past| < 2 ==> r == b
    ensures r == b.(history := r.history, shown := r.shown)
    ensures var st := H.Undo(b.history, Truthy);
            r.shown == if b.canvas && b.ctx && st.restored.Some? then st.restored else b.shown
  {
    var st := H.Undo(b.history, Truthy);
    Restore(b.(history := st.after), st.restored)
  }

  /** `handleRedo` over the capped string history. */
  function HandleRedo(b: Board): (r: Board)
    ensures r.history == H.Redo(b.history, Truthy).after
    ensures |b.history.future| == 0 ==> r == b
    ensures r == b.(history := r.history, shown := r.shown)
    ensures var st := H.Redo(b.history, Truthy);
            r.shown == if b.canvas && b.ctx && st.restored.Some? then st.restored else b.shown
  {
    var st := H.Redo(b.history, Truthy);
    Restore(b.(history := st.after), st.restored)
  }

  /** `handleClear`: without a canvas and a context nothing happens;
      otherwise the pixels are cleared and the blank canvas is saved, so a
      clear is one undoable step. */
  function HandleClear(b: Board, c: H.Capture<string>): (r: Board)
    ensures !(b.canvas && b.ctx) ==> r == b
    ensures b.canvas && b.ctx ==> r == SaveSnapshot(b, c)
  {
    if !(b.canvas && b.ctx) then b else SaveSnapshot(b, c)
  }

  /** Selecting a tool, colour or size re-runs the pointer effect when the
      value changes. Its cleanup removes the down and move listeners but not
      the end listeners, so one more end listener is registered each time. */
  function Rebound(b: Board, changed: bool): (r: Board)
    ensures r == b.(endListeners := r.endListeners)
    ensures r.endListeners == b.endListeners + (if changed && b.canvas then 1 else 0)
  {
    if changed && b.canvas then b.(endListeners := b.endListeners + 1) else b
  }

  /** A toolbar button or shortcut. Only undo, redo and clear touch the
      history; download changes nothing; choosing a tool sets it and, if it
      differs, registers one more end listener. */
  function Execute(b: Board, cmd: Command, c: H.Capture<string>): (r: Board)
    ensures !(cmd.UndoCmd? || cmd.RedoCmd? || cmd.ClearCmd?) ==> r.history == b.history
    ensures cmd.DownloadCmd? ==> r == b
    ensures cmd.ChooseTool? ==>
              && r == b.(tool := cmd.tool, endListeners := r.endListeners)
              && (r.endListeners == b.endListeners <==> cmd.tool == b.tool || !b.canvas)
    ensures !cmd.ChooseTool? ==> r.tool == b.tool && r.endListeners == b.endListeners
  {
    match cmd
    case UndoCmd => HandleUndo(b)
    case RedoCmd => HandleRedo(b)
    case DownloadCmd => b
    case ClearCmd => HandleClear(b, c)
    case ChooseTool(t) => Rebound(b.(tool := t), t != b.tool)
  }

  function ExecuteAll(b: Board, cmds: seq<Command>, c: H.Capture<string>): Board
    decreases |cmds|
  {
    if |cmds| == 0 then b else ExecuteAll(Execute(b, cmds[0], c), cmds[1..], c)
  }

  // ---------------------------------------------------------------------
  // Strokes

  /** `startStroke`: raise the flag; with a context start a new path. */
  function StartStroke(b: Board, p: Sample): (r: Board)
    ensures r.drawing
    ensures r.path == if b.ctx then [p.at] else b.path
    ensures r == b.(drawing := true, path := r.path)
  {
    if b.ctx then b.(drawing := true, path := [p.at]) else b.(drawing := true)
  }

  /** `moveStroke`: while drawing and with a context, extend the path to the
      pointer and stroke all of it in the style of this sample. */
  function MoveStroke(b: Board, p: Sample): (r: Reaction)
    ensures !b.drawing || !b.ctx ==> r == Reaction(b, None)
    ensures b.drawing && b.ctx ==>
              && r.board == b.(path := b.path + [p.at])
              && r.drawn == Some(Draw(r.board.path, StyleFor(b.tool, b.color, b.size, p.pressure)))
  {
    if !b.drawing || !b.ctx then Reaction(b, None)
    else
      var path := b.path + [p.at];
      Reaction(b.(path := path), Some(Draw(path, StyleFor(b.tool, b.color, b.size, p.pressure))))
  }

  /** `endStroke`: only while drawing, lower the flag and save one snapshot. */
  function EndStroke(b: Board, c: H.Capture<string>): (r: Board)
    ensures !r.drawing
    ensures !b.drawing ==> r == b
    ensures b.drawing ==> r == SaveSnapshot(b.(drawing := false), c)
  {
    if !b.drawing then b else SaveSnapshot(b.(drawing := false), c)
  }

  /** Every registered end listener runs `endStroke` in turn. However many
      have piled up, the first lowers the flag and saves, and the rest see
      the flag lowered: one pointer-end saves one snapshot. */
  function EndAll(b: Board, c: H.Capture<string>, k: nat): (r: Board)
    ensures k >= 1 ==> r == EndStroke(b, c)
    ensures k == 0 ==> r == b
    decreases k
  {
    if k == 0 then b else EndAll(EndStroke(b, c), c, k - 1)
  }

  // ---------------------------------------------------------------------
  // Keyboard

  function LowerChar(ch: char): char {
    if 'A' <= ch <= 'Z' then (ch as int + 32) as char else ch
  }

  /** `key.toLowerCase() === c` for a one-letter `c`, with ASCII case
      folding: the key must be that letter in either case. */
  predicate KeyIs(key: string, c: char) {
    |key| == 1 && LowerChar(key[0]) == c
  }

  /** The shortcut table of `handleKey`, in its order of tests. */
  function Dispatch(k: KeyPress): (cmds: seq<Command>)
    ensures |cmds| <= 1
    ensures !(UndoCmd in cmds && RedoCmd in cmds)
    ensures UndoCmd in cmds <==> (k.ctrl || k.meta) && !k.shift && KeyIs(k.key, 'z')
    ensures RedoCmd in cmds <==> (k.ctrl || k.meta) && k.shift && KeyIs(k.key, 'z')
    ensures DownloadCmd in cmds <==> (k.ctrl || k.meta) && KeyIs(k.key, 's')
    ensures ClearCmd in cmds <==> (k.ctrl || k.meta) && KeyIs(k.key, 'k')
    ensures ChooseTool(Pen) in cmds <==> KeyIs(k.key, 'p')
    ensures ChooseTool(Eraser) in cmds <==> KeyIs(k.key, 'e')
  {
    var modified := k.ctrl || k.meta;
    (if modified && !k.shift && KeyIs(k.key, 'z') then [UndoCmd] else [])
    + (if modified && k.shift && KeyIs(k.key, 'z') then [RedoCmd] else [])
    + (if modified && KeyIs(k.key, 's') then [DownloadCmd] else [])
    + (if modified && KeyIs(k.key, 'k') then [ClearCmd] else [])
    + (if KeyIs(k.key, 'p') then [ChooseTool(Pen)] else [])
    + (if KeyIs(k.key, 'e') then [ChooseTool(Eraser)] else [])
  }

  /** Whether `handleKey` suppresses the browser's default for the key. */
  predicate Prevented(k: KeyPress) {
    (k.ctrl || k.meta) && (KeyIs(k.key, 'z') || KeyIs(k.key, 's') || KeyIs(k.key, 'k'))
  }

  // ---------------------------------------------------------------------
  // The component

  /** One input as the component handles it. */
  function Step(b: Board, i: Input): (r: Reaction)
    ensures r.drawn.Some? ==> i.PointerMove? && b.canvas && b.drawing && b.ctx
    ensures i.PointerMove? && b.canvas ==> r == MoveStroke(b, i.sample)
    ensures i.PointerEnd? && b.canvas && b.endListeners >= 1 ==> r.board == EndStroke(b, i.capture)
    ensures i.PickColor? || i.PickSize? ==> r.board.history == b.history
  {
    match i
    case Mount(board, grid, ctxOk, c) =>
      // The pointer effect registers its listeners, then the init effect
      // sizes the canvas (acquiring the context) and saves the seed snapshot.
      var listening := b.(canvas := board, endListeners := if board then 1 else 0);
      var sized := listening.(ctx := board && grid && ctxOk);
      Reaction(SaveSnapshot(sized, c), None)
    case PointerDown(p) =>
      Reaction(if b.canvas then StartStroke(b, p) else b, None)
    case PointerMove(p) =>
      if b.canvas then MoveStroke(b, p) else Reaction(b, None)
    case PointerEnd(c) =>
      Reaction(if b.canvas then EndAll(b, c, b.endListeners) else b, None)
    case Key(k, c) => Reaction(ExecuteAll(b, Dispatch(k), c), None)
    case Click(cmd, c) => Reaction(Execute(b, cmd, c), None)
    case PickColor(col) => Reaction(Rebound(b.(color := col), col != b.color), None)
    case PickSize(v) => Reaction(Rebound(b.(size := v), v != b.size), None)
  }

  function Run(b: Board, inputs: seq<Input>): Board
    decreases |inputs|
  {
    if |inputs| == 0 then b else Run(Step(b, inputs[0]).board, inputs[1..])
  }

  // ---------------------------------------------------------------------
  // Invariants and laws

  /** What holds once the board is mounted with a working canvas: the
      history holds at least one snapshot, both stacks together hold at most
      100 (a redo pushes without checking the cap, so bounding `past` alone
      would not be preserved), every snapshot is non-empty, and the pointer
      listeners are registered. */
  predicate Ready(b: Board) {
    && b.canvas
    && 1 <= |b.history.past|
    && H.Total(b.history) <= 100
    && H.AllTruthy(b.history, Truthy)
    && b.endListeners >= 1
  }

  /** Inputs after mounting: `toDataURL` never yields an empty string. */
  predicate WellFormed(i: Input) {
    && !i.Mount?
    && (i.PointerEnd? || i.Key? || i.Click? ==> i.capture.Captured? ==> Truthy(i.capture.snapshot))
  }

  /** Mounting with a canvas and a working capture seeds the history with
      exactly one snapshot and nothing to redo. */
  lemma MountSeedsHistory(s: string)
    requires Truthy(s)
    ensures var b := Step(Initial(), Mount(true, true, true, H.Captured(s))).board;
            b.history == H.History([s], []) && Ready(b) && b.ctx
  {
  }

  /** Undo and redo keep the board's history invariant. */
  lemma UndoRedoKeepReady(b: Board)
    requires Ready(b)
    ensures Ready(HandleUndo(b)) && Ready(HandleRedo(b))
  {
    H.TruthyPreserved(b.history, Truthy, H.BoardCap, H.NoSurface);
    H.UndoRedoKeepTotal(b.history, Truthy);
  }

  /** Saves of non-empty captures, directly, by a clear or at the end of a
      stroke, keep the board's history invariant. */
  lemma SavesKeepReady(b: Board, c: H.Capture<string>)
    requires Ready(b) && (c.Captured? ==> Truthy(c.snapshot))
    ensures Ready(SaveSnapshot(b, c)) && Ready(HandleClear(b, c)) && Ready(EndStroke(b, c))
  {
    H.TruthyPreserved(b.history, Truthy, H.BoardCap, c);
  }

  /** Everything a mounted board reacts to keeps it `Ready`. */
  lemma StepKeepsReady(b: Board, i: Input)
    requires Ready(b) && WellFormed(i)
    ensures Ready(Step(b, i).board)
  {
    match i
    case PointerEnd(c) =>
      SavesKeepReady(b, c);
    case Key(k, c) =>
      var cmds := Dispatch(k);
      if |cmds| == 1 {
        ExecuteKeepsReady(b, cmds[0], c);
        assert ExecuteAll(Execute(b, cmds[0], c), cmds[1..], c) == Execute(b, cmds[0], c);
      }
    case Click(cmd, c) =>
      ExecuteKeepsReady(b, cmd, c);
    case _ =>
  }

  lemma ExecuteKeepsReady(b: Board, cmd: Command, c: H.Capture<string>)
    requires Ready(b) && (c.Captured? ==> Truthy(c.snapshot))
    ensures Ready(Execute(b, cmd, c))
  {
  }

  /** After a successful mount the history is never empty again and never
      exceeds 100 entries, whatever the user does. */
  lemma {:induction false} HistoryStaysBounded(b: Board, inputs: seq<Input>)
    requires Ready(b)
    requires forall j | 0 <= j < |inputs| :: WellFormed(inputs[j])
    ensures Ready(Run(b, inputs))
    ensures 1 <= |Run(b, inputs).history.past| <= 100
    decreases |inputs|
  {
    if |inputs| > 0 {
      StepKeepsReady(b, inputs[0]);
      assert forall j | 0 <= j < |inputs[1..]| :: WellFormed(inputs[1..][j]) by {
        forall j | 0 <= j < |inputs[1..]| ensures WellFormed(inputs[1..][j]) {
          assert inputs[1..][j] == inputs[j + 1];
        }
      }
      HistoryStaysBounded(Step(b, inputs[0]).board, inputs[1..]);
    }
  }

  /** Clear is undoable: clearing and then undoing brings back the history
      and the picture from before the clear, and the clear can be redone. */
  lemma ClearThenUndo(b: Board, blank: string)
    requires Ready(b) && b.ctx && Truthy(blank) && |b.history.past| < 100
    ensures var u := HandleUndo(HandleClear(b, H.Captured(blank)));
            && u.history == H.History(b.history.past, [blank])
            && u.shown == Some(H.Last(b.history.past))
  {
  }

  /** Two moves of one stroke: the second stroke() re-draws the polyline the
      first one drew, extended by one point. */
  lemma MovesRestrokeWholePath(b: Board, p: Sample, q: Sample)
    requires b.canvas && b.drawing && b.ctx
    ensures var r1 := Step(b, PointerMove(p));
            var r2 := Step(r1.board, PointerMove(q));
            r1.drawn.Some? && r2.drawn.Some?
            && r2.drawn.value.path == r1.drawn.value.path + [q.at]
  {
  }

  /** A move while no stroke is in progress changes nothing. */
  lemma MoveWhenIdleIgnored(b: Board, p: Sample)
    requires !b.drawing
    ensures Step(b, PointerMove(p)) == Reaction(b, None)
  {
  }

  /** Control (or Command) with Z undoes and with Shift+Z redoes, never both;
      Shift makes the browser report an upper-case key. */
  lemma UndoRedoShortcuts(ctrl: bool, meta: bool)
    requires ctrl || meta
    ensures Dispatch(KeyPress("z", ctrl, meta, false)) == [UndoCmd]
    ensures Dispatch(KeyPress("Z", ctrl, meta, true)) == [RedoCmd]
    ensures Dispatch(KeyPress("Z", ctrl, meta, false)) == [UndoCmd]
    ensures Prevented(KeyPress("Z", ctrl, meta, true))
  {
    assert LowerChar('z') == 'z' && LowerChar('Z') == 'z';
    assert KeyIs("z", 'z') && KeyIs("Z", 'z');
    assert !KeyIs("z", 's') && !KeyIs("z", 'k') && !KeyIs("z", 'p') && !KeyIs("z", 'e');
    assert !KeyIs("Z", 's') && !KeyIs("Z", 'k') && !KeyIs("Z", 'p') && !KeyIs("Z", 'e');
  }

  /** A pointer-down followed by a pointer-end on a mounted board saves
      exactly one snapshot, whatever number of end listeners has piled up,
      and leaves every other field as it was, the path aside. */
  lemma StrokeSaves(b: Board, p: Sample, c: H.Capture<string>)
    requires b.canvas && b.endListeners >= 1
    ensures var r := Step(Step(b, PointerDown(p)).board, PointerEnd(c)).board;
      && r.history == H.Save(b.history, H.BoardCap, c)
      && !r.drawing
      && r == b.(history := r.history, path := r.path, drawing := false)
  {
  }

  /** Mount with a seed capture, then draw two strokes: the history holds
      the seed and one snapshot per stroke, in order, and nothing to redo. */
  lemma TwoStrokesScenario(seed: string, a: string, b2: string, p: Sample, q: Sample)
    ensures
      var m := Step(Initial(), Mount(true, true, true, H.Captured(seed))).board;
      var s1 := Step(Step(m, PointerDown(p)).board, PointerEnd(H.Captured(a))).board;
      var s2 := Step(Step(s1, PointerDown(q)).board, PointerEnd(H.Captured(b2))).board;
      && s2.history == H.History([seed, a, b2], [])
      && s2.canvas && s2.ctx && !s2.drawing
  {
    var m := Step(Initial(), Mount(true, true, true, H.Captured(seed))).board;
    assert m.history == H.History([seed], []) && m.canvas && m.endListeners == 1;
    StrokeSaves(m, p, H.Captured(a));
    var s1 := Step(Step(m, PointerDown(p)).board, PointerEnd(H.Captured(a))).board;
    assert s1.history == H.History([seed, a], []);
    StrokeSaves(s1, q, H.Captured(b2));
  }

  /** On a board holding three truthy snapshots, undo twice and redo twice:
      each undo repaints the previous picture, and the redos return to the
      history before the undos, repainting the newest snapshot. */
  lemma UndoRedoScenario(b: Board, seed: string, a: string, b2: string)
    requires b.canvas && b.ctx && b.history == H.History([seed, a, b2], [])
    requires Truthy(seed) && Truthy(a) && Truthy(b2)
    ensures
      var u1 := HandleUndo(b);
      var u2 := HandleUndo(u1);
      var r2 := HandleRedo(HandleRedo(u2));
      && u1.shown == Some(a) && u1.history == H.History([seed, a], [b2])
      && u2.shown == Some(seed) && u2.history == H.History([seed], [b2, a])
      && r2.history == b.history && r2.shown == Some(b2)
  {
    var u1 := HandleUndo(b);
    assert u1.history == H.History([seed, a], [b2]);
    var u2 := HandleUndo(u1);
    assert u2.history == H.History([seed], [b2, a]);
    var r1 := HandleRedo(u2);
    assert r1.history == H.History([seed, a], [b2]);
  }
}
