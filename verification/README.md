# drawingpad core, modelled in Dafny

This project models the logic at the heart of the drawingpad freehand drawing
board. That is the undo/redo snapshot history and the stroke session that feeds
it. Around those sit the tool-settings reducer and the background-grid layout.
Canvas pixels, the DOM, IndexedDB and the network are not modelled. Snapshots
are opaque values, and a restore records which snapshot it repaints from.

| file | module | models |
|---|---|---|
| basics.dfy | `Basics` | `Option`, the two tools, points and pointer samples |
| history.dfy | `History` | the `past`/`future` snapshot stacks of `src/hooks/useHistory.ts` (no cap) and `src/DrawEraseBoard.tsx` (cap 100) |
| settings.dfy | `Settings` | the store slice of `src/store/index.ts` over `DrawingState` |
| style.dfy | `StrokeStyle` | `applyStrokeStyle`: pressure-scaled width, pen vs. eraser compositing |
| drawing.dfy | `Drawing` | `src/hooks/useDrawing.ts`: stroke session and animation-frame throttle |
| board.dfy | `Board` | `src/DrawEraseBoard.tsx`: the board component, its handlers and shortcuts |
| grid.dfy | `Grid` | `drawGrid` of `src/hooks/useGrid.ts` |

Modelling choices:

- **Truthiness.** Both history variants test a popped snapshot for JavaScript
  truthiness before using it. The history operations therefore take a
  `truthy` parameter. For `ImageData` objects it is always true. For data-URL
  strings it is true exactly when the string is non-empty. Each law states
  the truthiness it needs.
- **Numbers.** Sizes, pressures and coordinates are exact reals.
- **Pending frame.** The throttle's pending frame is an explicit
  `Option<Pending>` register. The frame firing is the event `FrameFires`. The
  effect re-running when the brush changes is the event `Rebind`.
- **Captures.** Everything that reads the canvas back becomes an input. This
  covers canvas and context availability, and what `toDataURL` returns or
  whether it throws.

Notes on how the code behaves; the model follows the code:

- When moves arrive faster than frames, the code draws the *first* sample of a
  frame and drops the later ones. It does not draw the latest sample.
- `toggleGrid` sets the flag to its payload. It does not negate it.
- `drawGrid` uses a fixed spacing of 30. The store's `lineSpacing` setting is
  never read.
- Undo, redo and clear are not refused while a stroke is in progress.
- `DrawEraseBoard.tsx` never restarts the path during a stroke, so each move
  re-strokes the whole polyline in the current sample's style
  (`Board.MovesRestrokeWholePath`). `useDrawing.ts` restarts the path after
  every segment.
- The cleanup in `DrawEraseBoard.tsx` removes the down and move listeners but
  not the end listeners. One more end listener piles up every time the tool,
  colour or size changes. `Board.EndAll` shows that one pointer-end still saves
  exactly one snapshot.
- A redo pushes onto `past` without checking the cap. The board's 100-entry
  bound therefore holds only because `|past| + |future| <= 100` is preserved
  (`Board.Ready`).

## Model

| member | source | states |
|---|---|---|
| History.Save | src/DrawEraseBoard.tsx:73-83 | no canvas or a throwing capture changes nothing; otherwise the snapshot becomes the top of `past`, `future` empties, and `past` is extended by exactly one unless the cap is reached, in which case the oldest entry is evicted and the cap is kept |
| History.Undo | src/hooks/useHistory.ts:23-30 | a no-op below 2 entries; otherwise `past` loses exactly its top, which (if truthy) becomes the top of `future`, the new top of `past` is restored exactly when it is truthy, and `past` never drops below one entry |
| History.Redo | src/hooks/useHistory.ts:32-39 | a no-op on an empty `future`; otherwise the top of `future` is popped and, if truthy, pushed onto `past` and restored |
| History.UndoThenRedo | src/hooks/useHistory.ts:23-39 | an undo that acts followed by a redo gives back exactly the same two stacks and repaints the snapshot that was undone |
| History.RedoThenUndo | src/hooks/useHistory.ts:23-39 | a redo that acts followed by an undo gives back exactly the same two stacks and repaints the previous top |
| History.UndoRedoKeepTotal | src/hooks/useHistory.ts:23-39 | undo and redo preserve `|past| + |future|` when all snapshots are truthy |
| History.FalsyRedoLosesSnapshot | src/DrawEraseBoard.tsx:147-153 | a redo whose snapshot is falsy pops it and loses it, restoring nothing |
| History.SaveDisablesRedo | src/hooks/useHistory.ts:13-39 | after a save, redo is a no-op (a new edit kills redo) |
| History.TruthyPreserved | src/DrawEraseBoard.tsx:139-153 | undo, redo and saving a truthy snapshot keep every stored snapshot truthy |
| History.UndoNThenRedoN | src/hooks/useHistory.ts:23-39 | n undos that all act followed by n redos return to the original history |
| History.UndoNKeepsFloor | src/hooks/useHistory.ts:24-29 | any number of undos leaves at least one entry in `past` |
| History.UndoNPast | src/hooks/useHistory.ts:24-29 | what any number of undos leaves in `past` depends on `past` alone, not on `future` or on truthiness |
| History.UndoNDropsTop | src/hooks/useHistory.ts:24-29 | n undos with n below the size of `past` leave exactly its first size-n entries |
| Settings.Initial | src/store/index.ts:5-13 | the initial state is pen, `#22d3ee`, all three sizes 8, grid shown, spacing 30 |
| Settings.FieldsDetermineState | src/store/index.ts:5-13 | the seven fields `Get` reads make up the whole state: two states agreeing on all of them are equal, and conversely |
| Settings.Apply | src/store/index.ts:19-45 | each reducer writes its payload into exactly one field (for `setSize`, the current tool's size) and leaves every other field unchanged |
| Settings.ApplyIdempotent | src/store/index.ts:20-44 | applying any reducer twice equals applying it once, `toggleGrid` included |
| Settings.SizeFieldNeverWritten | src/store/index.ts:19-45 | no sequence of actions changes the `size` field |
| Settings.SetSizeRoutesToCurrentTool | src/store/index.ts:30-37 | after `setSize(v)` the current tool's size is v and the other tool's size is unchanged |
| Settings.ToolSwitchKeepsSizes | src/store/index.ts:20-37 | switching tools keeps both sizes; switch, set, switch back finds the original tool's size |
| Settings.PerToolSizeScenario | src/store/index.ts:20-37 | pen size 20, switch to eraser, set 5, switch back: pen still 20, eraser 5 |
| StrokeStyle.LineWidth | src/hooks/useDrawing.ts:26 | the width is the larger of 0.5 and size times pressure, with pressure 0 read as 1 |
| StrokeStyle.StyleFor | src/hooks/useDrawing.ts:21-37 | destination-out with opaque black exactly for the eraser, source-over with the chosen colour for the pen |
| StrokeStyle.EraserIgnoresColor | src/hooks/useDrawing.ts:30-32 | the eraser's style does not depend on the selected colour |
| StrokeStyle.LineWidthMonotone | src/hooks/useDrawing.ts:26 | with non-negative pressure a larger size never gives a thinner line |
| Drawing.StartStroke | src/hooks/useDrawing.ts:41-52 | sets the drawing flag even without a context; with one, the path restarts at the pointer |
| Drawing.MoveStroke | src/hooks/useDrawing.ts:54-67 | a no-op unless drawing with a context; then draws one segment from the path start to the pointer, in that sample's style, and the path restarts at the pointer |
| Drawing.EndStroke | src/hooks/useDrawing.ts:69-74 | asks for a snapshot exactly when a stroke was in progress and always leaves the flag lowered |
| Drawing.EndStrokeOnce | src/hooks/useDrawing.ts:69-74 | a second end in a row takes no snapshot and changes nothing |
| Drawing.Step | src/hooks/useDrawing.ts:76-113 | a down starts a stroke and counts it, keeping the brush and any pending frame; moves while idle or while a frame is pending are dropped; a move while drawing schedules its own sample; a frame clears the token before drawing, draws only while drawing and keeps brush and stroke count; an up ends the stroke; a rebind cancels the pending frame |
| Drawing.RunBounds | src/hooks/useDrawing.ts:76-113 | over a sequence of events as the source handles them, only frames draw (at most one segment each) and every other event takes at most one snapshot |
| Drawing.StepCancelling | src/hooks/useDrawing.ts:80-107 | as `Step`, but starting or ending a stroke cancels the pending frame, so any drawn sample belongs to the stroke in progress |
| Drawing.RunCancelling | src/hooks/useDrawing.ts:80-107 | over any event sequence with cancellation, a pending frame always belongs to the stroke in progress if it did at the start |
| Drawing.SegmentsChain | src/hooks/useDrawing.ts:54-97 | without a new pointer-down, the segments drawn form one polyline: each starts where the previous one ended |
| Drawing.IdleRunSavesNothing | src/hooks/useDrawing.ts:69-97 | with no stroke in progress and none started, nothing is drawn and no snapshot is taken |
| Drawing.StrokeSavesOnce | src/hooks/useDrawing.ts:41-104 | a stroke in progress that ends takes exactly one snapshot, whatever other non-down events occur |
| Drawing.SnapshotsBoundedByStrokes | src/hooks/useDrawing.ts:41-104 | a run takes no more snapshots than the strokes it starts, plus one for a stroke already in progress |
| Drawing.MovesWhilePendingDropped | src/hooks/useDrawing.ts:87-93 | any moves arriving while a frame is pending change nothing |
| Drawing.BurstDrawsFirstSample | src/hooks/useDrawing.ts:87-97 | a burst of moves followed by one frame draws exactly one segment, to the first sample of the burst |
| Drawing.EndThenFrameDrawsNothing | src/hooks/useDrawing.ts:54-97 | a frame firing right after the stroke ended draws nothing |
| Drawing.StaleFrameJoinsStrokes | src/hooks/useDrawing.ts:80-97 | as written, down, move, up, down, frame draws a segment from the second stroke's start to the first stroke's last sample |
| Drawing.CancellingKeepsStrokesApart | src/hooks/useDrawing.ts:80-107 | with cancellation the same events draw nothing |
| Grid.LineCount | src/hooks/useGrid.ts:16-17 | the count n of lines satisfies 30n < height (or n = 0) and height <= 30(n+1) |
| Grid.LineYs | src/hooks/useGrid.ts:16-17 | the line positions are 30, 60, ... in increasing order with step 30 |
| Grid.LineYsExact | src/hooks/useGrid.ts:16-17 | y gets a line exactly when it is a positive multiple of 30 strictly below the height |
| Grid.NoLinesOnShortCanvas | src/hooks/useGrid.ts:17 | no line when the height is at most 30 |
| Grid.DrawGrid | src/hooks/useGrid.ts:6-23 | nothing without a canvas or context; otherwise one full clear followed by one line from x = 0 to the width at each grid position, below the height, covering every position, each in the grid colour at width 1 |
| Board.Initial | src/DrawEraseBoard.tsx:7-14 | before mounting, the history is empty, no stroke is active and the tool is the pen at size 8 |
| Board.SaveSnapshot | src/DrawEraseBoard.tsx:73-83 | without a canvas nothing is saved; otherwise the history gets the capped save and nothing else changes |
| Board.Restore | src/DrawEraseBoard.tsx:85-95 | repaints from the given snapshot only when both canvas and context exist; nothing else changes |
| Board.HandleUndo | src/DrawEraseBoard.tsx:139-145 | applies the history's undo to the string snapshots and repaints the restored snapshot when there is a canvas and a context; below 2 entries nothing changes; no other field changes |
| Board.HandleRedo | src/DrawEraseBoard.tsx:147-153 | applies the history's redo and repaints the restored snapshot when there is a canvas and a context; on an empty `future` nothing changes; no other field changes |
| Board.Rebound | src/DrawEraseBoard.tsx:177-202 | a changed tool, colour or size re-runs the pointer effect, adding one end listener when a canvas exists, and changes nothing else |
| Board.Execute | src/DrawEraseBoard.tsx:243-288 | only undo, redo and clear touch the history; download changes nothing; a tool button sets the tool and adds an end listener exactly when the tool changes on a mounted board |
| Board.HandleClear | src/DrawEraseBoard.tsx:156-162 | a no-op without canvas and context; otherwise a snapshot is saved |
| Board.StartStroke | src/DrawEraseBoard.tsx:99-106 | raises the flag; with a context the path restarts at the pointer; nothing else changes |
| Board.MoveStroke | src/DrawEraseBoard.tsx:108-115 | ignored unless drawing with a context; then the path grows by the pointer and the whole path is stroked |
| Board.EndStroke | src/DrawEraseBoard.tsx:117-122 | acts only while drawing: lowers the flag and saves one snapshot |
| Board.EndAll | src/DrawEraseBoard.tsx:192-201 | any number k >= 1 of accumulated end listeners has the effect of one `endStroke` |
| Board.Dispatch | src/DrawEraseBoard.tsx:214-233 | Ctrl/Cmd+Z without Shift undoes, with Shift redoes, never both; Ctrl/Cmd+S saves; Ctrl/Cmd+K clears; p/e choose pen/eraser; at most one command per key |
| Board.Step | src/DrawEraseBoard.tsx:177-237 | only a move while drawing with a context draws; a pointer-end is one `endStroke` once listeners exist; colour and size picks leave the history alone |
| Board.MountSeedsHistory | src/DrawEraseBoard.tsx:204-210 | mounting with a canvas saves one seed snapshot, leaving the history non-empty and ready |
| Board.UndoRedoKeepReady | src/DrawEraseBoard.tsx:139-153 | undo and redo keep the history between 1 and 100 entries in total, holding non-empty strings only |
| Board.SavesKeepReady | src/DrawEraseBoard.tsx:73-162 | saving a non-empty capture, directly, by clear or at the end of a stroke, keeps that invariant |
| Board.StepKeepsReady | src/DrawEraseBoard.tsx:177-237 | every post-mount input keeps the board ready |
| Board.HistoryStaysBounded | src/DrawEraseBoard.tsx:73-153 | after a successful mount, `past` holds between 1 and 100 snapshots, whatever inputs follow |
| Board.ClearThenUndo | src/DrawEraseBoard.tsx:139-162 | clear then undo restores the pre-clear history and picture, and leaves the clear redoable |
| Board.MovesRestrokeWholePath | src/DrawEraseBoard.tsx:108-115 | the second move of a stroke strokes the first move's polyline extended by one point |
| Board.MoveWhenIdleIgnored | src/DrawEraseBoard.tsx:186-190 | a move with no active stroke changes nothing and draws nothing |
| Board.UndoRedoShortcuts | src/DrawEraseBoard.tsx:215-222 | Ctrl/Cmd+z undoes; with Shift the key arrives as "Z" and redoes; the default is suppressed |
| Board.StrokeSaves | src/DrawEraseBoard.tsx:99-122 | on a mounted board a pointer-down then a pointer-end saves exactly one capped snapshot and changes nothing else but the path |
| Board.TwoStrokesScenario | src/DrawEraseBoard.tsx:73-122 | mount with a seed, then two strokes: the history is the seed and the two captures in order, with nothing to redo |
| Board.UndoRedoScenario | src/DrawEraseBoard.tsx:139-153 | from three snapshots: undo (shows the middle one), undo (shows the seed), redo twice: back to the same history showing the newest |

## Findings

| source | as written | input that shows it | evidently intended | confidence | as-written member | corrected member |
|---|---|---|---|---|---|---|
| src/hooks/useDrawing.ts:80-97 | ending a stroke leaves the pending animation frame scheduled, and a new stroke does not cancel it | pointer down at a, move to m, pointer up, pointer down at c, then the frame fires: a segment from c to m is drawn | the frame is cancelled when a stroke ends or starts, so strokes are never joined | medium, not executed (needs up and down within one frame) | Drawing.StaleFrameJoinsStrokes | Drawing.StepCancelling |

## Left out

- Pixel content: snapshots are opaque. `toDataURL`, `getImageData` and `putImageData` are not modelled.
- The asynchronous `Image.onload` repaint (src/DrawEraseBoard.tsx:86-96) is not modelled. A restore is recorded as the snapshot it starts repainting from, when canvas and context exist.
- Canvas resizing is left out: `resizeCanvas` and src/hooks/useCanvasContext.ts are floating-point DOM measurement plus a raster copy. The mount step only records whether the canvas and context exist. A later window resize is not modelled, so context availability is fixed after mount.
- src/db/index.ts is asynchronous I/O over a foreign library, and is not part of this model.
- src/hooks/useCanvasBoard.ts is left out. Its upload is a network call, its download is a DOM action, and the rest is hook composition. Its `handleClear` clears IndexedDB without saving a snapshot.
- Download (`handleSave`, Ctrl/Cmd+S) is modelled as a command that leaves the model state unchanged. The file export is I/O.
- src/hooks/useDebounce.ts and the view components under src/components/ and src/App.tsx are not modelled. They hold timers and rendering only.
- Listener registration and the real `requestAnimationFrame` are modelled only as the `Move`, `FrameFires` and `Rebind` events.
- Floating-point rounding and NaN are left out. `pressure || 1` also maps NaN to 1, but only 0 is modelled.
- Board.Dispatch: lower-casing covers ASCII letters only. Full Unicode `toLowerCase` also maps, for example, the Kelvin sign to "k", and that mapping is not modelled.
- History.Save: getImageData throwing in src/hooks/useHistory.ts:12 propagates to the caller, which the model cannot express. It is modelled like the caught case, leaving both stacks unchanged.
- The size label text and the slider bounds are view details and are not modelled.
- Logging is not modelled: `console.log` of the payload in `setColor` and `setLineSpacing` (src/store/index.ts:24, 42) and `console.error` of a failed capture (src/DrawEraseBoard.tsx:81) have no effect on the state.
