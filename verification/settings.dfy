/** The tool-settings slice of the application store (src/store/index.ts)
    over the `DrawingState` record (src/types/index.ts). Every reducer is a
    plain record update; sizes are numbers, modelled as reals. */
module Settings {
  import opened Basics

  datatype DrawingState = DrawingState(
    tool: Tool,
    color: string,
    size: real,
    penSize: real,
    eraserSize: real,
    showGrid: bool,
    lineSpacing: real)

  /** The reducers of the slice, each with its payload. */
  datatype Action =
    | SetTool(tool: Tool)
    | SetColor(color: string)
    | SetPenSize(penSize: real)
    | SetSize(size: real)
    | ToggleGrid(show: bool)
    | SetLineSpacing(spacing: real)

  /** The fields of the record, to speak about "every other field". */
  datatype Field = ToolField | ColorField | SizeField | PenSizeField
                 | EraserSizeField | ShowGridField | LineSpacingField

  datatype Value = ToolValue(tool: Tool) | Text(text: string) | Number(number: real) | Flag(flag: bool)

  function Get(s: DrawingState, f: Field): Value {
    match f
    case ToolField => ToolValue(s.tool)
    case ColorField => Text(s.color)
    case SizeField => Number(s.size)
    case PenSizeField => Number(s.penSize)
    case EraserSizeField => Number(s.eraserSize)
    case ShowGridField => Flag(s.showGrid)
    case LineSpacingField => Number(s.lineSpacing)
  }

  /** The field an action writes; for `SetSize` it depends on the current tool. */
  function Target(s: DrawingState, a: Action): Field {
    match a
    case SetTool(_) => ToolField
    case SetColor(_) => ColorField
    case SetPenSize(_) => PenSizeField
    case SetSize(_) => if s.tool == Eraser then EraserSizeField else PenSizeField
    case ToggleGrid(_) => ShowGridField
    case SetLineSpacing(_) => LineSpacingField
  }

  function Payload(a: Action): Value {
    match a
    case SetTool(t) => ToolValue(t)
    case SetColor(c) => Text(c)
    case SetPenSize(v) => Number(v)
    case SetSize(v) => Number(v)
    case ToggleGrid(b) => Flag(b)
    case SetLineSpacing(v) => Number(v)
  }

  /** The size the current tool draws with. */
  function CurrentSize(s: DrawingState): real {
    if s.tool == Pen then s.penSize else s.eraserSize
  }

  /** The store's initial state. */
  function Initial(): (s: DrawingState)
    ensures s.tool == Pen && s.color == "#22d3ee" && s.showGrid && s.lineSpacing == 30.0
    ensures s.penSize == s.eraserSize == s.size == CurrentSize(s) == 8.0
  {
    DrawingState(Pen, "#22d3ee", 8.0, 8.0, 8.0, true, 30.0)
  }

  /** The slice reducer: an action writes its payload into its target field
      and leaves every other field, `size` included, as it was. */
  function Apply(s: DrawingState, a: Action): (r: DrawingState)
    ensures forall f :: Get(r, f) == if f == Target(s, a) then Payload(a) else Get(s, f)
  {
    match a
    case SetTool(t) => s.(tool := t)
    case SetColor(c) => s.(color := c)
    case SetPenSize(v) => s.(penSize := v)
    case SetSize(v) =>
      var s1 := if s.tool == Eraser then s.(eraserSize := v) else s;
      if s1.tool == Pen then s1.(penSize := v) else s1
    case ToggleGrid(b) => s.(showGrid := b)
    case SetLineSpacing(v) => s.(lineSpacing := v)
  }

  /** Apply a sequence of actions in order. */
  function ApplyAll(s: DrawingState, actions: seq<Action>): DrawingState
    decreases |actions|
  {
    if |actions| == 0 then s else ApplyAll(Apply(s, actions[0]), actions[1..])
  }

  // ---------------------------------------------------------------------
  // Laws

  /** Two states agree on every field exactly when they are equal. */
  lemma FieldsDetermineState(s: DrawingState, t: DrawingState)
    ensures (forall f :: Get(s, f) == Get(t, f)) <==> s == t
  {
    if forall f :: Get(s, f) == Get(t, f) {
      assert Get(s, ToolField) == Get(t, ToolField);
      assert Get(s, ColorField) == Get(t, ColorField);
      assert Get(s, SizeField) == Get(t, SizeField);
      assert Get(s, PenSizeField) == Get(t, PenSizeField);
      assert Get(s, EraserSizeField) == Get(t, EraserSizeField);
      assert Get(s, ShowGridField) == Get(t, ShowGridField);
      assert Get(s, LineSpacingField) == Get(t, LineSpacingField);
    }
  }

  /** Every reducer is idempotent; in particular `toggleGrid` sets the flag
      to its payload instead of negating it. */
  lemma ApplyIdempotent(s: DrawingState, a: Action)
    ensures Apply(Apply(s, a), a) == Apply(s, a)
  {
    FieldsDetermineState(Apply(Apply(s, a), a), Apply(s, a));
  }

  /** No reducer writes the `size` field. */
  lemma {:induction false} SizeFieldNeverWritten(s: DrawingState, actions: seq<Action>)
    ensures ApplyAll(s, actions).size == s.size
    decreases |actions|
  {
    if |actions| > 0 {
      var r := Apply(s, actions[0]);
      assert Get(r, SizeField) == Get(s, SizeField);
      SizeFieldNeverWritten(r, actions[1..]);
    }
  }

  /** `setSize` changes the size of the current tool only. */
  lemma SetSizeRoutesToCurrentTool(s: DrawingState, v: real)
    ensures CurrentSize(Apply(s, SetSize(v))) == v
    ensures s.tool == Pen ==> Apply(s, SetSize(v)).eraserSize == s.eraserSize
    ensures s.tool == Eraser ==> Apply(s, SetSize(v)).penSize == s.penSize
  {
  }

  /** Switching tools keeps both per-tool sizes, so switching back finds the
      size last set for that tool. */
  lemma ToolSwitchKeepsSizes(s: DrawingState, t: Tool, v: real)
    ensures Apply(s, SetTool(t)).penSize == s.penSize
    ensures Apply(s, SetTool(t)).eraserSize == s.eraserSize
    ensures t != s.tool ==>
              CurrentSize(ApplyAll(s, [SetTool(t), SetSize(v), SetTool(s.tool)])) == CurrentSize(s)
  {
    var s1 := Apply(s, SetTool(t));
    var s2 := Apply(s1, SetSize(v));
    var s3 := Apply(s2, SetTool(s.tool));
    var actions := [SetTool(t), SetSize(v), SetTool(s.tool)];
    assert actions[1..] == [SetSize(v), SetTool(s.tool)];
    assert actions[1..][1..] == [SetTool(s.tool)];
    assert ApplyAll(s3, []) == s3;
    assert ApplyAll(s2, [SetTool(s.tool)]) == s3;
    assert ApplyAll(s1, [SetSize(v), SetTool(s.tool)]) == s3;
    assert ApplyAll(s, actions) == s3;
  }

  /** Pen size 20, switch to the eraser, eraser size 5, switch back: the pen
      still draws at 20 and the eraser at 5. */
  lemma PerToolSizeScenario()
    ensures var s := ApplyAll(Initial(), [SetSize(20.0), SetTool(Eraser), SetSize(5.0), SetTool(Pen)]);
            s.tool == Pen && CurrentSize(s) == 20.0 && s.eraserSize == 5.0
  {
  }
}
