/** The background grid (`drawGrid` in src/hooks/useGrid.ts, repeated in
    src/DrawEraseBoard.tsx): clear the grid canvas, then draw full-width
    horizontal lines at every positive multiple of 30 strictly above the
    bottom edge. The canvas size comes from its bounding rectangle, in CSS
    pixels, modelled as reals. */
module Grid {
  import opened Basics

  /** The line spacing hard-coded in `drawGrid`; the store's `lineSpacing`
      setting is not consulted. */
  const Spacing: int := 30

  /** Stroke colour and width set once before the lines; every line is
      stroked with them. */
  const GridColor: string := "rgba(255,255,255,0.1)"
  const GridLineWidth: real := 1.0

  datatype Rect = Rect(width: real, height: real)

  /** Drawing commands issued on the grid canvas. */
  datatype GridOp = ClearRect(width: real, height: real) | HLine(y: int, fromX: real, toX: real, color: string, width: real)

  /** How many positive multiples of the spacing lie strictly below `height`. */
  function LineCount(height: real): (n: nat)
    ensures n == 0 || (Spacing * n) as real < height
    ensures height <= (Spacing * (n + 1)) as real
  {
    if height <= Spacing as real then 0
    else
      var f := (-height / Spacing as real).Floor;
      -f - 1
  }

  /** The y coordinates of the grid lines, top to bottom: a reference
      definition independent of the drawing loop. */
  function LineYs(height: real): (ys: seq<int>)
    ensures forall i | 0 <= i < |ys| :: ys[i] == Spacing * (i + 1)
    ensures |ys| == LineCount(height)
  {
    seq(LineCount(height), i requires 0 <= i => Spacing * (i + 1))
  }

  /** A y coordinate gets a line exactly when it is a positive multiple of
      the spacing strictly above the bottom edge. */
  lemma LineYsExact(height: real, y: int)
    ensures y in LineYs(height) <==> y > 0 && y % Spacing == 0 && (y as real) < height
  {
    var ys := LineYs(height);
    if y > 0 && y % Spacing == 0 && (y as real) < height {
      var k := y / Spacing - 1;
      assert ys[k] == y;
    }
  }

  /** No line is drawn when the canvas is at most one spacing tall. */
  lemma NoLinesOnShortCanvas(height: real)
    requires height <= Spacing as real
    ensures LineYs(height) == []
  {
  }

  /** `drawGrid`: nothing without a canvas or a 2D context; otherwise one
      clear of the whole canvas followed by one full-width line per grid
      position, in increasing y order, all in the grid's colour and width. */
  method DrawGrid(canvas: Option<Rect>, hasCtx: bool) returns (ops: seq<GridOp>)
    ensures canvas.None? || !hasCtx ==> ops == []
    ensures canvas.Some? && hasCtx ==>
              && |ops| >= 1
              && ops[0] == ClearRect(canvas.value.width, canvas.value.height)
              && (forall i | 1 <= i < |ops| ::
                    ops[i] == HLine(Spacing * i, 0.0, canvas.value.width, GridColor, GridLineWidth)
                    && (ops[i].y as real) < canvas.value.height)
              && canvas.value.height <= (Spacing * |ops|) as real
    ensures canvas.Some? && hasCtx ==>
              |ops| == |LineYs(canvas.value.height)| + 1
              && forall i | 1 <= i < |ops| :: ops[i].y == LineYs(canvas.value.height)[i - 1]
  {
    if canvas.None? || !hasCtx {
      return [];
    }
    var w := canvas.value.width;
    var h := canvas.value.height;
    ops := [ClearRect(w, h)];
    var y := Spacing;
    while (y as real) < h
      invariant |ops| >= 1 && ops[0] == ClearRect(w, h)
      invariant y == Spacing * |ops|
      invariant forall i | 1 <= i < |ops| :: ops[i] == HLine(Spacing * i, 0.0, w, GridColor, GridLineWidth) && (ops[i].y as real) < h
      invariant |ops| - 1 <= LineCount(h)
      decreases LineCount(h) - (|ops| - 1)
    {
      ops := ops + [HLine(y, 0.0, w, GridColor, GridLineWidth)];
      y := y + Spacing;
    }
  }
}
