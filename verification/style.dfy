/** How a stroke is rendered (`applyStrokeStyle` in src/hooks/useDrawing.ts
    and in src/DrawEraseBoard.tsx): a pressure-scaled line width and a
    compositing mode chosen by the tool. */
module StrokeStyle {
  import opened Basics

  /** Canvas compositing modes the drawing surface uses. */
  datatype Composite = SourceOver | DestinationOut

  datatype Style = Style(width: real, composite: Composite, stroke: string)

  /** The thinnest line ever drawn. */
  const MinWidth: real := 0.5

  /** The stroke colour of the eraser: opaque black, which destination-out
      turns into "remove what is underneath". */
  const EraserStroke: string := "rgba(0,0,0,1)"

  /** `pressure || 1`: a reported pressure of 0 counts as full pressure. */
  function EffectivePressure(pressure: real): real {
    if pressure == 0.0 then 1.0 else pressure
  }

  /** `Math.max(0.5, size * (pressure || 1))`. */
  function LineWidth(size: real, pressure: real): (w: real)
    ensures w >= MinWidth && w >= size * EffectivePressure(pressure)
    ensures w == MinWidth || w == size * EffectivePressure(pressure)
    ensures pressure == 0.0 ==> w == if size >= MinWidth then size else MinWidth
    ensures pressure == 1.0 && size >= MinWidth ==> w == size
  {
    var scaled := size * EffectivePressure(pressure);
    if MinWidth >= scaled then MinWidth else scaled
  }

  /** The style a pointer sample is drawn with: the eraser removes pixels
      whatever colour is selected, the pen paints in the selected colour. */
  function StyleFor(tool: Tool, color: string, size: real, pressure: real): (st: Style)
    ensures st.width == LineWidth(size, pressure)
    ensures st.composite == DestinationOut <==> tool == Eraser
    ensures st.stroke == if tool == Eraser then EraserStroke else color
  {
    if tool == Eraser then Style(LineWidth(size, pressure), DestinationOut, EraserStroke)
    else Style(LineWidth(size, pressure), SourceOver, color)
  }

  /** The eraser's style does not depend on the selected colour. */
  lemma EraserIgnoresColor(c1: string, c2: string, size: real, pressure: real)
    ensures StyleFor(Eraser, c1, size, pressure) == StyleFor(Eraser, c2, size, pressure)
  {
  }

  /** With non-negative pressure the width never decreases as the size grows. */
  lemma LineWidthMonotone(s1: real, s2: real, pressure: real)
    requires s1 <= s2 && pressure >= 0.0
    ensures LineWidth(s1, pressure) <= LineWidth(s2, pressure)
  {
    var p := EffectivePressure(pressure);
    assert p >= 0.0;
    assert (s2 - s1) * p >= 0.0;
    assert s2 * p - s1 * p == (s2 - s1) * p;
  }
}
