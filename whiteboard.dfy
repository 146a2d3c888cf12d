/** The shared whiteboard (Whiteboard.jsx): the drawing state machine that
    turns a drag into line segments, the stroke parameters each tool gives
    them, and how a segment received from another client is painted. The
    canvas is reduced to its drawing style and the list of segments painted
    on it. */
module SharedWhiteboard {
  import opened Protocol

  datatype Tool = Pencil | Pen | Eraser

  const PenColor := "#FF0000"
  const EraserWidth := 20

  /** The part of the canvas context the whiteboard sets. */
  datatype Composite = SourceOver | DestinationOut

  datatype CanvasStyle = CanvasStyle(composite: Composite, strokeStyle: string, lineWidth: int)

  /** The defaults of a fresh 2D context. */
  const DefaultStyle := CanvasStyle(SourceOver, "#000000", 1)

  /** A segment painted on the canvas, with the style it was painted in. */
  datatype Painted = Painted(x1: int, y1: int, x2: int, y2: int, style: CanvasStyle)

  /** The colour sent with a stroke (line 76): the pen always draws red. */
  function StrokeColor(tool: Tool, lineColor: string): string {
    if tool == Pen then PenColor else lineColor
  }

  /** The width sent with a stroke (line 77): the eraser is always 20 wide. */
  function StrokeWidth(tool: Tool, lineWidth: int): int {
    if tool == Eraser then EraserWidth else lineWidth
  }

  /** The payload of the `draw` event for a segment (lines 70-79). */
  function Payload(tool: Tool, lineColor: string, lineWidth: int, x1: int, y1: int, x2: int, y2: int): Stroke {
    Stroke(x1, y1, x2, y2, StrokeColor(tool, lineColor), StrokeWidth(tool, lineWidth), tool == Eraser)
  }

  /** Assigning `lineWidth` on a 2D context: a width that is not positive
      is ignored and the previous one stays, so a context's width never
      becomes non-positive. Nothing but the width changes. */
  function AssignWidth(ctx: CanvasStyle, w: int): (r: CanvasStyle)
    ensures ctx.lineWidth > 0 ==> r.lineWidth > 0
    ensures r.composite == ctx.composite && r.strokeStyle == ctx.strokeStyle
  {
    if w > 0 then ctx.(lineWidth := w) else ctx
  }

  /** The style the drawing client sets before painting (lines 56-63). The
      eraser clears what it crosses and leaves the stroke colour as it was. */
  function LocalStyle(ctx: CanvasStyle, tool: Tool, lineColor: string, lineWidth: int): CanvasStyle {
    if tool == Eraser then AssignWidth(ctx.(composite := DestinationOut), EraserWidth)
    else AssignWidth(ctx.(composite := SourceOver, strokeStyle := StrokeColor(tool, lineColor)), lineWidth)
  }

  /** The style a receiving client sets for a segment (lines 22-29): an
      erasing segment is 20 wide whatever width it carries; any other is
      painted in the colour it carries, and in the width it carries when
      that width is positive. The server relays strokes unchecked, so a
      stroke from another client may carry any width. */
  function RemoteStyle(ctx: CanvasStyle, st: Stroke): CanvasStyle {
    if st.isEraser then AssignWidth(ctx.(composite := DestinationOut), EraserWidth)
    else AssignWidth(ctx.(composite := SourceOver, strokeStyle := st.color), st.width)
  }

  /** A receiver paints a segment in the style its sender painted it in,
      given the same style beforehand. */
  lemma RemoteMatchesLocal(ctx: CanvasStyle, tool: Tool, lineColor: string, lineWidth: int, x1: int, y1: int, x2: int, y2: int)
    ensures RemoteStyle(ctx, Payload(tool, lineColor, lineWidth, x1, y1, x2, y2)) == LocalStyle(ctx, tool, lineColor, lineWidth)
  {
  }

  /** Local and remote segments share one context, and each sets the
      composite operation afresh: an erasing segment never leaves the next
      one erasing. A drawing segment with a positive width does not depend
      on what was painted before it, and an erasing segment's composite and
      width do not either. A received drawing segment whose width is not
      positive is painted in the width left by the segment before it. */
  lemma StyleIgnoresHistory(c1: CanvasStyle, c2: CanvasStyle, tool: Tool, lineColor: string, lineWidth: int, st: Stroke)
    ensures var r1, r2 := RemoteStyle(c1, st), RemoteStyle(c2, st);
      && (!st.isEraser ==> r1.composite == SourceOver && r1.strokeStyle == r2.strokeStyle == st.color)
      && (!st.isEraser && st.width > 0 ==> r1 == r2 && r1.lineWidth == st.width)
      && (!st.isEraser && st.width <= 0 ==> r1.lineWidth == c1.lineWidth)
      && (st.isEraser ==> r1.composite == r2.composite == DestinationOut && r1.lineWidth == r2.lineWidth == EraserWidth)
    ensures var l1, l2 := LocalStyle(c1, tool, lineColor, lineWidth), LocalStyle(c2, tool, lineColor, lineWidth);
      && (tool != Eraser && lineWidth > 0 ==> l1 == l2 && l1.composite == SourceOver && l1.lineWidth == lineWidth)
      && (tool == Eraser ==> l1.composite == l2.composite == DestinationOut && l1.lineWidth == l2.lineWidth == EraserWidth)
  {
  }

  /** Consecutive segments of a drag join end to start. */
  ghost predicate Chained(drag: seq<Stroke>) {
    forall i :: 0 <= i < |drag| - 1 ==> drag[i].x2 == drag[i + 1].x1 && drag[i].y2 == drag[i + 1].y1
  }

  /** A segment that starts where the drag ends extends the chain. */
  lemma ChainedSnoc(drag: seq<Stroke>, st: Stroke)
    requires Chained(drag)
    requires |drag| > 0 ==> drag[|drag| - 1].x2 == st.x1 && drag[|drag| - 1].y2 == st.y1
    ensures Chained(drag + [st])
  {
    var d := drag + [st];
    forall i | 0 <= i < |d| - 1
      ensures d[i].x2 == d[i + 1].x1 && d[i].y2 == d[i + 1].y1
    {
      if i + 1 < |drag| {
        assert d[i] == drag[i] && d[i + 1] == drag[i + 1];
      }
    }
  }

  class Whiteboard {
    const roomId: string
    var lineColor: string
    var lineWidth: int
    var tool: Tool
    var isDrawing: bool
    var lastX: int
    var lastY: int
    var ctx: CanvasStyle
    var canvas: seq<Painted>
    /** The segments of the current drag, in order. */
    ghost var drag: seq<Stroke>
    /** What this client has emitted, in order. */
    var outbox: seq<ClientEvent>

    /** The width stays within the range input's bounds (lines 116-122);
        the segments of a drag join up and the last one ends at the stored
        point. */
    ghost predicate Valid()
      reads this
    {
      && 1 <= lineWidth <= 20
      && Chained(drag)
      && (|drag| > 0 ==> drag[|drag| - 1].x2 == lastX && drag[|drag| - 1].y2 == lastY)
    }

    /** The initial state of lines 6-17. */
    constructor (roomId: string)
      ensures Valid() && this.roomId == roomId
      ensures lineColor == "#000000" && lineWidth == 2 && tool == Pencil
      ensures !isDrawing && lastX == 0 && lastY == 0
      ensures ctx == DefaultStyle && canvas == [] && outbox == []
    {
      this.roomId := roomId;
      lineColor, lineWidth, tool := "#000000", 2, Pencil;
      isDrawing, lastX, lastY := false, 0, 0;
      ctx, canvas, drag, outbox := DefaultStyle, [], [], [];
    }

    /** `startDrawing` (lines 42-47): a new drag begins at the cursor. */
    method StartDrawing(x: int, y: int)
      requires Valid()
      modifies this
      ensures Valid()
      ensures isDrawing && lastX == x && lastY == y && drag == []
      ensures canvas == old(canvas) && outbox == old(outbox) && ctx == old(ctx)
      ensures tool == old(tool) && lineColor == old(lineColor) && lineWidth == old(lineWidth)
    {
      isDrawing := true;
      lastX := x;
      lastY := y;
      drag := [];
    }

    /** `draw` (lines 49-83): outside a drag nothing happens; inside one, the
        segment from the stored point to the cursor is painted and sent,
        and the cursor becomes the stored point. */
    method Draw(x: int, y: int)
      requires Valid()
      modifies this
      ensures Valid()
      ensures !old(isDrawing) ==>
        canvas == old(canvas) && outbox == old(outbox) && ctx == old(ctx) && drag == old(drag) && lastX == old(lastX) && lastY == old(lastY)
      ensures old(isDrawing) ==> var st := Payload(tool, lineColor, lineWidth, old(lastX), old(lastY), x, y);
        && ctx == LocalStyle(old(ctx), tool, lineColor, lineWidth)
        && canvas == old(canvas) + [Painted(old(lastX), old(lastY), x, y, ctx)]
        && outbox == old(outbox) + [ClientEvent.Draw(roomId, st)]
        && drag == old(drag) + [st]
        && lastX == x && lastY == y
      ensures isDrawing == old(isDrawing) && tool == old(tool) && lineColor == old(lineColor) && lineWidth == old(lineWidth)
    {
      if !isDrawing {
        return;
      }
      ctx := LocalStyle(ctx, tool, lineColor, lineWidth);
      canvas := canvas + [Painted(lastX, lastY, x, y, ctx)];
      var st := Payload(tool, lineColor, lineWidth, lastX, lastY, x, y);
      outbox := outbox + [ClientEvent.Draw(roomId, st)];
      ChainedSnoc(drag, st);
      drag := drag + [st];
      lastX := x;
      lastY := y;
    }

    /** `stopDrawing` (lines 85-87), on mouse release or leaving the
        canvas. */
    method StopDrawing()
      requires Valid()
      modifies this
      ensures Valid() && !isDrawing
      ensures canvas == old(canvas) && outbox == old(outbox) && ctx == old(ctx) && drag == old(drag)
      ensures lastX == old(lastX) && lastY == old(lastY)
      ensures tool == old(tool) && lineColor == old(lineColor) && lineWidth == old(lineWidth)
    {
      isDrawing := false;
    }

    /** The tool buttons (lines 90-107). */
    method SetTool(t: Tool)
      requires Valid()
      modifies this
      ensures Valid() && tool == t
      ensures isDrawing == old(isDrawing) && lineColor == old(lineColor) && lineWidth == old(lineWidth)
      ensures canvas == old(canvas) && outbox == old(outbox) && ctx == old(ctx) && drag == old(drag)
      ensures lastX == old(lastX) && lastY == old(lastY)
    {
      tool := t;
    }

    /** The colour input (lines 109-115), disabled while erasing. */
    method SetColor(c: string)
      requires Valid() && tool != Eraser
      modifies this
      ensures Valid() && lineColor == c
      ensures isDrawing == old(isDrawing) && tool == old(tool) && lineWidth == old(lineWidth)
      ensures canvas == old(canvas) && outbox == old(outbox) && ctx == old(ctx) && drag == old(drag)
      ensures lastX == old(lastX) && lastY == old(lastY)
    {
      lineColor := c;
    }

    /** The range input (lines 116-122): whole numbers from 1 to 20. */
    method SetLineWidth(w: int)
      requires Valid() && 1 <= w <= 20
      modifies this
      ensures Valid() && lineWidth == w
      ensures isDrawing == old(isDrawing) && tool == old(tool) && lineColor == old(lineColor)
      ensures canvas == old(canvas) && outbox == old(outbox) && ctx == old(ctx) && drag == old(drag)
      ensures lastX == old(lastX) && lastY == old(lastY)
    {
      lineWidth := w;
    }

    /** The `draw` listener (lines 19-35): a segment from another client is
        painted in the style it carries; the local drag is not affected. */
    method OnRemoteDraw(st: Stroke)
      requires Valid()
      modifies this
      ensures Valid()
      ensures ctx == RemoteStyle(old(ctx), st)
      ensures canvas == old(canvas) + [Painted(st.x1, st.y1, st.x2, st.y2, ctx)]
      ensures outbox == old(outbox) && isDrawing == old(isDrawing) && lastX == old(lastX) && lastY == old(lastY)
      ensures drag == old(drag) && tool == old(tool) && lineColor == old(lineColor) && lineWidth == old(lineWidth)
    {
      ctx := RemoteStyle(ctx, st);
      canvas := canvas + [Painted(st.x1, st.y1, st.x2, st.y2, ctx)];
    }
  }
}
