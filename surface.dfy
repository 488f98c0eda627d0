/** The drawing surface's state machine as pure functions on a Board value.

    Each pointer event and history button is one function from the state
    before the event to the state after it; the class in module Whiteboard
    performs the same steps in place and is specified by these functions.
    The lemmas below state what the history discipline guarantees over
    whole gestures and over runs of undo and redo. */
module Surface {
  import opened Wrappers
  import opened Drawing

  /** Everything the surface keeps between events. */
  datatype Board = Board(
    drawing: bool,               // a gesture is in progress
    last: Point,                 // end of the last freehand segment
    start: Point,                // where the current gesture began
    prevState: seq<Snapshot>,    // canvas after each gesture and undo; never read
    undoStack: seq<Snapshot>,    // canvas before each gesture, most recent last
    redoStack: seq<Snapshot>,    // snapshots popped by undo, most recent last
    canvas: Snapshot)

  /** What the toolbar supplies with every event. */
  datatype Props = Props(tool: Tool, penColor: Color, textSettings: TextSettings, brushSize: int)

  /** The surface as it is mounted. */
  function Initial(): (r: Board) {
    Board(false, Point(0, 0), Point(0, 0), [], [], [], Blank)
  }

  function Last<T>(s: seq<T>): T
    requires s != []
  {
    s[|s| - 1]
  }

  function Square(n: int): int {
    n * n
  }

  function SquaredDistance(a: Point, b: Point): (d: int) {
    Square(b.x - a.x) + Square(b.y - a.y)
  }

  /** True when the prompt's answer is a non-empty string (JavaScript truthiness
      of a string or of null). */
  predicate Truthy(typed: Option<string>) {
    typed.Some? && typed.value != ""
  }

  /** What a text gesture draws at `p`: nothing when the prompt was cancelled
      or left empty, otherwise the text and, for underlined text, a rule of
      the measured width two pixels below the baseline. */
  function TextMarks(p: Point, typed: Option<string>, props: Props, textWidth: int): (marks: seq<Primitive>)
    ensures |marks| <= 2
    ensures marks == [] <==> !Truthy(typed)
    ensures marks != [] ==> marks[0] == FilledText(typed.value, p, props.penColor, props.textSettings)
    ensures |marks| == 2 <==> Truthy(typed) && props.textSettings.textDecoration == "underline"
    ensures |marks| == 2 ==>
      marks[1].Line? && marks[1].from == Point(p.x, p.y + UnderlineOffset) &&
      marks[1].to.y == marks[1].from.y && marks[1].to.x - marks[1].from.x == textWidth &&
      marks[1].color == props.penColor && marks[1].width == ShapeLineWidth
  {
    if !Truthy(typed) then []
    else
      var text := FilledText(typed.value, p, props.penColor, props.textSettings);
      if props.textSettings.textDecoration == "underline" then
        var y := p.y + UnderlineOffset;
        [text, Line(Point(p.x, y), Point(p.x + textWidth, y), props.penColor, ShapeLineWidth)]
      else
        [text]
  }

  /** The shape a preview tool draws for a drag from `start` to `p`. */
  function ShapeFor(tool: Tool, start: Point, p: Point, color: Color): (s: Primitive)
    requires IsPreviewTool(tool)
    ensures !s.Line? && !s.FilledText? && s.color == color && s.width == ShapeLineWidth
    ensures tool == Rectangle ==>
      s.StrokedRect? && s.corner == start && s.corner.x + s.w == p.x && s.corner.y + s.h == p.y
    ensures tool == Circle ==>
      s.StrokedCircle? && s.center == start && s.radiusSquared == SquaredDistance(start, p)
    ensures tool == Arrow ==>
      s.ArrowShape? && s.from == start && s.to == p && s.headLength == ArrowHeadLength
  {
    if tool == Rectangle then
      StrokedRect(start, p.x - start.x, p.y - start.y, color, ShapeLineWidth)
    else if tool == Circle then
      StrokedCircle(start, SquaredDistance(start, p), color, ShapeLineWidth)
    else
      ArrowShape(start, p, ArrowHeadLength, color, ShapeLineWidth)
  }

  /** The colour and width of a freehand tool's segments. */
  function InkColor(props: Props): Color {
    if props.tool == Eraser then White else props.penColor
  }

  function InkWidth(props: Props): int {
    if props.tool == Eraser then props.brushSize * 2 else props.brushSize
  }

  // ---------------------------------------------------------------------
  // The six operations

  /** Pointer pressed at `p`. */
  function MouseDown(b: Board, p: Point, props: Props, typed: Option<string>, textWidth: int): (r: Board)
    ensures r.drawing && r.start == p && r.last == p && r.prevState == b.prevState
    ensures Timeline(r) == b.undoStack + [b.canvas]
    ensures b.canvas <= r.canvas && (props.tool != Text ==> r.canvas == b.canvas)
  {
    b.(drawing := true, start := p, last := p,
       undoStack := b.undoStack + [b.canvas],
       redoStack := [],
       canvas := if props.tool == Text then b.canvas + TextMarks(p, typed, props, textWidth) else b.canvas)
  }

  /** A move that reaches the preview repaint with nothing on the undo stack:
      the source repaints from `undefined` and the handler throws before
      anything is drawn. */
  predicate MoveThrows(b: Board, props: Props) {
    b.drawing && IsPreviewTool(props.tool) && b.undoStack == []
  }

  /** Pointer moved to `p`. */
  function MouseMove(b: Board, p: Point, props: Props): (r: Board)
    ensures r.undoStack == b.undoStack && r.redoStack == b.redoStack && r.prevState == b.prevState
    ensures r.drawing == b.drawing && r.start == b.start
    ensures MoveThrows(b, props) ==> r == b
  {
    if !b.drawing || props.tool == Text then b
    else if props.tool == Pen || props.tool == Eraser then
      b.(canvas := b.canvas + [Line(b.last, p, InkColor(props), InkWidth(props))], last := p)
    else if IsPreviewTool(props.tool) then
      if b.undoStack == [] then b
      else b.(canvas := Last(b.undoStack) + [ShapeFor(props.tool, b.start, p, props.penColor)])
    else b
  }

  /** Pointer released. */
  function MouseUp(b: Board): (r: Board)
    ensures !r.drawing && r.canvas == b.canvas && Timeline(r) == Timeline(b)
    ensures r.prevState == b.prevState + [b.canvas]
  {
    b.(drawing := false, prevState := b.prevState + [b.canvas])
  }

  /** The toolbar selected eraseAll. */
  function EraseAll(b: Board): (r: Board)
    ensures r.canvas == Blank && r.prevState == [] && Timeline(r) == []
    ensures r.drawing == b.drawing
  {
    b.(canvas := Blank, prevState := [], undoStack := [], redoStack := [])
  }

  /** The whole history read as one line: the undo stack, then what redo
      would bring back, next first. */
  function Timeline(b: Board): seq<Snapshot> {
    b.undoStack + Reversed(b.redoStack)
  }

  function Reversed<T>(s: seq<T>): (r: seq<T>)
    ensures |r| == |s|
    ensures forall i :: 0 <= i < |s| ==> r[i] == s[|s| - 1 - i]
  {
    if s == [] then [] else [Last(s)] + Reversed(s[..|s| - 1])
  }

  /** Undo button. */
  function Undo(b: Board): (r: Board)
    ensures Timeline(r) == Timeline(b)
    ensures |r.undoStack| == if b.undoStack == [] then 0 else |b.undoStack| - 1
  {
    if b.undoStack == [] then b
    else
      var popped := Last(b.undoStack);
      var rest := b.undoStack[..|b.undoStack| - 1];
      var shown := if rest != [] then Last(rest) else popped;
      assert b.undoStack == rest + [popped];
      assert Reversed(b.redoStack + [popped]) == [popped] + Reversed(b.redoStack) by {
        assert (b.redoStack + [popped])[..|b.redoStack|] == b.redoStack;
      }
      b.(undoStack := rest, redoStack := b.redoStack + [popped],
         prevState := b.prevState + [shown], canvas := shown)
  }

  /** Redo button. */
  function Redo(b: Board): (r: Board)
    ensures Timeline(r) == Timeline(b)
    ensures |r.redoStack| == if b.redoStack == [] then 0 else |b.redoStack| - 1
  {
    if b.redoStack == [] then b
    else
      var next := Last(b.redoStack);
      b.(redoStack := b.redoStack[..|b.redoStack| - 1], undoStack := b.undoStack + [next], canvas := next)
  }

  // ---------------------------------------------------------------------
  // Gestures and runs of events

  /** A sequence of pointer moves, applied in order. */
  function Moves(b: Board, pts: seq<Point>, props: Props): (r: Board)
    decreases |pts|
  {
    if pts == [] then b else Moves(MouseMove(b, pts[0], props), pts[1..], props)
  }

  /** One press-drag-release cycle. */
  datatype Gesture = Gesture(props: Props, down: Point, typed: Option<string>, textWidth: int, moves: seq<Point>)

  function Perform(b: Board, g: Gesture): (r: Board) {
    MouseUp(Moves(MouseDown(b, g.down, g.props, g.typed, g.textWidth), g.moves, g.props))
  }

  function PerformAll(b: Board, gs: seq<Gesture>): (r: Board)
    decreases |gs|
  {
    if gs == [] then b else PerformAll(Perform(b, gs[0]), gs[1..])
  }

  function UndoTimes(b: Board, n: nat): (r: Board)
    decreases n
  {
    if n == 0 then b else UndoTimes(Undo(b), n - 1)
  }

  /** The segments of a freehand drag from `from` through `pts`. */
  function Polyline(from: Point, pts: seq<Point>, color: Color, width: int): (segs: seq<Primitive>)
    decreases |pts|
  {
    if pts == [] then [] else [Line(from, pts[0], color, width)] + Polyline(pts[0], pts[1..], color, width)
  }

  /** No move changes the history lists, the drawing flag or the anchor. */
  lemma {:induction false} MovesKeepHistory(b: Board, pts: seq<Point>, props: Props)
    ensures var r := Moves(b, pts, props);
      r.undoStack == b.undoStack && r.redoStack == b.redoStack && r.prevState == b.prevState &&
      r.drawing == b.drawing && r.start == b.start
    decreases |pts|
  {
    if pts != [] {
      MovesKeepHistory(MouseMove(b, pts[0], props), pts[1..], props);
    }
  }

  /** Moves do nothing at all while no gesture is active, with the text tool,
      or while the tool is eraseAll. */
  lemma {:induction false} IdleMovesAreNoOps(b: Board, pts: seq<Point>, props: Props)
    requires !b.drawing || props.tool == Text || props.tool.EraseAll?
    ensures Moves(b, pts, props) == b
    decreases |pts|
  {
    if pts != [] {
      IdleMovesAreNoOps(b, pts[1..], props);
    }
  }

  /** A pen or eraser drag appends one segment per move, joining the points
      in order from the last point, and ends at the last move. */
  lemma {:induction false} FreehandDragTracesPolyline(b: Board, pts: seq<Point>, props: Props)
    requires b.drawing && (props.tool == Pen || props.tool == Eraser)
    ensures var r := Moves(b, pts, props);
      r.canvas == b.canvas + Polyline(b.last, pts, InkColor(props), InkWidth(props)) &&
      r.last == (if pts == [] then b.last else Last(pts))
    decreases |pts|
  {
    if pts != [] {
      var b1 := MouseMove(b, pts[0], props);
      FreehandDragTracesPolyline(b1, pts[1..], props);
      assert pts[1..] != [] ==> Last(pts[1..]) == Last(pts);
    }
  }

  /** A rectangle, circle or arrow drag never accumulates previews: after any
      non-empty run of moves the canvas is the snapshot on top of the undo
      stack plus exactly one shape, for the latest point. */
  lemma {:induction false} PreviewDragShowsOneShape(b: Board, pts: seq<Point>, props: Props)
    requires b.drawing && IsPreviewTool(props.tool) && b.undoStack != [] && pts != []
    ensures Moves(b, pts, props).canvas ==
      Last(b.undoStack) + [ShapeFor(props.tool, b.start, Last(pts), props.penColor)]
    decreases |pts|
  {
    var b1 := MouseMove(b, pts[0], props);
    if |pts| > 1 {
      PreviewDragShowsOneShape(b1, pts[1..], props);
      assert Last(pts[1..]) == Last(pts);
    }
  }

  /** Every gesture, whatever the tool, pushes the canvas as it was before the
      gesture onto the undo stack, discards the redo stack, ends idle, and
      records the resulting canvas in prevState. */
  lemma GesturePushesOneSnapshot(b: Board, g: Gesture)
    ensures var r := Perform(b, g);
      r.undoStack == b.undoStack + [b.canvas] && r.redoStack == [] && !r.drawing &&
      r.prevState == b.prevState + [r.canvas]
  {
    MovesKeepHistory(MouseDown(b, g.down, g.props, g.typed, g.textWidth), g.moves, g.props);
  }

  /** A text gesture whose prompt is cancelled or left empty draws nothing, but
      still pushes a snapshot and discards the redo stack. */
  lemma CancelledTextStillPushesHistory(b: Board, g: Gesture)
    requires g.props.tool == Text && !Truthy(g.typed)
    ensures var r := Perform(b, g);
      r.canvas == b.canvas && r.undoStack == b.undoStack + [b.canvas] && r.redoStack == []
  {
    GesturePushesOneSnapshot(b, g);
    IdleMovesAreNoOps(MouseDown(b, g.down, g.props, g.typed, g.textWidth), g.moves, g.props);
  }

  /** A run of gestures only pushes: the old undo stack stays a prefix, one
      snapshot is added per gesture, and the first one added is the canvas the
      run started from. */
  lemma {:induction false} GesturesOnlyPush(b: Board, gs: seq<Gesture>)
    ensures var r := PerformAll(b, gs);
      |r.undoStack| == |b.undoStack| + |gs| && b.undoStack <= r.undoStack &&
      (gs != [] ==> r.undoStack[|b.undoStack|] == b.canvas && r.redoStack == [])
    decreases |gs|
  {
    if gs != [] {
      var b1 := Perform(b, gs[0]);
      GesturePushesOneSnapshot(b, gs[0]);
      GesturesOnlyPush(b1, gs[1..]);
      var r := PerformAll(b1, gs[1..]);
      assert b1.undoStack <= r.undoStack;
      assert r.undoStack[|b.undoStack|] == b1.undoStack[|b.undoStack|];
      if gs[1..] == [] {
        assert r == b1;
      }
    }
  }

  /** Undoing as many times as the undo stack is deep empties it, moves its
      snapshots onto the redo stack newest first, and leaves the oldest one
      painted. */
  lemma {:induction false} UndoAll(b: Board)
    requires b.undoStack != []
    ensures var r := UndoTimes(b, |b.undoStack|);
      r.undoStack == [] && r.redoStack == b.redoStack + Reversed(b.undoStack) &&
      r.canvas == b.undoStack[0]
    decreases |b.undoStack|
  {
    var b1 := Undo(b);
    var n := |b.undoStack|;
    if n == 1 {
      assert UndoTimes(b, 1) == b1;
      assert Reversed(b.undoStack) == [b.undoStack[0]];
    } else {
      UndoAll(b1);
      assert b1.undoStack[0] == b.undoStack[0];
      assert b1.redoStack + Reversed(b1.undoStack) == b.redoStack + Reversed(b.undoStack);
    }
  }

  /** N gestures on a fresh surface followed by N undos give back the blank
      canvas, with an empty undo stack and N snapshots on the redo stack. */
  lemma StrokesThenUndosRestoreBlank(gs: seq<Gesture>)
    requires gs != []
    ensures var r := UndoTimes(PerformAll(Initial(), gs), |gs|);
      r.canvas == Blank && r.undoStack == [] && |r.redoStack| == |gs|
  {
    var b := PerformAll(Initial(), gs);
    GesturesOnlyPush(Initial(), gs);
    UndoAll(b);
  }

  /** Undo followed by redo restores both lists; the canvas then shows the
      snapshot taken before the undone gesture. */
  lemma UndoThenRedo(b: Board)
    requires b.undoStack != []
    ensures var r := Redo(Undo(b));
      r.undoStack == b.undoStack && r.redoStack == b.redoStack && r.canvas == Last(b.undoStack)
  {
  }

  /** Redo followed by undo restores both lists too. */
  lemma RedoThenUndo(b: Board)
    requires b.redoStack != []
    ensures var r := Undo(Redo(b));
      r.undoStack == b.undoStack && r.redoStack == b.redoStack
  {
  }

  /** After two gestures one undo paints the canvas from before the FIRST of
      them, and a redo then paints the canvas between the two, not the one
      before the undo. */
  lemma UndoShowsSnapshotBelow(b: Board, g1: Gesture, g2: Gesture)
    ensures var mid := Perform(b, g1);
      var after := Perform(mid, g2);
      Undo(after).canvas == b.canvas && Redo(Undo(after)).canvas == mid.canvas
  {
    var mid := Perform(b, g1);
    GesturePushesOneSnapshot(b, g1);
    GesturePushesOneSnapshot(mid, g2);
  }

  /** Undo never changes the timeline, however often it is repeated. */
  lemma {:induction false} UndoTimesKeepsTimeline(b: Board, n: nat)
    ensures Timeline(UndoTimes(b, n)) == Timeline(b)
    decreases n
  {
    if n > 0 {
      UndoTimesKeepsTimeline(Undo(b), n - 1);
    }
  }

  /** After eraseAll there is nothing left to undo: any number of undos and a
      redo leave the surface as eraseAll left it. */
  lemma {:induction false} EraseAllForgetsHistory(b: Board, n: nat)
    ensures UndoTimes(EraseAll(b), n) == EraseAll(b)
    ensures Redo(EraseAll(b)) == EraseAll(b)
    decreases n
  {
    if n > 0 {
      EraseAllForgetsHistory(b, n - 1);
    }
  }

  /** The pen stroke from (10,10) to (50,10), width 5, black: one undo gives
      the blank canvas, and a redo gives the blank canvas again rather than the
      line, since the snapshot on the redo stack was taken before the stroke. */
  lemma PenStrokeUndoRedo()
    ensures var props := Props(Pen, "#000000", TextSettings(16, "normal", "normal", "none", "Arial"), 5);
      var drawn := Perform(Initial(), Gesture(props, Point(10, 10), None, 0, [Point(50, 10)]));
      drawn.canvas == [Line(Point(10, 10), Point(50, 10), "#000000", 5)] &&
      Undo(drawn).canvas == Blank &&
      Redo(Undo(drawn)).canvas == Blank && Redo(Undo(drawn)).canvas != drawn.canvas
  {
    var props := Props(Pen, "#000000", TextSettings(16, "normal", "normal", "none", "Arial"), 5);
    var g := Gesture(props, Point(10, 10), None, 0, [Point(50, 10)]);
    var down := MouseDown(Initial(), Point(10, 10), props, None, 0);
    assert down.undoStack == [Blank] && down.canvas == Blank && down.last == Point(10, 10);
    var moved := MouseMove(down, Point(50, 10), props);
    assert Moves(down, g.moves, props) == moved;
    var drawn := MouseUp(moved);
    assert drawn == Perform(Initial(), g);
    assert drawn.undoStack == [Blank] && drawn.redoStack == [];
    assert Undo(drawn).undoStack == [] && Undo(drawn).redoStack == [Blank];
  }

  /** Two boards that differ only in prevState stay so under every operation:
      nothing the surface does depends on prevState. */
  predicate SameExceptPrevState(a: Board, b: Board) {
    a.(prevState := []) == b.(prevState := [])
  }

  lemma PrevStateIsNeverRead(a: Board, b: Board, p: Point, props: Props, typed: Option<string>, w: int)
    requires SameExceptPrevState(a, b)
    ensures SameExceptPrevState(MouseDown(a, p, props, typed, w), MouseDown(b, p, props, typed, w))
    ensures SameExceptPrevState(MouseMove(a, p, props), MouseMove(b, p, props))
    ensures SameExceptPrevState(MouseUp(a), MouseUp(b))
    ensures SameExceptPrevState(EraseAll(a), EraseAll(b))
    ensures SameExceptPrevState(Undo(a), Undo(b))
    ensures SameExceptPrevState(Redo(a), Redo(b))
  {
  }
}
