/** The whiteboard component: the refs and state lists that its event
    handlers update in place, as fields of one object, and the handlers as
    methods.  Each method is specified by the matching step function of
    module Surface, and says directly which fields it changes. */
module Whiteboard {
  import opened Wrappers
  import opened Drawing
  import Surface

  class Whiteboard {
    var isDrawing: bool
    var lastX: int
    var lastY: int
    var startX: int
    var startY: int
    var prevState: seq<Snapshot>
    var undoStack: seq<Snapshot>
    var redoStack: seq<Snapshot>
    var canvas: Snapshot

    /** The fields read as one value. */
    function State(): Surface.Board
      reads this
    {
      Surface.Board(isDrawing, Point(lastX, lastY), Point(startX, startY),
                    prevState, undoStack, redoStack, canvas)
    }

    constructor ()
      ensures State() == Surface.Initial()
    {
      isDrawing := false;
      lastX, lastY := 0, 0;
      startX, startY := 0, 0;
      prevState, undoStack, redoStack := [], [], [];
      canvas := Blank;
    }

    /** Pointer pressed at canvas position (x, y).  `typed` is the answer to
        the text prompt (None when cancelled) and `textWidth` its measured
        width; both matter only for the text tool. */
    method MouseDown(x: int, y: int, props: Surface.Props, typed: Option<string>, textWidth: int)
      modifies this
      ensures State() == Surface.MouseDown(old(State()), Point(x, y), props, typed, textWidth)
      ensures isDrawing && startX == x && startY == y && lastX == x && lastY == y
      ensures undoStack == old(undoStack) + [old(canvas)] && redoStack == []
      ensures prevState == old(prevState)
      ensures canvas == if props.tool == Text
                        then old(canvas) + Surface.TextMarks(Point(x, y), typed, props, textWidth)
                        else old(canvas)
    {
      isDrawing := true;
      startX, startY := x, y;
      lastX, lastY := x, y;
      var imageData := canvas;
      undoStack := undoStack + [imageData];
      redoStack := [];
      if props.tool == Text {
        if Surface.Truthy(typed) {
          canvas := canvas + [FilledText(typed.value, Point(x, y), props.penColor, props.textSettings)];
          if props.textSettings.textDecoration == "underline" {
            canvas := canvas + [Line(Point(x, y + UnderlineOffset), Point(x + textWidth, y + UnderlineOffset),
                                     props.penColor, ShapeLineWidth)];
          }
        }
      }
    }

    /** Pointer moved to canvas position (x, y).  `thrown` reports the
        repaint from an empty undo stack, which aborts the handler before it
        draws anything. */
    method MouseMove(x: int, y: int, props: Surface.Props) returns (thrown: bool)
      modifies this
      ensures thrown == Surface.MoveThrows(old(State()), props)
      ensures State() == Surface.MouseMove(old(State()), Point(x, y), props)
      ensures undoStack == old(undoStack) && redoStack == old(redoStack) && prevState == old(prevState)
      ensures isDrawing == old(isDrawing) && startX == old(startX) && startY == old(startY)
      ensures !old(isDrawing) || props.tool == Text ==> State() == old(State())
    {
      thrown := false;
      if !isDrawing || props.tool == Text {
        return;
      }
      var p := Point(x, y);
      if props.tool == Pen {
        canvas := canvas + [Line(Point(lastX, lastY), p, props.penColor, props.brushSize)];
        lastX, lastY := x, y;
      } else if props.tool == Eraser {
        canvas := canvas + [Line(Point(lastX, lastY), p, White, props.brushSize * 2)];
        lastX, lastY := x, y;
      } else if Drawing.IsPreviewTool(props.tool) {
        if |undoStack| == 0 {
          thrown := true;
          return;
        }
        canvas := undoStack[|undoStack| - 1];
        canvas := canvas + [Surface.ShapeFor(props.tool, Point(startX, startY), p, props.penColor)];
      }
    }

    /** Pointer released. */
    method MouseUp()
      modifies this
      ensures State() == Surface.MouseUp(old(State()))
      ensures !isDrawing && prevState == old(prevState) + [old(canvas)]
      ensures undoStack == old(undoStack) && redoStack == old(redoStack) && canvas == old(canvas)
    {
      isDrawing := false;
      var imageData := canvas;
      prevState := prevState + [imageData];
    }

    /** The effect that runs when eraseAll becomes the selected tool. */
    method EraseAll()
      modifies this
      ensures State() == Surface.EraseAll(old(State()))
      ensures canvas == Blank && prevState == [] && undoStack == [] && redoStack == []
      ensures isDrawing == old(isDrawing)
    {
      canvas := Blank;
      prevState := [];
      undoStack := [];
      redoStack := [];
    }

    /** Undo button: pop the undo stack in place, move the popped snapshot to
        the redo stack and paint the snapshot now on top (or the popped one
        when none is left). */
    method Undo()
      modifies this
      ensures State() == Surface.Undo(old(State()))
      ensures old(undoStack) == [] ==> State() == old(State())
      ensures old(undoStack) != [] ==>
        undoStack + [Surface.Last(old(undoStack))] == old(undoStack) &&
        redoStack == old(redoStack) + [Surface.Last(old(undoStack))] &&
        canvas == (if undoStack != [] then Surface.Last(undoStack) else Surface.Last(old(undoStack))) &&
        prevState == old(prevState) + [canvas]
    {
      if |undoStack| > 0 {
        var lastState := undoStack[|undoStack| - 1];
        undoStack := undoStack[..|undoStack| - 1];
        redoStack := redoStack + [lastState];
        var canvasSnapshot := if |undoStack| > 0 then undoStack[|undoStack| - 1] else lastState;
        prevState := prevState + [canvasSnapshot];
        canvas := canvasSnapshot;
      }
    }

    /** Redo button: pop the redo stack in place, push the snapshot onto the
        undo stack and paint it. */
    method Redo()
      modifies this
      ensures State() == Surface.Redo(old(State()))
      ensures old(redoStack) == [] ==> State() == old(State())
      ensures old(redoStack) != [] ==>
        redoStack + [Surface.Last(old(redoStack))] == old(redoStack) &&
        undoStack == old(undoStack) + [Surface.Last(old(redoStack))] &&
        canvas == Surface.Last(old(redoStack)) && prevState == old(prevState)
    {
      if |redoStack| > 0 {
        var nextState := redoStack[|redoStack| - 1];
        redoStack := redoStack[..|redoStack| - 1];
        undoStack := undoStack + [nextState];
        canvas := nextState;
      }
    }
  }

  /** A client of the class: a rectangle drag followed by undo and redo.
      The preview on the canvas is one rectangle over the pre-gesture
      snapshot, undo paints that snapshot, redo restores both lists. */
  method RectangleDragThenUndoRedo(props: Surface.Props)
    requires props.tool == Rectangle
  {
    var w := new Whiteboard();
    w.MouseDown(5, 5, props, None, 0);
    var thrown := w.MouseMove(20, 30, props);
    assert !thrown;
    thrown := w.MouseMove(40, 10, props);
    assert w.canvas == [StrokedRect(Point(5, 5), 35, 5, props.penColor, ShapeLineWidth)];
    w.MouseUp();
    assert w.undoStack == [Blank] && w.redoStack == [];
    var undone := w.undoStack;
    w.Undo();
    assert w.canvas == Blank && w.undoStack == [] && w.redoStack == [Blank];
    w.Redo();
    assert w.undoStack == undone && w.redoStack == [];
  }
}
