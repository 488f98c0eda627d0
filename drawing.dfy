/** The vocabulary of the drawing surface: points, colours, text style,
    the tools of the toolbar and the primitives that a canvas holds.

    The canvas is abstract: instead of a grid of pixels, a Snapshot is the
    sequence of primitives drawn on a blank surface, oldest first.  Reading
    the pixels (`getImageData`) copies that value, writing them back
    (`putImageData`) replaces it, and `clearRect` over the whole surface
    empties it. */
module Drawing {

  /** A canvas-relative pointer position, in pixels. */
  datatype Point = Point(x: int, y: int)

  /** A CSS colour string as the toolbar supplies it (for example "#000000"). */
  type Color = string

  /** The colour the eraser strokes with. */
  const White: Color := "white"

  /** Line width of every shape and of the text underline. */
  const ShapeLineWidth := 2

  /** Length of each barb of an arrow head. */
  const ArrowHeadLength := 10

  /** Vertical offset of the text underline below the baseline. */
  const UnderlineOffset := 2

  /** The text style chosen in the toolbar. */
  datatype TextSettings = TextSettings(
    fontSize: int,
    fontWeight: string,
    fontStyle: string,
    textDecoration: string,
    fontFamily: string)

  /** The tools the toolbar can select. */
  datatype Tool = Pen | Eraser | Rectangle | Circle | Arrow | Text | EraseAll

  /** The tools whose drag is redrawn from a clean base on every move. */
  predicate IsPreviewTool(t: Tool) {
    t == Rectangle || t == Circle || t == Arrow
  }

  /** One stroke or fill on the canvas. */
  datatype Primitive =
    | Line(from: Point, to: Point, color: Color, width: int)
    | StrokedRect(corner: Point, w: int, h: int, color: Color, width: int)
      // The circle keeps the square of its radius: the radius itself is a
      // floating-point square root.
    | StrokedCircle(center: Point, radiusSquared: int, color: Color, width: int)
      // A main line plus two barbs of length headLength at `to`, turned
      // thirty degrees either side of the reverse direction.
    | ArrowShape(from: Point, to: Point, headLength: int, color: Color, width: int)
    | FilledText(text: string, at: Point, color: Color, style: TextSettings)

  /** The full contents of the canvas at one instant. */
  type Snapshot = seq<Primitive>

  /** A freshly mounted canvas. */
  const Blank: Snapshot := []
}
