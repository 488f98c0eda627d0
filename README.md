# Whiteboard drawing surface and data-URL upload, in Dafny

This project models the two pieces of logic in the whiteboard client:

* the **drawing surface** of `Whiteboard.jsx`: a single-threaded event machine
  with a drawing flag, the last freehand point, the gesture anchor, three
  snapshot lists (`undoStack`, `redoStack` and the write-only `prevState`) and
  the canvas, driven by mouse-down, mouse-move, mouse-up, the eraseAll effect,
  undo and redo;
* **`dataUrlToBlob`** of `App.jsx`: splitting a `data:` URL into its MIME type
  and its base64 payload, decoding the payload with `atob` and copying the
  char codes into a byte array.

The canvas is abstract. A `Snapshot` is the sequence of primitives
(`Line`, `StrokedRect`, `StrokedCircle`, `ArrowShape`, `FilledText`) drawn on
a blank surface. Reading the pixels copies that value, writing them back
replaces it, and clearing the surface empties it.

Files:

* `drawing.dfy` (module `Drawing`): points, colours, text style, tools,
  primitives, and the constants: shape line width 2, arrow head length 10,
  underline offset 2, eraser colour `white`.
* `surface.dfy` (module `Surface`): the state as a `Board` value, one pure step
  function per event, and the lemmas about gestures and undo/redo runs.
* `whiteboard.dfy` (module `Whiteboard`): class `Whiteboard`, whose fields are the
  component's refs and state lists and whose methods are the event handlers.
  Every method updates the fields in place and is specified by the matching
  `Surface` function (`State() == Surface.Undo(old(State()))`) and, field by
  field, by what it changes. A client method, `RectangleDragThenUndoRedo`,
  uses only those contracts.
* `data_url.dfy` (module `DataUrl`): `split` on a one-character separator,
  JavaScript's out-of-range indexing (`undefined`), the MIME and payload
  extraction, and the byte-copy loop over an `array<Byte>`.
* `wrappers.dfy`: `Option`.

Events are sequential method calls. Each handler sees the state that the
previous one left, as it does once React has re-rendered. The toolbar's
settings (tool, pen colour, text settings, brush size) are passed with every
event as `Props`. The answer to the text prompt (`None` when it is cancelled)
and the measured text width are parameters. So is `atob`, as a function that
returns `None` where it throws.

## Behaviour worth knowing

* **A cancelled text prompt still records history.** Mouse-down pushes a
  snapshot and clears the redo stack before it prompts, so a text gesture whose
  prompt is cancelled or left empty draws nothing yet changes both lists
  (Whiteboard.jsx lines 28-34). See `CancelledTextStillPushesHistory`.
* **Undo paints the snapshot below the one it pops** (Whiteboard.jsx line 141).
  Undo then redo restores both lists (`UndoThenRedo`), but the canvas then
  shows the snapshot taken before the undone gesture, not the canvas as it was
  before the undo. After two gestures one undo shows the canvas from before the
  first of them (`UndoShowsSnapshotBelow`). For a black pen stroke from (10,10)
  to (50,10), undo and then redo leave the canvas blank (`PenStrokeUndoRedo`).
* **A text click leaves the drawing flag set** until mouse-up
  (Whiteboard.jsx line 19); moves in between do nothing only because the tool
  is `text` (line 54).
* **A preview move can throw.** A mouse-up outside the canvas leaves the
  drawing flag set. After that, an undo or eraseAll can empty `undoStack`, and
  the next rectangle, circle or arrow move repaints from `undefined`
  (Whiteboard.jsx line 81) and throws before it draws. `MouseMove` reports this
  as `thrown` and changes nothing (`Surface.MoveThrows`).
* **A header without ':' throws.** `split(':')[1]` is then `undefined`, and
  calling `split` on it throws a TypeError (App.jsx line 167). This is the
  `Err(TypeError)` result, not a precondition. A URL without ',' passes
  `undefined` to `atob` (line 166), which receives the string "undefined".

## Model

| member | source | states |
|---|---|---|
| `Whiteboard.Whiteboard.constructor` | ExacldrawFrontend/src/Whiteboard.jsx:5-12 | a new surface is idle, at (0,0), with a blank canvas and all three lists empty |
| `Whiteboard.Whiteboard.MouseDown` | ExacldrawFrontend/src/Whiteboard.jsx:18-51 | sets the drawing flag, the anchor and the last point to the pointer; appends the current canvas to `undoStack` and empties `redoStack` for every tool; `prevState` unchanged; the text tool adds the text marks, other tools draw nothing |
| `Whiteboard.Whiteboard.MouseMove` | ExacldrawFrontend/src/Whiteboard.jsx:53-101 | never changes the three lists, the drawing flag or the anchor; no effect when not drawing or with the text tool; `thrown` exactly when a preview tool finds `undoStack` empty; otherwise the canvas is as `Surface.MouseMove` says |
| `Whiteboard.Whiteboard.MouseUp` | ExacldrawFrontend/src/Whiteboard.jsx:103-107 | clears the drawing flag and appends the current canvas to `prevState`; `undoStack`, `redoStack` and canvas unchanged |
| `Whiteboard.Whiteboard.EraseAll` | ExacldrawFrontend/src/Whiteboard.jsx:120-129 | blank canvas and empty `prevState`, `undoStack` and `redoStack`; the drawing flag is untouched |
| `Whiteboard.Whiteboard.Undo` | ExacldrawFrontend/src/Whiteboard.jsx:137-147 | no-op on an empty `undoStack`; otherwise pops its top in place onto `redoStack`, paints the new top (or the popped snapshot when none is left) and appends what it paints to `prevState` |
| `Whiteboard.Whiteboard.Redo` | ExacldrawFrontend/src/Whiteboard.jsx:149-157 | no-op on an empty `redoStack`; otherwise pops its top in place onto `undoStack` and paints it; `prevState` unchanged |
| `Surface.MouseDown` | ExacldrawFrontend/src/Whiteboard.jsx:18-51 | the step function of mouse-down: sets the drawing flag, puts the anchor and last point at the pointer, the timeline becomes the old undo stack plus the pre-gesture canvas (the redo branch is discarded), `prevState` is kept, and the canvas only grows, and only with the text tool |
| `Surface.MoveThrows` | ExacldrawFrontend/src/Whiteboard.jsx:81 | no contract of its own: the condition under which the preview repaint reads past the empty undo stack; used by `Surface.MouseMove` and `Whiteboard.Whiteboard.MouseMove` |
| `Surface.MouseMove` | ExacldrawFrontend/src/Whiteboard.jsx:53-101 | the step function of mouse-move: the three lists, the drawing flag and the anchor are unchanged, and a move that throws changes nothing |
| `Surface.MouseUp` | ExacldrawFrontend/src/Whiteboard.jsx:103-107 | the step function of mouse-up: ends idle, keeps the canvas and the timeline, and appends the canvas to `prevState` |
| `Surface.EraseAll` | ExacldrawFrontend/src/Whiteboard.jsx:120-129 | the step function of the eraseAll effect: blank canvas, empty `prevState` and an empty timeline; the drawing flag is kept |
| `Surface.TextMarks` | ExacldrawFrontend/src/Whiteboard.jsx:32-49 | nothing is drawn exactly when the prompt answer is missing or empty; otherwise the text at the pointer in the pen colour, followed, exactly when underline is chosen, by a horizontal rule 2 px below, as long as the measured width |
| `Surface.ShapeFor` | ExacldrawFrontend/src/Whiteboard.jsx:80-99 | a preview shape has the pen colour and width 2; the rectangle runs from the anchor to the pointer; the circle is centred at the anchor with radius² equal to the squared distance to the pointer; the arrow runs from the anchor to the pointer with head length 10 |
| `Surface.Undo` | ExacldrawFrontend/src/Whiteboard.jsx:137-147 | undo keeps the timeline (`undoStack` followed by the reversed `redoStack`) and shortens `undoStack` by one unless it is empty |
| `Surface.Redo` | ExacldrawFrontend/src/Whiteboard.jsx:149-157 | redo keeps the timeline and shortens `redoStack` by one unless it is empty |
| `Surface.MovesKeepHistory` | ExacldrawFrontend/src/Whiteboard.jsx:53-101 | any run of moves leaves the three lists, the drawing flag and the anchor unchanged |
| `Surface.IdleMovesAreNoOps` | ExacldrawFrontend/src/Whiteboard.jsx:54 | any run of moves while not drawing, or with the text or eraseAll tool, changes nothing |
| `Surface.FreehandDragTracesPolyline` | ExacldrawFrontend/src/Whiteboard.jsx:63-79 | a pen or eraser drag appends one segment per move, from the last point through each point in order (pen colour and brush size, or white and twice the brush size), and the last point ends at the last move |
| `Surface.PreviewDragShowsOneShape` | ExacldrawFrontend/src/Whiteboard.jsx:80-99 | after any non-empty rectangle, circle or arrow drag the canvas is the top of `undoStack` plus exactly one shape, for the latest point |
| `Surface.GesturePushesOneSnapshot` | ExacldrawFrontend/src/Whiteboard.jsx:18-107 | a whole press-drag-release pushes the pre-gesture canvas onto `undoStack`, empties `redoStack`, ends idle and appends the resulting canvas to `prevState` |
| `Surface.CancelledTextStillPushesHistory` | ExacldrawFrontend/src/Whiteboard.jsx:28-34 | a text gesture with a cancelled or empty prompt leaves the canvas as it was, yet still pushes a snapshot and empties `redoStack` |
| `Surface.GesturesOnlyPush` | ExacldrawFrontend/src/Whiteboard.jsx:28-30 | a run of gestures keeps the old `undoStack` as a prefix and adds one snapshot per gesture, the first being the starting canvas; `redoStack` ends empty |
| `Surface.UndoAll` | ExacldrawFrontend/src/Whiteboard.jsx:137-147 | as many undos as `undoStack` is deep empty it, move its snapshots onto `redoStack` newest first and paint the oldest one |
| `Surface.StrokesThenUndosRestoreBlank` | ExacldrawFrontend/src/Whiteboard.jsx:137-147 | N gestures on a fresh surface then N undos give the blank canvas, an empty `undoStack` and N snapshots on `redoStack` |
| `Surface.UndoThenRedo` | ExacldrawFrontend/src/Whiteboard.jsx:137-157 | undo then redo restores both lists, and the canvas shows the top of the original `undoStack` |
| `Surface.RedoThenUndo` | ExacldrawFrontend/src/Whiteboard.jsx:137-157 | redo then undo restores both lists |
| `Surface.UndoShowsSnapshotBelow` | ExacldrawFrontend/src/Whiteboard.jsx:139-145 | after two gestures one undo paints the canvas from before the first of them, and a following redo paints the canvas between the two |
| `Surface.UndoTimesKeepsTimeline` | ExacldrawFrontend/src/Whiteboard.jsx:137-147 | any number of undos keeps the timeline |
| `Surface.EraseAllForgetsHistory` | ExacldrawFrontend/src/Whiteboard.jsx:120-157 | after eraseAll any number of undos, and a redo, change nothing |
| `Surface.PenStrokeUndoRedo` | ExacldrawFrontend/src/Whiteboard.jsx:137-157 | a black 5-px pen stroke from (10,10) to (50,10) draws that one line; undo gives the blank canvas, and redo gives the blank canvas again, not the line |
| `Surface.PrevStateIsNeverRead` | ExacldrawFrontend/src/Whiteboard.jsx:10-157 | boards that differ only in `prevState` stay so under all six operations: nothing reads `prevState` |
| `DataUrl.PrefixBefore` | ExacldrawFrontend/src/App.jsx:166-167 | the result is the longest prefix without the separator: it is a prefix, holds no separator, and is followed by one unless it is the whole string |
| `DataUrl.Split` | ExacldrawFrontend/src/App.jsx:166-167 | `split` gives at least one field, none holds the separator, there are two or more exactly when the separator occurs, the first field is the text before the first separator and the second the text up to the next one |
| `DataUrl.JoinSplit` | ExacldrawFrontend/src/App.jsx:166-167 | joining the fields of a split with the separator gives back the string |
| `DataUrl.Field` | ExacldrawFrontend/src/App.jsx:166-167 | indexing a split result gives `parts[i]` below its length and `undefined` beyond |
| `DataUrl.Payload` | ExacldrawFrontend/src/App.jsx:166 | `dataUrl.split(',')[1]` is defined exactly when the URL holds a ',' and never holds one |
| `DataUrl.AtobArgument` | ExacldrawFrontend/src/App.jsx:166 | no contract of its own: what `atob` receives, the payload or "undefined"; stated by `DataUrl.PayloadIsSecondField` |
| `DataUrl.MimeOfHeader` | ExacldrawFrontend/src/App.jsx:167 | `header.split(':')[1].split(';')[0]` is defined exactly when the header holds a ':', and then holds neither ';' nor ':' |
| `DataUrl.MimeType` | ExacldrawFrontend/src/App.jsx:167 | no contract of its own: `MimeOfHeader` applied to the text before the first ','; stated by `DataUrl.MimeAfterFirstColon` and `DataUrl.ParseBuiltDataUrl` |
| `DataUrl.CharCode` | ExacldrawFrontend/src/App.jsx:171 | storing a char code in a Uint8Array keeps it modulo 256: codes below 256 are kept as they are |
| `DataUrl.CopyCharCodes` | ExacldrawFrontend/src/App.jsx:168-172 | the copy loop over the byte array gives one byte per decoded char, byte i being char i's code modulo 256 |
| `DataUrl.ToBlob` | ExacldrawFrontend/src/App.jsx:165-174 | what dataUrlToBlob returns or throws: InvalidCharacterError exactly when `atob` rejects its argument, TypeError exactly when `atob` accepts it and the header has no ':', and otherwise the MIME type with one byte per decoded char |
| `DataUrl.DataUrlToBlob` | ExacldrawFrontend/src/App.jsx:165-174 | equals `ToBlob`; fails with InvalidCharacterError exactly when `atob` rejects the payload, and with TypeError exactly when `atob` accepts it and the header has no ':'; otherwise the blob's type is the MIME type, it has one byte per decoded char, and byte i is char i's code modulo 256 |
| `DataUrl.MimeAfterFirstColon` | ExacldrawFrontend/src/App.jsx:167 | for a header holding a ':', the MIME type is the text right after the header's first ':', free of ';' and ':', and ends at a ';', a ':' or the end of the header |
| `DataUrl.PayloadIsSecondField` | ExacldrawFrontend/src/App.jsx:166 | the payload is defined exactly when the URL holds a ','; it is then the text between the first ',' and the next ',' or the end; without a ',' `atob` receives "undefined" |
| `DataUrl.ParseBuiltDataUrl` | ExacldrawFrontend/src/App.jsx:166-167 | `data:<type>;<params>,<payload>` parses back to MIME type <type> and payload <payload> when the parts hold no separator that would end them early |

## Left out

* Pixels: the rasteriser, the pixel contents behind `getImageData` and `putImageData`, and `clearRect`'s transparent pixels are not modelled. A snapshot is the list of primitives drawn since the surface was blank.
* `handleSave` (Whiteboard.jsx lines 131-135): `toDataURL('image/png')` is a foreign canvas call and is not modelled. It only reads the canvas.
* Arrow barbs and the circle's radius: the `atan2`/`cos`/`sin` barb ends and `Math.sqrt` use floating point. The arrow is recorded by its end points and head length, and the circle by its radius squared.
* Text rendering: the font string and `measureText` are not modelled. The text's style is recorded as given, and the measured width is a parameter.
* Canvas context state that persists between strokes (`lineCap`, and `lineWidth` or `strokeStyle` left over from an earlier stroke) is not modelled. A primitive records only its own colour and width.
* Coordinates: `clientX - rect.left` is not modelled. Events carry canvas-relative integer coordinates, so fractional pointer positions are not covered.
* React: state batching, stale handler closures, registering and removing listeners, and the 0-ms timeout in `handleEraseAll` (App.jsx lines 43-46) that resets the tool to `pen` are not modelled. Events are sequential calls, and the eraseAll effect is the `EraseAll` method.
* `atob` is not modelled: forgiving base64 decoding is passed in as a function.
* The `Blob` constructor's handling of the type string (lower-casing, and discarding types with characters outside U+0020-U+007E) is not modelled. The blob carries the extracted MIME type unchanged.
* `charCodeAt` gives UTF-16 code units; Dafny's `char` is a Unicode scalar value. `CharCode` reduces it modulo 256 as a Uint8Array store does. `atob` only produces chars below 256, where the two agree.
* Network and storage in App.jsx (axios calls, `localStorage`, the drawing-name prompt, sign-in state) are not modelled: they are I/O.
* DrawingTools.jsx, SignUpSignIn.jsx and SavedDrawings.jsx are not part of this model. They are forms and buttons with no algorithm. The brush-size slider only supplies `brushSize`.
