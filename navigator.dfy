// The drawing canvas of the later edition (include/Navigator.h,
// src/Navigator.cpp): mouse events are buffered as they arrive and
// handled once per frame; a left click on empty space with the line tool
// starts a line preview, and the next one finishes it and hands the line
// to the sketch file.
//
// Screen-to-workspace conversion and grid snapping are floating-point
// geometry and come in as functions; the zoom arithmetic, the grid and
// the drawing are not modelled. The sketch file's `AddShape` is not part
// of this model: the lines handed to it are recorded in order.

module NavigatorModel {
  import opened Wrappers
  import opened Geometry

  /** `CursorTool`. */
  datatype CursorTool = SelectTool | LineTool | LineStripTool

  /** `ShapeType`, as the kind of the shape being previewed. */
  datatype ShapeType = Invalid | LineShape | CircleShape

  /** A line handed to the sketch file: its end points and thickness. */
  datatype AddedLine = AddedLine(p1: Vec2, p2: Vec2, thickness: real)

  /** A mouse button event: screen position and the button bit mask. */
  datatype ButtonEvent = ButtonEvent(x: real, y: real, button: nat)

  /** A mouse move event: screen position. */
  datatype MoveEvent = MoveEvent(x: real, y: real)

  /** The events the canvas receives. */
  datatype Event =
    | MouseScrolled(dx: real, dy: real)
    | MouseButtonPressed(press: ButtonEvent)
    | MouseButtonReleased(release: ButtonEvent)
    | MouseMoved(move: MoveEvent)
    | OtherEvent

  /** `button & 0x01`: the left button. */
  function IsLeft(button: nat): bool
  {
    button % 2 == 1
  }

  /**
   * The part of the canvas a click on empty space changes: the previewed
   * shape and its two points, and the lines handed to the file so far.
   */
  datatype Sketch = Sketch(shape: ShapeType, p1: Vec2, p2: Vec2, lines: seq<AddedLine>)

  /** `AddLine`: a line whose end points coincide is not added. */
  function AddLine(lines: seq<AddedLine>, p1: Vec2, p2: Vec2, thickness: real): (r: seq<AddedLine>)
  {
    if p1 == p2 then lines else lines + [AddedLine(p1, p2, thickness)]
  }

  /**
   * `OnMouseLeftClicked`: with nothing hovered it is a click on empty
   * space, which only the line tool acts on: without a preview it starts
   * a line at the point; with a line preview it adds the line to the
   * point; with any preview it ends the preview.
   */
  function LeftClick(tool: CursorTool, hovered: int, thickness: real, s: Sketch, snapped: Vec2): (r: Sketch)
    ensures r.lines == s.lines || r.lines == s.lines + [AddedLine(s.p1, snapped, thickness)]
    ensures r.lines != s.lines ==>
      tool == LineTool && hovered == -1 && s.shape == LineShape && s.p1 != snapped && r.shape == Invalid
    ensures r.shape == LineShape ==> s.shape == LineShape || (tool == LineTool && hovered == -1)
  {
    if hovered != -1 || tool != LineTool then s
    else if s.shape == Invalid then s.(shape := LineShape, p1 := snapped, p2 := snapped)
    else if s.shape == LineShape then s.(shape := Invalid, lines := AddLine(s.lines, s.p1, snapped, thickness))
    else s.(shape := Invalid)
  }

  /** The snapped workspace position of a screen point: exact while CTRL is held. */
  function Snapped(x: real, y: real, toWorkspace: (real, real) -> Vec2, snap: Vec2 -> Vec2, ctrl: bool): Vec2
  {
    var p := toWorkspace(x, y);
    if ctrl then p else snap(p)
  }

  /**
   * The effect of a frame's buffered button presses, in order: the left
   * ones are clicks, the others are handled by empty handlers. Lines are
   * only ever appended, none of them has coinciding end points, and the
   * preview is never a circle unless it was one.
   */
  function Presses(tool: CursorTool, hovered: int, thickness: real, s: Sketch, events: seq<ButtonEvent>,
                   toWorkspace: (real, real) -> Vec2, snap: Vec2 -> Vec2, ctrl: bool): (r: Sketch)
    ensures |r.lines| >= |s.lines| && r.lines[..|s.lines|] == s.lines
    ensures forall i :: |s.lines| <= i < |r.lines| ==> r.lines[i].p1 != r.lines[i].p2
    ensures s.shape != CircleShape ==> r.shape != CircleShape
  {
    if events == [] then s
    else
      var prev := Presses(tool, hovered, thickness, s, events[..|events| - 1], toWorkspace, snap, ctrl);
      var e := events[|events| - 1];
      if IsLeft(e.button) then LeftClick(tool, hovered, thickness, prev, Snapped(e.x, e.y, toWorkspace, snap, ctrl))
      else prev
  }

  /**
   * Two clicks on empty space with the line tool and no preview: the
   * first starts a line, the second adds it (unless the points coincide)
   * and leaves no preview.
   */
  lemma TwoClicksAddLine(hovered: int, thickness: real, s: Sketch, a: Vec2, b: Vec2)
    requires hovered == -1 && s.shape == Invalid
    ensures var r := LeftClick(LineTool, hovered, thickness, LeftClick(LineTool, hovered, thickness, s, a), b);
      r.shape == Invalid && r.lines == (if a == b then s.lines else s.lines + [AddedLine(a, b, thickness)])
  {
  }

  /** Every tool but the line tool, and a hovered shape, leave the sketch as it is. */
  lemma {:induction false} PressesWithoutLineTool(tool: CursorTool, hovered: int, thickness: real, s: Sketch,
                                                  events: seq<ButtonEvent>, toWorkspace: (real, real) -> Vec2,
                                                  snap: Vec2 -> Vec2, ctrl: bool)
    requires tool != LineTool || hovered != -1
    ensures Presses(tool, hovered, thickness, s, events, toWorkspace, snap, ctrl) == s
  {
    if events != [] {
      PressesWithoutLineTool(tool, hovered, thickness, s, events[..|events| - 1], toWorkspace, snap, ctrl);
    }
  }

  class Navigator {
    var selectedTool: CursorTool
    var previewShape: ShapeType
    var previewShapePoint1: Vec2
    var previewShapePoint2: Vec2
    var previewPointPosition: Vec2
    var previewPointShown: bool
    var mouseSnapped: Vec2
    var hoveredShape: int
    var currentLineThickness: real
    var selectedShapes: seq<int>
    var scrollBuffer: real
    var pressedBuffer: seq<ButtonEvent>
    var releasedBuffer: seq<ButtonEvent>
    var movedBuffer: seq<MoveEvent>
    /** The lines handed to `file.AddShape`, in order. */
    var addedLines: seq<AddedLine>

    /** The sketch part of the canvas. */
    function Current(): (r: Sketch)
      reads this
      ensures r.shape == previewShape && r.lines == addedLines
    {
      Sketch(previewShape, previewShapePoint1, previewShapePoint2, addedLines)
    }

    /** The member initialisers of `Navigator`. */
    constructor ()
      ensures selectedTool == SelectTool && previewShape == Invalid && !previewPointShown
      ensures hoveredShape == -1 && currentLineThickness == 5.0 && selectedShapes == []
      ensures scrollBuffer == 0.0 && pressedBuffer == [] && releasedBuffer == [] && movedBuffer == []
      ensures addedLines == []
    {
      selectedTool := SelectTool;
      previewShape := Invalid;
      previewShapePoint1, previewShapePoint2 := Vec2(0.0, 0.0), Vec2(0.0, 0.0);
      previewPointPosition := Vec2(0.0, 0.0);
      previewPointShown := false;
      mouseSnapped := Vec2(0.0, 0.0);
      hoveredShape := -1;
      currentLineThickness := 5.0;
      selectedShapes := [];
      scrollBuffer := 0.0;
      pressedBuffer, releasedBuffer, movedBuffer := [], [], [];
      addedLines := [];
    }

    /** `OnAttach`: the select tool is taken up, which shows the preview point. */
    method OnAttach()
      modifies this`selectedTool, this`previewPointShown
      ensures selectedTool == SelectTool && previewPointShown
      ensures Current() == old(Current())
    {
      UseTool(SelectTool);
    }

    /**
     * `OnEvent`: mouse events are buffered by kind and marked handled;
     * scroll deltas accumulate; other events are left alone.
     */
    method OnEvent(e: Event) returns (handled: bool)
      modifies this`scrollBuffer, this`pressedBuffer, this`releasedBuffer, this`movedBuffer
      ensures handled <==> !e.OtherEvent?
      ensures scrollBuffer == old(scrollBuffer) + (if e.MouseScrolled? then e.dx + e.dy else 0.0)
      ensures pressedBuffer == old(pressedBuffer) + (if e.MouseButtonPressed? then [e.press] else [])
      ensures releasedBuffer == old(releasedBuffer) + (if e.MouseButtonReleased? then [e.release] else [])
      ensures movedBuffer == old(movedBuffer) + (if e.MouseMoved? then [e.move] else [])
      ensures Current() == old(Current()) && previewPointPosition == old(previewPointPosition)
    {
      match e
      case MouseScrolled(dx, dy) =>
        scrollBuffer := scrollBuffer + dx + dy;
        handled := true;
      case MouseButtonPressed(ev) =>
        pressedBuffer := pressedBuffer + [ev];
        handled := true;
      case MouseButtonReleased(ev) =>
        releasedBuffer := releasedBuffer + [ev];
        handled := true;
      case MouseMoved(ev) =>
        movedBuffer := movedBuffer + [ev];
        handled := true;
      case OtherEvent =>
        handled := false;
    }

    /** `IsShapeSelected`. */
    method IsShapeSelected(id: int) returns (r: bool)
      ensures r <==> id in selectedShapes
    {
      for i := 0 to |selectedShapes|
        invariant id !in selectedShapes[..i]
      {
        assert selectedShapes[..i + 1] == selectedShapes[..i] + [selectedShapes[i]];
        if selectedShapes[i] == id {
          return true;
        }
      }
      assert selectedShapes[..|selectedShapes|] == selectedShapes;
      return false;
    }

    /** `UseTool`: the tool is selected and `OnToolChanged` runs. */
    method UseTool(tool: CursorTool)
      modifies this`selectedTool, this`previewPointShown
      ensures selectedTool == tool
      ensures tool == SelectTool ==> previewPointShown
      ensures tool == LineTool ==> !previewPointShown
      ensures tool == LineStripTool ==> previewPointShown == old(previewPointShown)
      ensures Current() == old(Current())
    {
      selectedTool := tool;
      OnToolChanged();
    }

    /**
     * `OnToolChanged`: the preview point is shown for the select tool and
     * hidden for the line tool; the line-strip tool leaves it as it is.
     * (`CancelShape` only logs.)
     */
    method OnToolChanged()
      modifies this`previewPointShown
      ensures selectedTool == SelectTool ==> previewPointShown
      ensures selectedTool == LineTool ==> !previewPointShown
      ensures selectedTool == LineStripTool ==> previewPointShown == old(previewPointShown)
      ensures selectedTool == old(selectedTool) && Current() == old(Current())
    {
      match selectedTool
      case SelectTool => previewPointShown := true;
      case LineTool => previewPointShown := false;
      case LineStripTool =>
    }

    /** `AddLine`: the line goes to the file unless its end points coincide. */
    method AddLineTo(p1: Vec2, p2: Vec2)
      modifies this`addedLines
      ensures addedLines == AddLine(old(addedLines), p1, p2, currentLineThickness)
      ensures p1 == p2 ==> addedLines == old(addedLines)
      ensures selectedTool == old(selectedTool) && previewShape == old(previewShape) && previewShapePoint1 == old(previewShapePoint1)
      ensures previewShapePoint2 == old(previewShapePoint2) && previewPointPosition == old(previewPointPosition) && previewPointShown == old(previewPointShown)
      ensures mouseSnapped == old(mouseSnapped) && hoveredShape == old(hoveredShape) && currentLineThickness == old(currentLineThickness)
      ensures selectedShapes == old(selectedShapes) && scrollBuffer == old(scrollBuffer) && pressedBuffer == old(pressedBuffer)
      ensures releasedBuffer == old(releasedBuffer) && movedBuffer == old(movedBuffer)
    {
      if p1 == p2 {
        return;
      }
      addedLines := addedLines + [AddedLine(p1, p2, currentLineThickness)];
    }

    /** `OnSpaceClicked`: the line tool starts or finishes a line preview; other tools do nothing. */
    method OnSpaceClicked(snapped: Vec2)
      modifies this`previewShape, this`previewShapePoint1, this`previewShapePoint2, this`addedLines
      ensures Current() == LeftClick(selectedTool, -1, currentLineThickness, old(Current()), snapped)
      ensures old(selectedTool) == LineTool && old(previewShape) != Invalid ==> previewShape == Invalid
      ensures selectedTool == old(selectedTool) && previewPointPosition == old(previewPointPosition) && previewPointShown == old(previewPointShown)
      ensures mouseSnapped == old(mouseSnapped) && hoveredShape == old(hoveredShape) && currentLineThickness == old(currentLineThickness)
      ensures selectedShapes == old(selectedShapes) && scrollBuffer == old(scrollBuffer) && pressedBuffer == old(pressedBuffer)
      ensures releasedBuffer == old(releasedBuffer) && movedBuffer == old(movedBuffer)
    {
      match selectedTool
      case SelectTool =>
      case LineTool =>
        if previewShape == Invalid {
          previewShape := LineShape;
          previewShapePoint1 := snapped;
          previewShapePoint2 := snapped;
        } else {
          if previewShape == LineShape {
            AddLineTo(previewShapePoint1, snapped);
          }
          previewShape := Invalid;
        }
      case LineStripTool =>
    }

    /** `OnMouseLeftClicked`: a click on empty space when no shape is hovered. */
    method OnMouseLeftClicked(snapped: Vec2)
      modifies this`previewShape, this`previewShapePoint1, this`previewShapePoint2, this`addedLines
      ensures Current() == LeftClick(selectedTool, hoveredShape, currentLineThickness, old(Current()), snapped)
      ensures selectedTool == old(selectedTool) && previewPointPosition == old(previewPointPosition) && previewPointShown == old(previewPointShown)
      ensures mouseSnapped == old(mouseSnapped) && hoveredShape == old(hoveredShape) && currentLineThickness == old(currentLineThickness)
      ensures selectedShapes == old(selectedShapes) && scrollBuffer == old(scrollBuffer) && pressedBuffer == old(pressedBuffer)
      ensures releasedBuffer == old(releasedBuffer) && movedBuffer == old(movedBuffer)
    {
      if hoveredShape == -1 {
        OnSpaceClicked(snapped);
      }
    }

    /** `OnMouseHovered`: the preview point follows the frame's snapped mouse, the preview's end the event's. */
    method OnMouseHovered(snapped: Vec2)
      modifies this`previewPointPosition, this`previewShapePoint2
      ensures previewPointPosition == mouseSnapped && previewShapePoint2 == snapped
      ensures selectedTool == old(selectedTool) && previewShape == old(previewShape) && previewShapePoint1 == old(previewShapePoint1)
      ensures previewPointShown == old(previewPointShown) && mouseSnapped == old(mouseSnapped) && hoveredShape == old(hoveredShape)
      ensures currentLineThickness == old(currentLineThickness) && selectedShapes == old(selectedShapes) && scrollBuffer == old(scrollBuffer)
      ensures pressedBuffer == old(pressedBuffer) && releasedBuffer == old(releasedBuffer) && movedBuffer == old(movedBuffer)
      ensures addedLines == old(addedLines)
    {
      previewPointPosition := mouseSnapped;
      previewShapePoint2 := snapped;
    }

    /**
     * `UpdateEvents`: the pressed, released and moved buffers are handled
     * in that order and emptied. Presses act as `Presses` says; releases
     * only cancel, which logs; a move with the left button down is a drag,
     * which does nothing, otherwise a hover.
     */
    method UpdateEvents(toWorkspace: (real, real) -> Vec2, snap: Vec2 -> Vec2, ctrl: bool, leftDown: bool)
      modifies this`previewShape, this`previewShapePoint1, this`previewShapePoint2, this`addedLines,
        this`previewPointPosition, this`pressedBuffer, this`releasedBuffer, this`movedBuffer
      ensures pressedBuffer == [] && releasedBuffer == [] && movedBuffer == []
      ensures var pressed := Presses(old(selectedTool), old(hoveredShape), old(currentLineThickness), old(Current()),
                                     old(pressedBuffer), toWorkspace, snap, ctrl);
        var moves := old(movedBuffer);
        previewShape == pressed.shape && previewShapePoint1 == pressed.p1 && addedLines == pressed.lines
        && previewShapePoint2 == (if leftDown || moves == [] then pressed.p2
                                  else Snapped(moves[|moves| - 1].x, moves[|moves| - 1].y, toWorkspace, snap, ctrl))
        && previewPointPosition == (if leftDown || moves == [] then old(previewPointPosition) else old(mouseSnapped))
      ensures selectedTool == old(selectedTool) && hoveredShape == old(hoveredShape)
      ensures scrollBuffer == old(scrollBuffer) && mouseSnapped == old(mouseSnapped)
    {
      HandlePresses(toWorkspace, snap, ctrl);
      releasedBuffer := [];
      HandleMoves(toWorkspace, snap, ctrl, leftDown);
    }

    /** The pressed-button loop of `UpdateEvents`: each left press in turn, then the buffer emptied. */
    method HandlePresses(toWorkspace: (real, real) -> Vec2, snap: Vec2 -> Vec2, ctrl: bool)
      modifies this`previewShape, this`previewShapePoint1, this`previewShapePoint2, this`addedLines, this`pressedBuffer
      ensures Current() == Presses(old(selectedTool), old(hoveredShape), old(currentLineThickness), old(Current()),
                                   old(pressedBuffer), toWorkspace, snap, ctrl)
      ensures pressedBuffer == []
      ensures selectedTool == old(selectedTool) && hoveredShape == old(hoveredShape)
      ensures currentLineThickness == old(currentLineThickness) && previewPointPosition == old(previewPointPosition)
      ensures scrollBuffer == old(scrollBuffer) && mouseSnapped == old(mouseSnapped)
      ensures releasedBuffer == old(releasedBuffer) && movedBuffer == old(movedBuffer)
    {
      var presses := pressedBuffer;
      for i := 0 to |presses|
        invariant Current() == Presses(old(selectedTool), old(hoveredShape), old(currentLineThickness), old(Current()),
                                       presses[..i], toWorkspace, snap, ctrl)
        invariant selectedTool == old(selectedTool) && hoveredShape == old(hoveredShape)
        invariant currentLineThickness == old(currentLineThickness) && previewPointPosition == old(previewPointPosition)
        invariant scrollBuffer == old(scrollBuffer) && mouseSnapped == old(mouseSnapped)
        invariant releasedBuffer == old(releasedBuffer) && movedBuffer == old(movedBuffer)
      {
        assert presses[..i + 1][..i] == presses[..i];
        var e := presses[i];
        var snapped := Snapped(e.x, e.y, toWorkspace, snap, ctrl);
        if IsLeft(e.button) {
          OnMouseLeftClicked(snapped);
        }
      }
      assert presses[..|presses|] == presses;
      pressedBuffer := [];
    }

    /**
     * The moved-mouse loop of `UpdateEvents`: with the left button up every
     * move is a hover, so the last one decides; then the buffer is emptied.
     */
    method HandleMoves(toWorkspace: (real, real) -> Vec2, snap: Vec2 -> Vec2, ctrl: bool, leftDown: bool)
      modifies this`previewPointPosition, this`previewShapePoint2, this`movedBuffer
      ensures movedBuffer == []
      ensures var moves := old(movedBuffer);
        previewShapePoint2 == (if leftDown || moves == [] then old(previewShapePoint2)
                               else Snapped(moves[|moves| - 1].x, moves[|moves| - 1].y, toWorkspace, snap, ctrl))
        && previewPointPosition == (if leftDown || moves == [] then old(previewPointPosition) else old(mouseSnapped))
      ensures previewShape == old(previewShape) && previewShapePoint1 == old(previewShapePoint1) && addedLines == old(addedLines)
      ensures selectedTool == old(selectedTool) && hoveredShape == old(hoveredShape)
      ensures scrollBuffer == old(scrollBuffer) && mouseSnapped == old(mouseSnapped)
      ensures pressedBuffer == old(pressedBuffer) && releasedBuffer == old(releasedBuffer)
    {
      var moves := movedBuffer;
      for i := 0 to |moves|
        invariant previewShape == old(previewShape) && previewShapePoint1 == old(previewShapePoint1)
        invariant addedLines == old(addedLines)
        invariant previewShapePoint2 == (if leftDown || i == 0 then old(previewShapePoint2)
                                         else Snapped(moves[i - 1].x, moves[i - 1].y, toWorkspace, snap, ctrl))
        invariant previewPointPosition == (if leftDown || i == 0 then old(previewPointPosition) else old(mouseSnapped))
        invariant selectedTool == old(selectedTool) && hoveredShape == old(hoveredShape)
        invariant scrollBuffer == old(scrollBuffer) && mouseSnapped == old(mouseSnapped)
        invariant pressedBuffer == old(pressedBuffer) && releasedBuffer == old(releasedBuffer)
      {
        var e := moves[i];
        var snapped := Snapped(e.x, e.y, toWorkspace, snap, ctrl);
        if !leftDown {
          OnMouseHovered(snapped);
        }
      }
      movedBuffer := [];
    }

    /**
     * `OnUpdate`, without the zoom arithmetic: the snapped mouse position
     * is taken for the frame, a non-zero scroll total is handed on
     * (returned here) and reset, and the buffered events are handled.
     */
    method OnUpdate(mouse: Vec2, toWorkspace: (real, real) -> Vec2, snap: Vec2 -> Vec2, ctrl: bool, leftDown: bool)
      returns (zoom: Option<real>)
      modifies this`mouseSnapped, this`scrollBuffer, this`previewShape, this`previewShapePoint1, this`previewShapePoint2,
        this`addedLines, this`previewPointPosition, this`pressedBuffer, this`releasedBuffer, this`movedBuffer
      ensures mouseSnapped == Snapped(mouse.x, mouse.y, toWorkspace, snap, ctrl)
      ensures zoom == (if old(scrollBuffer) != 0.0 then Some(old(scrollBuffer)) else None)
      ensures scrollBuffer == 0.0
      ensures pressedBuffer == [] && releasedBuffer == [] && movedBuffer == []
      ensures var pressed := Presses(old(selectedTool), old(hoveredShape), old(currentLineThickness), old(Current()),
                                     old(pressedBuffer), toWorkspace, snap, ctrl);
        var moves := old(movedBuffer);
        previewShape == pressed.shape && previewShapePoint1 == pressed.p1 && addedLines == pressed.lines
        && previewShapePoint2 == (if leftDown || moves == [] then pressed.p2
                                  else Snapped(moves[|moves| - 1].x, moves[|moves| - 1].y, toWorkspace, snap, ctrl))
        && previewPointPosition == (if leftDown || moves == [] then old(previewPointPosition) else mouseSnapped)
    {
      mouseSnapped := Snapped(mouse.x, mouse.y, toWorkspace, snap, ctrl);
      zoom := None;
      if scrollBuffer != 0.0 {
        zoom := Some(scrollBuffer);
        scrollBuffer := 0.0;
      }
      UpdateEvents(toWorkspace, snap, ctrl, leftDown);
    }
  }
}
