// The editing logic of the Allegro `Application` (Application_logic.cpp):
// the tool state, the line being drawn, hovering and the shape selection,
// over the layer list with its selected layer id.
//
// The mouse position in the workspace (already converted and snapped), the
// distance of the mouse to a shape on the screen and the Ctrl key are
// inputs; panning, previews and logging are not part of this model.

module AllegroApplication {
  import opened Wrappers
  import opened Geometry
  import opened TinyString
  import opened Decimal
  import opened AllegroLayer
  import opened AllegroLayerList
  import AllegroEngineModel
  import SelectionModel

  /** `CursorTool`. */
  const ToolSelect: int := 0
  const ToolLine: int := 1
  const ToolLineStrip: int := 2

  /** `ShapeID(-1)`: no shape. */
  const NoShape: nat := Npos

  /** `highlightDistanceToMouse`, in screen pixels. */
  const HighlightDistance: real := 8.0

  /** A line close enough to the mouse to be hovered. */
  predicate Within(s: Shape, dist: Shape -> real)
  {
    s.kind == ShapeLine && dist(s) <= HighlightDistance
  }

  /** The ids of the lines close enough to the mouse, in layer order. */
  function HoveredLines(shapes: seq<Shape>, dist: Shape -> real): (r: seq<nat>)
    ensures |r| <= |shapes|
    ensures forall x :: x in r ==> exists i :: 0 <= i < |shapes| && Within(shapes[i], dist) && shapes[i].shapeID == x
    ensures forall i :: 0 <= i < |shapes| && Within(shapes[i], dist) ==> shapes[i].shapeID in r
  {
    if shapes == [] then []
    else
      var init := shapes[..|shapes| - 1];
      var last := shapes[|shapes| - 1];
      assert forall i :: 0 <= i < |init| ==> init[i] == shapes[i];
      HoveredLines(init, dist) + (if Within(last, dist) then [last.shapeID] else [])
  }

  /**
   * The index of the closest hovered line: no line within reach is closer,
   * and every one before it is strictly farther (the first of equally
   * close lines wins); none when no line is within reach.
   */
  function Closest(shapes: seq<Shape>, dist: Shape -> real): (r: Option<nat>)
    ensures r.Some? ==> r.value < |shapes| && Within(shapes[r.value], dist)
    ensures r.Some? ==> forall j :: 0 <= j < |shapes| && Within(shapes[j], dist) ==> dist(shapes[r.value]) <= dist(shapes[j])
    ensures r.Some? ==> forall j :: 0 <= j < r.value && Within(shapes[j], dist) ==> dist(shapes[r.value]) < dist(shapes[j])
    ensures r.None? <==> forall j :: 0 <= j < |shapes| ==> !Within(shapes[j], dist)
  {
    if shapes == [] then None
    else
      var init := shapes[..|shapes| - 1];
      var last := shapes[|shapes| - 1];
      assert forall i :: 0 <= i < |init| ==> init[i] == shapes[i];
      var prev := Closest(init, dist);
      if Within(last, dist) && (prev.None? || dist(last) < dist(init[prev.value])) then Some(|shapes| - 1)
      else prev
  }

  /** The id of the closest hovered line, or -1. */
  function ClosestId(shapes: seq<Shape>, dist: Shape -> real): nat
  {
    var c := Closest(shapes, dist);
    if c.Some? then shapes[c.value].shapeID else NoShape
  }

  /** `getClosestHoveredShape` as written: with no layer selected it returns `false`, which converts to the id 0. */
  function ClosestHoveredAsWritten(selectedLayer: nat, shapes: seq<Shape>, dist: Shape -> real): (r: nat)
    ensures selectedLayer != NoLayer ==> r == ClosestId(shapes, dist)
  {
    if selectedLayer == NoLayer then 0 else ClosestId(shapes, dist)
  }

  /**
   * With no layer selected, the result is the id 0 rather than -1, so the
   * caller takes the mouse to be over a shape numbered 0.
   */
  lemma ClosestAsWrittenNoLayer(shapes: seq<Shape>, dist: Shape -> real)
    ensures ClosestHoveredAsWritten(NoLayer, shapes, dist) == 0 != NoShape
  {
  }

  /** The position of the selected layer in the layer vector. */
  function SelectedIndex(layers: seq<Layer>, selected: nat): Option<nat>
  {
    IndexIn(LayerIds(layers), selected)
  }

  /** The unselect loop of a Ctrl-release: erases the first match and stops. */
  method EraseFirst(s: seq<nat>, x: nat) returns (r: seq<nat>, existed: bool)
    ensures existed <==> x in s
    ensures existed ==> r == EraseAt(s, IndexIn(s, x).value)
    ensures !existed ==> r == s
  {
    for i := 0 to |s|
      invariant forall j :: 0 <= j < i ==> s[j] != x
    {
      if s[i] == x {
        IndexInIs(s, x, i);
        return EraseAt(s, i), true;
      }
    }
    return s, false;
  }

  class Application {
    const layers: LayerList
    var selectedTool: int
    var mouseWorkspace: Vec2
    var mouseSnappedWorkspace: Vec2
    var previewPoint: Vec2
    var showPreviewPoint: bool
    var previewLineStart: Vec2
    var drawingLine: bool
    var drawingSelectionBox: bool
    var selectedShapes: seq<nat>
    var hoveredShape: nat
    var mouseOnShape: nat
    var maxLayers: nat
    var previewRegenerateFlag: bool
    var lineThickness: real

    /** The layer list keeps its invariant, every layer hands out unique shape ids, and no shape is selected twice. */
    ghost predicate Valid()
      reads this, layers
    {
      layers.Valid() && Distinct(selectedShapes) &&
      forall i :: 0 <= i < |layers.layers| ==> IdsFresh(layers.layers[i])
    }

    constructor (list: LayerList)
      requires list.Valid() && forall i :: 0 <= i < |list.layers| ==> IdsFresh(list.layers[i])
      ensures layers == list && Valid()
      ensures selectedTool == ToolSelect && !showPreviewPoint && !drawingLine && !drawingSelectionBox
      ensures selectedShapes == [] && hoveredShape == NoShape && mouseOnShape == NoShape
      ensures maxLayers == 0 && lineThickness == 0.1
    {
      layers := list;
      selectedTool := ToolSelect;
      mouseWorkspace := Vec2(0.0, 0.0);
      mouseSnappedWorkspace := Vec2(0.0, 0.0);
      previewPoint := Vec2(0.0, 0.0);
      showPreviewPoint := false;
      previewLineStart := Vec2(0.0, 0.0);
      drawingLine := false;
      drawingSelectionBox := false;
      selectedShapes := [];
      hoveredShape := NoShape;
      mouseOnShape := NoShape;
      maxLayers := 0;
      previewRegenerateFlag := false;
      lineThickness := 0.1;
    }

    /** `cancelShape`: no line is being drawn; the preview point shows iff the tool is not the select tool. */
    method CancelShape()
      modifies this`showPreviewPoint, this`drawingLine
      ensures (showPreviewPoint <==> selectedTool != ToolSelect) && !drawingLine
    {
      showPreviewPoint := selectedTool != ToolSelect;
      drawingLine := false;
    }

    /** `addLayer()`: a layer named "Layer #" and the number of layers added so far. */
    method AddDefaultLayer()
      modifies this`showPreviewPoint, this`drawingLine, this`maxLayers, this`previewRegenerateFlag, layers
      requires Valid()
      ensures Valid()
      ensures layers.layers == old(layers.layers) + [NewLayer("Layer #" + NatToString(old(maxLayers)), old(layers.nextLayerID))]
      ensures layers.layerOrder == [old(layers.nextLayerID)] + old(layers.layerOrder)
      ensures layers.selectedLayer == (if old(layers.nextLayerID) != NoLayer then old(layers.nextLayerID) else old(layers.selectedLayer))
      ensures layers.nextLayerID == old(layers.nextLayerID) + 1
      ensures maxLayers == old(maxLayers) + 1 && previewRegenerateFlag && !drawingLine
      ensures showPreviewPoint <==> selectedTool != ToolSelect
    {
      AddLayer("Layer #" + NatToString(maxLayers));
      previewRegenerateFlag := true;
    }

    /** `addLayer(name)`: the drawing is cancelled and a new layer goes in front of all others and is selected. */
    method AddLayer(name: string)
      modifies this`showPreviewPoint, this`drawingLine, this`maxLayers, this`previewRegenerateFlag, layers
      requires Valid()
      ensures Valid()
      ensures layers.layers == old(layers.layers) + [NewLayer(name, old(layers.nextLayerID))]
      ensures layers.layerOrder == [old(layers.nextLayerID)] + old(layers.layerOrder)
      ensures layers.selectedLayer == (if old(layers.nextLayerID) != NoLayer then old(layers.nextLayerID) else old(layers.selectedLayer))
      ensures layers.nextLayerID == old(layers.nextLayerID) + 1
      ensures maxLayers == old(maxLayers) + 1 && previewRegenerateFlag && !drawingLine
      ensures showPreviewPoint <==> selectedTool != ToolSelect
    {
      CancelShape();
      layers.AddLayerFront(name);
      maxLayers := maxLayers + 1;
      previewRegenerateFlag := true;
    }

    /**
     * `addLine`: nothing happens without a selected layer; otherwise a line
     * between two different points goes onto the selected layer with the
     * current thickness, and the previews are marked stale.
     */
    method AddLine(p1: Vec2, p2: Vec2)
      modifies this`previewRegenerateFlag, layers
      requires Valid()
      ensures Valid()
      ensures layers.layerOrder == old(layers.layerOrder) && layers.selectedLayer == old(layers.selectedLayer)
        && layers.nextLayerID == old(layers.nextLayerID)
      ensures layers.selectedLayer == NoLayer ==>
        (layers.layers == old(layers.layers) && previewRegenerateFlag == old(previewRegenerateFlag))
      ensures layers.selectedLayer != NoLayer ==> previewRegenerateFlag
      ensures layers.selectedLayer != NoLayer && p1 == p2 ==> layers.layers == old(layers.layers)
      ensures layers.selectedLayer != NoLayer && p1 != p2 ==>
        (SelectedIndex(old(layers.layers), layers.selectedLayer).Some?
        && var i := SelectedIndex(old(layers.layers), layers.selectedLayer).value;
        i < |old(layers.layers)|
        && layers.layers == old(layers.layers)[i := AddShape(old(layers.layers)[i], ShapeLine, p1, p2, lineThickness)])
    {
      if layers.selectedLayer == NoLayer {
        return;
      }
      if p1 != p2 {
        var index := layers.GetSelectedLayer();
        layers.AddShapeAt(index.value, ShapeLine, p1, p2, lineThickness);
      }
      previewRegenerateFlag := true;
    }

    /**
     * `changeMode`: the drawing is cancelled and the selection cleared;
     * the select tool hides the preview point, the line tools show it at
     * the snapped mouse. An unknown tool changes nothing more.
     */
    method ChangeMode(mode: int)
      modifies this`selectedTool, this`showPreviewPoint, this`drawingLine, this`drawingSelectionBox,
        this`selectedShapes, this`previewPoint
      requires Valid()
      ensures Valid() && selectedShapes == [] && !drawingLine
      ensures mode == ToolSelect ==> (selectedTool == ToolSelect && !showPreviewPoint && !drawingSelectionBox
        && previewPoint == old(previewPoint))
      ensures mode == ToolLine || mode == ToolLineStrip ==> (selectedTool == mode && showPreviewPoint
        && !drawingSelectionBox && previewPoint == mouseSnappedWorkspace)
      ensures mode !in {ToolSelect, ToolLine, ToolLineStrip} ==> (selectedTool == old(selectedTool)
        && (showPreviewPoint <==> selectedTool != ToolSelect)
        && drawingSelectionBox == old(drawingSelectionBox) && previewPoint == old(previewPoint))
    {
      CancelShape();
      selectedShapes := [];
      if mode == ToolSelect {
        selectedTool := ToolSelect;
        showPreviewPoint := false;
        drawingSelectionBox := false;
      } else if mode == ToolLine || mode == ToolLineStrip {
        selectedTool := mode;
        previewPoint := mouseSnappedWorkspace;
        showPreviewPoint := true;
        drawingLine := false;
        drawingSelectionBox := false;
      }
    }

    /** `isShapeSelected`. */
    method IsShapeSelected(shape: nat) returns (r: bool)
      ensures r <==> shape in selectedShapes
    {
      for i := 0 to |selectedShapes|
        invariant shape !in selectedShapes[..i]
      {
        assert selectedShapes[..i + 1] == selectedShapes[..i] + [selectedShapes[i]];
        if selectedShapes[i] == shape {
          return true;
        }
      }
      assert selectedShapes[..|selectedShapes|] == selectedShapes;
      return false;
    }

    /** `deleteShape`: removes the shape from the selected layer, which must exist. */
    method DeleteShape(shape: nat) returns (removed: bool)
      modifies this`previewRegenerateFlag, layers
      requires Valid() && layers.selectedLayer != NoLayer
      ensures Valid() && previewRegenerateFlag
      ensures SelectedIndex(old(layers.layers), layers.selectedLayer).Some?
      ensures var i := SelectedIndex(old(layers.layers), layers.selectedLayer).value;
        i < |layers.layers| == |old(layers.layers)|
        && (removed <==> IndexOfShape(old(layers.layers)[i].shapes, shape).Some?)
        && (forall k :: 0 <= k < |layers.layers| && k != i ==> layers.layers[k] == old(layers.layers)[k])
        && (IdsFresh(old(layers.layers)[i]) ==> IndexOfShape(layers.layers[i].shapes, shape).None?)
      ensures !removed ==> layers.layers == old(layers.layers)
      ensures layers.layerOrder == old(layers.layerOrder) && layers.selectedLayer == old(layers.selectedLayer)
        && layers.nextLayerID == old(layers.nextLayerID)
    {
      previewRegenerateFlag := true;
      var index := layers.GetSelectedLayer();
      removed := layers.RemoveShapeAt(index.value, shape);
    }

    /** `getHoveredShapes`: the lines the mouse is near on the selected layer; none without a selected layer. */
    method GetHoveredShapes(dist: Shape -> real) returns (r: seq<nat>)
      requires Valid()
      ensures layers.selectedLayer == NoLayer ==> r == []
      ensures layers.selectedLayer != NoLayer ==>
        (SelectedIndex(layers.layers, layers.selectedLayer).Some?
        && var i := SelectedIndex(layers.layers, layers.selectedLayer).value;
        i < |layers.layers| && r == HoveredLines(layers.layers[i].shapes, dist))
    {
      r := [];
      if layers.selectedLayer == NoLayer {
        return;
      }
      var index := layers.GetSelectedLayer();
      r := HoveredIn(layers.layers[index.value].shapes, dist);
    }

    /**
     * `getClosestHoveredShape`, corrected: the id of the closest line the
     * mouse is near on the selected layer, and -1 when there is none or no
     * layer is selected.
     */
    method GetClosestHoveredShape(dist: Shape -> real) returns (r: nat)
      requires Valid()
      ensures layers.selectedLayer == NoLayer ==> r == NoShape
      ensures layers.selectedLayer != NoLayer ==>
        (SelectedIndex(layers.layers, layers.selectedLayer).Some?
        && var i := SelectedIndex(layers.layers, layers.selectedLayer).value;
        i < |layers.layers| && r == ClosestId(layers.layers[i].shapes, dist)
        && r == ClosestHoveredAsWritten(layers.selectedLayer, layers.layers[i].shapes, dist))
    {
      if layers.selectedLayer == NoLayer {
        return NoShape;
      }
      var index := layers.GetSelectedLayer();
      var shapes := layers.layers[index.value].shapes;
      var closest := ClosestIn(shapes, dist);
      r := if closest.Some? then shapes[closest.value].shapeID else NoShape;
    }

    /** `mouseMoved`: with the select tool, the shape under the mouse is the closest hovered one. */
    method MouseMoved(dist: Shape -> real)
      modifies this`mouseOnShape
      requires Valid()
      ensures selectedTool == ToolSelect && layers.selectedLayer == NoLayer ==> mouseOnShape == NoShape
      ensures selectedTool == ToolSelect && layers.selectedLayer != NoLayer ==>
        (SelectedIndex(layers.layers, layers.selectedLayer).Some?
        && var i := SelectedIndex(layers.layers, layers.selectedLayer).value;
        i < |layers.layers| && mouseOnShape == ClosestId(layers.layers[i].shapes, dist))
      ensures selectedTool != ToolSelect ==> mouseOnShape == old(mouseOnShape)
    {
      if selectedTool == ToolSelect {
        mouseOnShape := GetClosestHoveredShape(dist);
      }
    }

    /**
     * `mouseHovered`. With the select tool the hovered shape is the closest
     * hovered one, and a selection box being drawn ends: the selection
     * becomes the lines of the selected layer (which must then exist) lying
     * wholly inside the box from its start corner to the mouse. With a line
     * tool the preview point follows the snapped mouse unless a line is
     * being drawn.
     */
    method MouseHovered(dist: Shape -> real)
      modifies this`hoveredShape, this`drawingSelectionBox, this`selectedShapes, this`previewPoint
      requires Valid()
      requires selectedTool == ToolSelect && drawingSelectionBox ==> layers.selectedLayer != NoLayer
      ensures Valid()
      ensures selectedTool == ToolSelect ==> (!drawingSelectionBox && previewPoint == old(previewPoint))
      ensures selectedTool == ToolSelect && layers.selectedLayer == NoLayer ==>
        (hoveredShape == NoShape && selectedShapes == old(selectedShapes))
      ensures selectedTool == ToolSelect && layers.selectedLayer != NoLayer ==>
        (SelectedIndex(layers.layers, layers.selectedLayer).Some?
        && var i := SelectedIndex(layers.layers, layers.selectedLayer).value;
        i < |layers.layers| && hoveredShape == ClosestId(layers.layers[i].shapes, dist)
        && selectedShapes == (if old(drawingSelectionBox)
          then AllegroEngineModel.BoxSelection(layers.layers[i].shapes, previewLineStart, mouseWorkspace)
          else old(selectedShapes)))
      ensures selectedTool in {ToolLine, ToolLineStrip} ==>
        (previewPoint == (if drawingLine then old(previewPoint) else mouseSnappedWorkspace)
        && hoveredShape == old(hoveredShape) && selectedShapes == old(selectedShapes)
        && drawingSelectionBox == old(drawingSelectionBox))
    {
      if selectedTool == ToolSelect {
        hoveredShape := GetClosestHoveredShape(dist);
        if drawingSelectionBox {
          FinishSelectionBox();
        }
      } else if selectedTool == ToolLine || selectedTool == ToolLineStrip {
        if !drawingLine {
          previewPoint := mouseSnappedWorkspace;
        }
      }
    }

    /**
     * The end of a dragged selection box: the selection becomes the lines
     * of the selected layer lying wholly inside the box.
     */
    method FinishSelectionBox()
      modifies this`drawingSelectionBox, this`selectedShapes
      requires Valid() && layers.selectedLayer != NoLayer
      ensures Valid() && !drawingSelectionBox
      ensures SelectedIndex(layers.layers, layers.selectedLayer).Some?
        && var i := SelectedIndex(layers.layers, layers.selectedLayer).value;
        i < |layers.layers| &&
        selectedShapes == AllegroEngineModel.BoxSelection(layers.layers[i].shapes, previewLineStart, mouseWorkspace)
    {
      drawingSelectionBox := false;
      var index := layers.GetSelectedLayer();
      selectedShapes := SelectInBox(layers.layers[index.value].shapes, previewLineStart, mouseWorkspace);
      BoxSelectionDistinct(layers.layers[index.value], previewLineStart, mouseWorkspace);
    }

    /** `mouseDragged`: the hovered shape is dropped once the mouse is no longer over it. */
    method MouseDragged()
      modifies this`hoveredShape
      ensures hoveredShape == (if mouseOnShape != old(hoveredShape) then NoShape else old(hoveredShape))
    {
      if mouseOnShape != hoveredShape {
        hoveredShape := NoShape;
      }
    }

    /** `selectToolSpaceClicked`: a selection box starts at the mouse, and the preview point hides. */
    method SelectToolSpaceClicked(ctrl: bool)
      modifies this`drawingSelectionBox, this`showPreviewPoint, this`previewLineStart
      ensures drawingSelectionBox && !showPreviewPoint && previewLineStart == mouseWorkspace
    {
      drawingSelectionBox := true;
      showPreviewPoint := false;
      previewLineStart := mouseWorkspace;
    }

    /**
     * `selectToolShapeReleased`: the shape under the mouse is looked up
     * again; only a release on the hovered shape acts. With Ctrl the shape
     * is unselected if selected and selected otherwise; without, it
     * becomes the only selected shape.
     */
    method SelectToolShapeReleased(shape: nat, ctrl: bool, dist: Shape -> real)
      modifies this`mouseOnShape, this`selectedShapes
      requires Valid()
      ensures Valid()
      ensures layers.selectedLayer == NoLayer ==> mouseOnShape == NoShape
      ensures shape != hoveredShape ==> selectedShapes == old(selectedShapes)
      ensures shape == hoveredShape && !ctrl ==> selectedShapes == [shape]
      ensures shape == hoveredShape && ctrl && shape in old(selectedShapes) ==>
        (selectedShapes == EraseAt(old(selectedShapes), IndexIn(old(selectedShapes), shape).value)
        && shape !in selectedShapes)
      ensures shape == hoveredShape && ctrl && shape !in old(selectedShapes) ==>
        selectedShapes == old(selectedShapes) + [shape]
      ensures shape == hoveredShape && ctrl ==>
        forall x :: x != shape ==> (x in selectedShapes <==> x in old(selectedShapes))
    {
      mouseOnShape := GetClosestHoveredShape(dist);
      if shape == hoveredShape {
        if ctrl {
          var rest, existed := EraseFirst(selectedShapes, shape);
          if existed {
            ToggleOff(selectedShapes, shape);
            selectedShapes := rest;
          } else {
            selectedShapes := selectedShapes + [shape];
          }
        } else {
          selectedShapes := [shape];
        }
      }
    }

    /** `selectToolSpaceReleased`: releasing on empty space without Ctrl clears the selection. */
    method SelectToolSpaceReleased(ctrl: bool)
      modifies this`selectedShapes
      requires Valid()
      ensures Valid()
      ensures selectedShapes == (if !ctrl && hoveredShape == NoShape then [] else old(selectedShapes))
    {
      if !ctrl && hoveredShape == NoShape {
        selectedShapes := [];
      }
    }

    /**
     * `lineToolSpaceClicked`: the first click starts a line at the snapped
     * mouse; the second ends it there, shows the preview point again and
     * adds the line.
     */
    method LineToolSpaceClicked()
      modifies this`drawingLine, this`showPreviewPoint, this`previewLineStart, this`previewPoint,
        this`previewRegenerateFlag, layers
      requires Valid()
      ensures Valid()
      ensures !old(drawingLine) ==> (drawingLine && !showPreviewPoint && previewLineStart == mouseSnappedWorkspace
        && layers.layers == old(layers.layers) && previewPoint == old(previewPoint)
        && previewRegenerateFlag == old(previewRegenerateFlag))
      ensures old(drawingLine) ==>
        previewRegenerateFlag == (layers.selectedLayer != NoLayer || old(previewRegenerateFlag))
      ensures old(drawingLine) ==> (!drawingLine && showPreviewPoint && previewPoint == mouseSnappedWorkspace
        && previewLineStart == old(previewLineStart))
      ensures old(drawingLine) && layers.selectedLayer != NoLayer && mouseSnappedWorkspace != previewLineStart ==>
        (SelectedIndex(old(layers.layers), layers.selectedLayer).Some?
        && var i := SelectedIndex(old(layers.layers), layers.selectedLayer).value;
        i < |old(layers.layers)|
        && layers.layers == old(layers.layers)[i := AddShape(old(layers.layers)[i], ShapeLine,
          mouseSnappedWorkspace, previewLineStart, lineThickness)])
      ensures old(drawingLine) && (layers.selectedLayer == NoLayer || mouseSnappedWorkspace == previewLineStart) ==>
        layers.layers == old(layers.layers)
      ensures layers.selectedLayer == old(layers.selectedLayer) && layers.layerOrder == old(layers.layerOrder)
        && layers.nextLayerID == old(layers.nextLayerID)
    {
      if !drawingLine {
        drawingLine := true;
        showPreviewPoint := false;
        previewLineStart := mouseSnappedWorkspace;
      } else {
        showPreviewPoint := true;
        drawingLine := false;
        previewPoint := mouseSnappedWorkspace;
        AddLine(mouseSnappedWorkspace, previewLineStart);
      }
    }

    /** `lineToolRightClicked`: cancels the line being drawn. */
    method LineToolRightClicked()
      modifies this`showPreviewPoint, this`drawingLine
      ensures (showPreviewPoint <==> selectedTool != ToolSelect) && !drawingLine
    {
      CancelShape();
    }

    /**
     * `lineStripToolSpaceClicked`: the first click starts the strip; each
     * later one adds the line from the previous point and goes on from the
     * click.
     */
    method LineStripToolSpaceClicked()
      modifies this`drawingLine, this`showPreviewPoint, this`previewLineStart, this`previewRegenerateFlag, layers
      requires Valid()
      ensures Valid()
      ensures drawingLine && !showPreviewPoint && previewLineStart == mouseSnappedWorkspace
      ensures !old(drawingLine) ==>
        layers.layers == old(layers.layers) && previewRegenerateFlag == old(previewRegenerateFlag)
      ensures old(drawingLine) ==>
        previewRegenerateFlag == (layers.selectedLayer != NoLayer || old(previewRegenerateFlag))
      ensures old(drawingLine) && layers.selectedLayer != NoLayer && mouseSnappedWorkspace != old(previewLineStart) ==>
        (SelectedIndex(old(layers.layers), layers.selectedLayer).Some?
        && var i := SelectedIndex(old(layers.layers), layers.selectedLayer).value;
        i < |old(layers.layers)|
        && layers.layers == old(layers.layers)[i := AddShape(old(layers.layers)[i], ShapeLine,
          mouseSnappedWorkspace, old(previewLineStart), lineThickness)])
      ensures old(drawingLine) && (layers.selectedLayer == NoLayer || mouseSnappedWorkspace == old(previewLineStart)) ==>
        layers.layers == old(layers.layers)
      ensures layers.selectedLayer == old(layers.selectedLayer) && layers.layerOrder == old(layers.layerOrder)
        && layers.nextLayerID == old(layers.nextLayerID)
    {
      if !drawingLine {
        drawingLine := true;
        showPreviewPoint := false;
        previewLineStart := mouseSnappedWorkspace;
      } else {
        showPreviewPoint := false;
        drawingLine := true;
        AddLine(mouseSnappedWorkspace, previewLineStart);
        previewLineStart := mouseSnappedWorkspace;
      }
    }

    /** `lineStripToolRightClicked`: cancels the strip. */
    method LineStripToolRightClicked()
      modifies this`showPreviewPoint, this`drawingLine
      ensures (showPreviewPoint <==> selectedTool != ToolSelect) && !drawingLine
    {
      CancelShape();
    }
  }

  /** The loop of `getHoveredShapes` over the shapes of a layer. */
  method HoveredIn(shapes: seq<Shape>, dist: Shape -> real) returns (r: seq<nat>)
    ensures r == HoveredLines(shapes, dist)
  {
    r := [];
    for k := 0 to |shapes|
      invariant r == HoveredLines(shapes[..k], dist)
    {
      assert shapes[..k + 1][..k] == shapes[..k];
      if Within(shapes[k], dist) {
        r := r + [shapes[k].shapeID];
      }
    }
    assert shapes[..|shapes|] == shapes;
  }

  /**
   * The loop of `getClosestHoveredShape`: a line within reach replaces the
   * best so far only when strictly closer (the source's `closest == -1`
   * sentinel is the empty case here).
   */
  method ClosestIn(shapes: seq<Shape>, dist: Shape -> real) returns (closest: Option<nat>)
    ensures closest == Closest(shapes, dist)
  {
    closest := None;
    for k := 0 to |shapes|
      invariant closest == Closest(shapes[..k], dist)
      invariant closest.Some? ==> closest.value < k
    {
      assert shapes[..k + 1][..k] == shapes[..k];
      assert closest.Some? ==> shapes[..k][closest.value] == shapes[closest.value];
      var d := dist(shapes[k]);
      if shapes[k].kind == ShapeLine && d <= HighlightDistance && (closest.None? || d < dist(shapes[closest.value])) {
        closest := Some(k);
      }
    }
    assert shapes[..|shapes|] == shapes;
  }

  /** The box-selection loop over the shapes of a layer. */
  method SelectInBox(shapes: seq<Shape>, a: Vec2, b: Vec2) returns (r: seq<nat>)
    ensures r == AllegroEngineModel.BoxSelection(shapes, a, b)
  {
    r := [];
    for k := 0 to |shapes|
      invariant r == AllegroEngineModel.BoxSelection(shapes[..k], a, b)
    {
      assert shapes[..k + 1][..k] == shapes[..k];
      if AllegroEngineModel.LineInBox(shapes[k], a, b) {
        r := r + [shapes[k].shapeID];
      }
    }
    assert shapes[..|shapes|] == shapes;
  }

  /** A layer with unique ids yields a box selection without repeats. */
  lemma BoxSelectionDistinct(l: Layer, a: Vec2, b: Vec2)
    requires IdsFresh(l)
    ensures Distinct(AllegroEngineModel.BoxSelection(l.shapes, a, b))
  {
    var e := AllegroEngineModel.EngineLayer(l.name, l.shapes, l.nextShapeID);
    assert AllegroEngineModel.AsLayer(e) == l.(layerID := 0);
    AllegroEngineModel.BoxSelectionDistinct(e, |l.shapes|, a, b);
    assert l.shapes[..|l.shapes|] == l.shapes;
  }

  /** Erasing the one occurrence of an id from a list without repeats keeps the others. */
  lemma ToggleOff(s: seq<nat>, x: nat)
    requires x in s && Distinct(s)
    ensures Distinct(EraseAt(s, IndexIn(s, x).value)) && x !in EraseAt(s, IndexIn(s, x).value)
    ensures forall y :: y != x ==> (y in EraseAt(s, IndexIn(s, x).value) <==> y in s)
  {
    SelectionModel.EraseDistinct(s, IndexIn(s, x).value);
  }
}
