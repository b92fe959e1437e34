// The single-file editor of TechnicalSketcher-Allegro.cpp: its own layer
// class (a name, the shapes and a shape counter) and the `Engine` that
// holds the layers, the cursor mode, the line being drawn and the shape
// selection, and reacts to mouse events.
//
// Screen/workspace conversions, the distance of the mouse to a line and
// the state of the Ctrl key are passed in; drawing, fonts, bitmaps and the
// ImGui panels are not part of this model.

module AllegroEngineModel {
  import opened Wrappers
  import opened Geometry
  import opened TinyString
  import opened Decimal
  import L = AllegroLayer
  import AllegroLayerList
  import SelectionModel

  /** `CursorMode`. */
  const ModeSelect: int := 0
  const ModeLine: int := 1
  const ModeLineStrip: int := 2

  /** `ShapeID(-1)` of an unsigned `size_t`: no shape. */
  const NoShape: nat := Npos

  // ------------------------------------------------------------ the layer

  datatype EngineLayer = EngineLayer(name: string, shapes: seq<L.Shape>, maxShapeID: nat)

  /** `Layer(name)`: no shapes, the counter at 0. */
  function NamedLayer(name: string): (r: EngineLayer)
    ensures r.name == name && r.shapes == [] && Fresh(r)
  {
    EngineLayer(name, [], 0)
  }

  /** The same layer seen as a layer of the layer list (with id 0), to share its id reasoning. */
  function AsLayer(l: EngineLayer): L.Layer
  {
    L.Layer(l.name, 0, l.shapes, l.maxShapeID)
  }

  /** Every shape id is below the counter, and no two shapes share one. */
  predicate Fresh(l: EngineLayer)
  {
    L.IdsFresh(AsLayer(l))
  }

  /** `addShape`: the shape gets the counter's value as its id, and the counter moves on. */
  function AddShapeTo(l: EngineLayer, kind: L.ShapeType, p1: Vec2, p2: Vec2, thickness: real): (r: EngineLayer)
    ensures r.name == l.name && r.maxShapeID == l.maxShapeID + 1
    ensures r.shapes == l.shapes + [L.Shape(l.maxShapeID, kind, p1, p2, thickness)]
    ensures Fresh(l) ==> Fresh(r) && L.IndexOfShape(r.shapes, l.maxShapeID) == Some(|l.shapes|)
  {
    var r := EngineLayer(l.name, l.shapes + [L.Shape(l.maxShapeID, kind, p1, p2, thickness)], l.maxShapeID + 1);
    assert AsLayer(r) == L.AddShape(AsLayer(l), kind, p1, p2, thickness);
    r
  }

  /** `removeShape`: erases the first shape with the id and reports true, or reports false and changes nothing. */
  method RemoveShapeFrom(l: EngineLayer, id: nat) returns (removed: bool, r: EngineLayer)
    ensures removed <==> L.IndexOfShape(l.shapes, id).Some?
    ensures removed ==>
      var i := L.IndexOfShape(l.shapes, id).value;
      r == l.(shapes := l.shapes[..i] + l.shapes[i + 1..])
    ensures !removed ==> r == l
    ensures Fresh(l) ==> Fresh(r) && L.IndexOfShape(r.shapes, id).None?
  {
    for i := 0 to |l.shapes|
      invariant forall j :: 0 <= j < i ==> l.shapes[j].shapeID != id
    {
      if l.shapes[i].shapeID == id {
        L.IndexOfShapeIs(l.shapes, id, i);
        r := l.(shapes := l.shapes[..i] + l.shapes[i + 1..]);
        L.RemovedGone(AsLayer(l), i);
        assert AsLayer(r) == AsLayer(l).(shapes := l.shapes[..i] + l.shapes[i + 1..]);
        return true, r;
      }
    }
    return false, l;
  }

  /** `Shape()`: the id -1 and no type. */
  const DefaultShape: L.Shape := L.Shape(NoShape, L.ShapeInvalid, Vec2(0.0, 0.0), Vec2(0.0, 0.0), 0.0)

  /** `getShape`: a copy of the first shape with the id, or the default shape when there is none. */
  method GetShape(l: EngineLayer, id: nat) returns (r: L.Shape)
    ensures L.IndexOfShape(l.shapes, id).Some? ==> r == l.shapes[L.IndexOfShape(l.shapes, id).value]
    ensures L.IndexOfShape(l.shapes, id).None? ==> r == DefaultShape
    ensures r.shapeID == id || r == DefaultShape
  {
    for i := 0 to |l.shapes|
      invariant forall j :: 0 <= j < i ==> l.shapes[j].shapeID != id
    {
      if l.shapes[i].shapeID == id {
        L.IndexOfShapeIs(l.shapes, id, i);
        return l.shapes[i];
      }
    }
    return DefaultShape;
  }

  /**
   * The copy constructor as written: it copies the name and the shapes but
   * not the counter, so a copy starts counting at 0 again. `std::vector`
   * copy-constructs its layers whenever it moves them to a new buffer.
   */
  function CopyAsWritten(l: EngineLayer): (r: EngineLayer)
    ensures r.name == l.name && r.shapes == l.shapes && r.maxShapeID == 0
  {
    EngineLayer(l.name, l.shapes, 0)
  }

  /**
   * `operator=` as written: the name and the shapes of `src`, while the
   * target keeps its own counter.
   */
  function AssignAsWritten(target: EngineLayer, src: EngineLayer): (r: EngineLayer)
    ensures r.name == src.name && r.shapes == src.shapes && r.maxShapeID == target.maxShapeID
  {
    EngineLayer(src.name, src.shapes, target.maxShapeID)
  }

  /**
   * `std::iter_swap` of two layers as written: `tmp(a); a = b; b = tmp`,
   * through the copy constructor and `operator=` (the class has no move
   * operations). Names and shapes change places; each counter stays where
   * it was.
   */
  function SwapAsWritten(ls: seq<EngineLayer>, i: nat, j: nat): (r: seq<EngineLayer>)
    requires i < |ls| && j < |ls| && i != j
    ensures |r| == |ls| && forall k :: 0 <= k < |ls| && k != i && k != j ==> r[k] == ls[k]
    ensures r[i].name == ls[j].name && r[i].shapes == ls[j].shapes && r[i].maxShapeID == ls[i].maxShapeID
    ensures r[j].name == ls[i].name && r[j].shapes == ls[i].shapes && r[j].maxShapeID == ls[j].maxShapeID
  {
    var tmp := CopyAsWritten(ls[i]);
    ls[i := AssignAsWritten(ls[i], ls[j])][j := AssignAsWritten(ls[j], tmp)]
  }

  /**
   * After the swap as written, a layer whose shapes include the id its new
   * position's counter stands at hands that id out a second time.
   */
  lemma SwapAsWrittenRepeatsId(ls: seq<EngineLayer>, i: nat, j: nat, k: nat,
                               kind: L.ShapeType, p1: Vec2, p2: Vec2, thickness: real)
    requires i < |ls| && j < |ls| && i != j
    requires k < |ls[i].shapes| && ls[i].shapes[k].shapeID == ls[j].maxShapeID
    ensures var drawn := AddShapeTo(SwapAsWritten(ls, i, j)[j], kind, p1, p2, thickness);
      drawn.shapes[k].shapeID == drawn.shapes[|ls[i].shapes|].shapeID && !Fresh(drawn)
  {
    var moved := SwapAsWritten(ls, i, j)[j];
    var drawn := AddShapeTo(moved, kind, p1, p2, thickness);
    assert drawn.shapes[k] == ls[i].shapes[k];
    assert k < |ls[i].shapes| < |drawn.shapes|;
  }

  /**
   * `moveLayerUp(1)` on [a layer holding lines 0 and 1 with its counter at
   * 2, an empty layer]: the lines move to position 1, whose counter is 0, and
   * the next line drawn on them takes id 0 again.
   */
  lemma SwapAsWrittenAfterTwoLines(front: string, back: string, thickness: real)
    ensures var a := AddShapeTo(AddShapeTo(NamedLayer(front), L.ShapeLine, Vec2(0.0, 0.0), Vec2(1.0, 0.0), thickness),
                                L.ShapeLine, Vec2(0.0, 1.0), Vec2(1.0, 1.0), thickness);
      var ls := SwapAsWritten([a, NamedLayer(back)], 1, 0);
      Fresh(a) && Fresh(ls[0]) && !Fresh(AddShapeTo(ls[1], L.ShapeLine, Vec2(0.0, 2.0), Vec2(1.0, 2.0), thickness))
  {
    var first := AddShapeTo(NamedLayer(front), L.ShapeLine, Vec2(0.0, 0.0), Vec2(1.0, 0.0), thickness);
    var a := AddShapeTo(first, L.ShapeLine, Vec2(0.0, 1.0), Vec2(1.0, 1.0), thickness);
    assert a.maxShapeID == 2 && |a.shapes| == 2 && a.shapes[0].shapeID == 0;
    var swapped := SwapAsWritten([a, NamedLayer(back)], 1, 0);
    assert swapped[0].shapes == [] && swapped[0].maxShapeID == 2;
    var drawn := AddShapeTo(swapped[1], L.ShapeLine, Vec2(0.0, 2.0), Vec2(1.0, 2.0), thickness);
    assert drawn.shapes[0].shapeID == 0 == drawn.shapes[2].shapeID;
  }

  /** Drawing on a copied layer that still holds the shape numbered 0 hands out 0 a second time. */
  lemma CopyAsWrittenRepeatsId(l: EngineLayer, i: nat, kind: L.ShapeType, p1: Vec2, p2: Vec2, thickness: real)
    requires i < |l.shapes| && l.shapes[i].shapeID == 0
    ensures var drawn := AddShapeTo(CopyAsWritten(l), kind, p1, p2, thickness);
      drawn.shapes[i].shapeID == drawn.shapes[|l.shapes|].shapeID && !Fresh(drawn)
  {
    var drawn := AddShapeTo(CopyAsWritten(l), kind, p1, p2, thickness);
    assert drawn.shapes[i] == l.shapes[i];
    assert i < |l.shapes| < |drawn.shapes|;
  }

  /** The first layer of a new file, with one line drawn on it, is hit by this as soon as a second layer is inserted in front. */
  lemma CopyAsWrittenAfterFirstLine()
    ensures var first := AddShapeTo(NamedLayer("Layer #0"), L.ShapeLine, Vec2(0.0, 0.0), Vec2(1.0, 0.0), 0.1);
      Fresh(first) && !Fresh(AddShapeTo(CopyAsWritten(first), L.ShapeLine, Vec2(0.0, 1.0), Vec2(1.0, 1.0), 0.1))
  {
    var first := AddShapeTo(NamedLayer("Layer #0"), L.ShapeLine, Vec2(0.0, 0.0), Vec2(1.0, 0.0), 0.1);
    CopyAsWrittenRepeatsId(first, 0, L.ShapeLine, Vec2(0.0, 1.0), Vec2(1.0, 1.0), 0.1);
  }

  // ------------------------------------------------------- selection boxes

  /** Whether a point lies in the box spanned by two corners, edges included. */
  predicate InBox(p: Vec2, a: Vec2, b: Vec2)
  {
    var left := if a.x <= b.x then a.x else b.x;
    var right := if a.x <= b.x then b.x else a.x;
    var bottom := if a.y <= b.y then a.y else b.y;
    var top := if a.y <= b.y then b.y else a.y;
    left <= p.x <= right && bottom <= p.y <= top
  }

  /** A line both of whose ends lie in the box. */
  predicate LineInBox(s: L.Shape, a: Vec2, b: Vec2)
  {
    s.kind == L.ShapeLine && InBox(s.p1, a, b) && InBox(s.p2, a, b)
  }

  /** The ids of the lines fully inside the box, in layer order. */
  function BoxSelection(shapes: seq<L.Shape>, a: Vec2, b: Vec2): (r: seq<nat>)
    ensures |r| <= |shapes|
    ensures forall x :: x in r ==> exists i :: 0 <= i < |shapes| && LineInBox(shapes[i], a, b) && shapes[i].shapeID == x
    ensures forall i :: 0 <= i < |shapes| && LineInBox(shapes[i], a, b) ==> shapes[i].shapeID in r
  {
    if shapes == [] then []
    else
      var init := shapes[..|shapes| - 1];
      var last := shapes[|shapes| - 1];
      assert forall i :: 0 <= i < |init| ==> init[i] == shapes[i];
      BoxSelection(init, a, b) + (if LineInBox(last, a, b) then [last.shapeID] else [])
  }

  /** On a layer whose ids are unique, the box selection selects no shape twice. */
  lemma {:induction false} BoxSelectionDistinct(l: EngineLayer, n: nat, a: Vec2, b: Vec2)
    requires Fresh(l) && n <= |l.shapes|
    ensures AllegroLayerList.Distinct(BoxSelection(l.shapes[..n], a, b))
  {
    if n > 0 {
      BoxSelectionDistinct(l, n - 1, a, b);
      var init := l.shapes[..n][..n - 1];
      assert init == l.shapes[..n - 1];
      var prev := BoxSelection(init, a, b);
      var last := l.shapes[n - 1];
      if LineInBox(last, a, b) {
        assert forall i :: 0 <= i < |init| ==> init[i].shapeID != last.shapeID by {
          forall i | 0 <= i < |init|
            ensures init[i].shapeID != last.shapeID
          {
            assert init[i] == l.shapes[i];
          }
        }
        assert last.shapeID !in prev;
        var r := prev + [last.shapeID];
        assert BoxSelection(l.shapes[..n], a, b) == r;
        forall i, j | 0 <= i < j < |r|
          ensures r[i] != r[j]
        {
          if j == |r| - 1 {
            assert r[i] in prev;
          }
        }
      }
    }
  }

  // --------------------------------------------------------------- hovering

  /** A line the mouse is close enough to. */
  predicate NearLine(s: L.Shape, near: L.Shape -> bool)
  {
    s.kind == L.ShapeLine && near(s)
  }

  /** The topmost (last drawn) line the mouse is close to, if any. */
  function TopmostNear(shapes: seq<L.Shape>, near: L.Shape -> bool): (r: Option<nat>)
    ensures r.Some? ==> r.value < |shapes| && NearLine(shapes[r.value], near)
    ensures r.Some? ==> forall j :: r.value < j < |shapes| ==> !NearLine(shapes[j], near)
    ensures r.None? <==> forall j :: 0 <= j < |shapes| ==> !NearLine(shapes[j], near)
  {
    if shapes == [] then None
    else if NearLine(shapes[|shapes| - 1], near) then Some(|shapes| - 1)
    else
      var init := shapes[..|shapes| - 1];
      assert forall j :: 0 <= j < |init| ==> init[j] == shapes[j];
      TopmostNear(init, near)
  }

  /** The id the hover scan reports: that of the topmost near line, or -1. */
  function HoveredId(shapes: seq<L.Shape>, near: L.Shape -> bool): (r: nat)
  {
    var t := TopmostNear(shapes, near);
    if t.Some? then shapes[t.value].shapeID else NoShape
  }

  /** The hovered id is that of a near line, and every near line is covered: the result is -1 only when no line is near. */
  lemma HoveredIdIsNear(shapes: seq<L.Shape>, near: L.Shape -> bool)
    requires forall i :: 0 <= i < |shapes| ==> shapes[i].shapeID != NoShape
    ensures HoveredId(shapes, near) != NoShape <==> exists i :: 0 <= i < |shapes| && NearLine(shapes[i], near)
    ensures HoveredId(shapes, near) != NoShape ==>
      exists i :: 0 <= i < |shapes| && NearLine(shapes[i], near) && shapes[i].shapeID == HoveredId(shapes, near)
  {
    var t := TopmostNear(shapes, near);
    if t.Some? {
      assert NearLine(shapes[t.value], near);
    }
  }

  // ----------------------------------------------------------------- helpers

  /**
   * The unselect loop of a Ctrl-click: it erases every match but, having no
   * `break`, steps over the element that slides into the erased place.
   */
  method EraseMatches(s: seq<nat>, x: nat) returns (r: seq<nat>)
    ensures forall y :: y in r ==> y in s
    ensures forall y :: y != x && y in s ==> y in r
    ensures AllegroLayerList.Distinct(s) ==> AllegroLayerList.Distinct(r) && x !in r
  {
    r := s;
    var i := 0;
    while i < |r|
      invariant i <= |r| + 1
      invariant forall y :: y in r ==> y in s
      invariant forall y :: y != x && y in s ==> y in r
      invariant AllegroLayerList.Distinct(s) ==>
        AllegroLayerList.Distinct(r) && forall k :: 0 <= k < i && k < |r| ==> r[k] != x
      decreases |r| - i + 1
    {
      if r[i] == x {
        ghost var before := r;
        if AllegroLayerList.Distinct(s) {
          SelectionModel.EraseDistinct(r, i);
        }
        r := AllegroLayerList.EraseAt(r, i);
        forall y | y in r
          ensures y in before
        {
          var k :| 0 <= k < |r| && r[k] == y;
          assert before[if k < i then k else k + 1] == y;
        }
        forall y | y != x && y in s
          ensures y in r
        {
          var k :| 0 <= k < |before| && before[k] == y;
          assert k != i;
          assert r[if k < i then k else k - 1] == y;
        }
        if AllegroLayerList.Distinct(s) && i < |r| {
          assert r[i] == before[i + 1] != before[i];
        }
      }
      i := i + 1;
    }
  }

  // ----------------------------------------------------------------- engine

  class Engine {
    var cursorMode: int
    /** The mouse on the screen, in the workspace, and snapped to the grid. */
    var mouse: Vec2
    var mousePos: Vec2
    var mouseSnapped: Vec2
    var previewPoint: Vec2
    var showPreviewPoint: bool
    var previewLineStart: Vec2
    var draggingLine: bool
    var draggingSelectionBox: bool
    var layers: seq<EngineLayer>
    var maxLayers: nat
    var selectedLayer: int
    var hoveredShape: nat
    var selectedShapes: seq<nat>
    var guiMouseOnGui: bool
    var guiPreviewChanged: bool
    var lineThickness: real

    /** Every layer hands out unique ids, and no shape is selected twice. */
    predicate Valid()
      reads this
    {
      (forall i :: 0 <= i < |layers| ==> Fresh(layers[i])) &&
      AllegroLayerList.Distinct(selectedShapes)
    }

    /** Whether `selectedLayer` names a layer (`selectedLayer < layers.size()` with the int widened to `size_t`). */
    predicate HasSelectedLayer()
      reads this
    {
      0 <= selectedLayer < |layers|
    }

    /** The field initialisers. */
    constructor ()
      ensures cursorMode == ModeSelect && !showPreviewPoint && !draggingLine && !draggingSelectionBox
      ensures layers == [] && maxLayers == 0 && selectedLayer == 0 && hoveredShape == NoShape
      ensures selectedShapes == [] && !guiMouseOnGui && guiPreviewChanged && lineThickness == 0.1
      ensures Valid()
    {
      cursorMode := ModeSelect;
      mouse := Vec2(0.0, 0.0);
      mousePos := Vec2(0.0, 0.0);
      mouseSnapped := Vec2(0.0, 0.0);
      previewPoint := Vec2(0.0, 0.0);
      showPreviewPoint := false;
      previewLineStart := Vec2(0.0, 0.0);
      draggingLine := false;
      draggingSelectionBox := false;
      layers := [];
      maxLayers := 0;
      selectedLayer := 0;
      hoveredShape := NoShape;
      selectedShapes := [];
      guiMouseOnGui := false;
      guiPreviewChanged := true;
      lineThickness := 0.1;
    }

    /** `setup`: select mode and a first layer "Layer #<count>"; the previews are then regenerated. */
    method Setup()
      modifies this`cursorMode, this`showPreviewPoint, this`draggingLine, this`draggingSelectionBox,
        this`selectedShapes, this`previewPoint, this`layers, this`maxLayers, this`guiPreviewChanged
      requires Valid()
      ensures Valid()
      ensures cursorMode == ModeSelect && !showPreviewPoint && !draggingLine && !draggingSelectionBox
      ensures selectedShapes == [] && !guiPreviewChanged
      ensures layers == [NamedLayer("Layer #" + NatToString(old(maxLayers)))] + old(layers)
      ensures maxLayers == old(maxLayers) + 1
    {
      ChangeMode(ModeSelect);
      AddDefaultLayer();
      guiPreviewChanged := false;
      showPreviewPoint := false;
    }

    /** `cancelShape`: the preview point shows again and no line is being drawn. */
    method CancelShape()
      modifies this`showPreviewPoint, this`draggingLine
      ensures showPreviewPoint && !draggingLine
    {
      showPreviewPoint := true;
      draggingLine := false;
    }

    /**
     * `moveLayerUp`: swaps a layer with the one in front of it; the
     * selection stays on the same layer. Whole layers swap, counters
     * included (as written each counter stays in place, see `SwapAsWritten`).
     */
    method MoveLayerUp(layer: int)
      modifies this`layers, this`selectedLayer, this`guiPreviewChanged, this`showPreviewPoint, this`draggingLine
      requires layer > 0 ==> layer < |layers|
      requires Valid()
      ensures Valid()
      ensures layer > 0 ==> (layers == AllegroLayerList.Swap(old(layers), layer, layer - 1)
        && guiPreviewChanged && showPreviewPoint && !draggingLine)
      ensures layer > 0 && 0 <= old(selectedLayer) < |layers| ==>
        (0 <= selectedLayer < |layers| && layers[selectedLayer] == old(layers)[old(selectedLayer)])
      ensures layer > 0 && !(0 <= old(selectedLayer) < |layers|) ==> selectedLayer == old(selectedLayer)
      ensures layer <= 0 ==> (layers == old(layers) && selectedLayer == old(selectedLayer)
        && guiPreviewChanged == old(guiPreviewChanged)
        && showPreviewPoint == old(showPreviewPoint) && draggingLine == old(draggingLine))
    {
      if layer > 0 {
        CancelShape();
        layers := AllegroLayerList.Swap(layers, layer, layer - 1);
        if selectedLayer == layer {
          selectedLayer := selectedLayer - 1;
        } else if selectedLayer == layer - 1 {
          selectedLayer := selectedLayer + 1;
        }
        guiPreviewChanged := true;
      }
    }

    /**
     * `moveLayerDown`: swaps a layer with the one behind it; the selection
     * stays on the same layer. The guard is the one the source means: a
     * layer with one behind it. Where there is a layer, it agrees with the
     * guard as written. Whole layers swap, counters included (as written
     * each counter stays in place, see `SwapAsWritten`).
     */
    method MoveLayerDown(layer: int)
      modifies this`layers, this`selectedLayer, this`guiPreviewChanged, this`showPreviewPoint, this`draggingLine
      requires Valid()
      ensures Valid()
      ensures 0 <= layer && layer + 1 < |old(layers)| ==>
        (layers == AllegroLayerList.Swap(old(layers), layer, layer + 1)
        && guiPreviewChanged && showPreviewPoint && !draggingLine)
      ensures 0 <= layer && layer + 1 < |old(layers)| && 0 <= old(selectedLayer) < |layers| ==>
        (0 <= selectedLayer < |layers| && layers[selectedLayer] == old(layers)[old(selectedLayer)])
      ensures !(0 <= layer && layer + 1 < |old(layers)|) ==>
        (layers == old(layers) && selectedLayer == old(selectedLayer)
        && guiPreviewChanged == old(guiPreviewChanged)
        && showPreviewPoint == old(showPreviewPoint) && draggingLine == old(draggingLine))
      ensures 0 <= layer && 1 <= |old(layers)| < SizeLimit ==>
        (layer + 1 < |old(layers)| <==> AllegroLayerList.MoveBackGuardAsWritten(layer, |old(layers)|))
    {
      if 0 <= layer && layer + 1 < |layers| {
        CancelShape();
        layers := AllegroLayerList.Swap(layers, layer, layer + 1);
        if selectedLayer == layer {
          selectedLayer := selectedLayer + 1;
        } else if selectedLayer == layer + 1 {
          selectedLayer := selectedLayer - 1;
        }
        guiPreviewChanged := true;
      }
    }

    /** `addLayer()`: a layer named "Layer #" and the number of layers added so far. */
    method AddDefaultLayer()
      modifies this`layers, this`maxLayers, this`guiPreviewChanged, this`showPreviewPoint, this`draggingLine
      requires Valid()
      ensures Valid()
      ensures layers == [NamedLayer("Layer #" + NatToString(old(maxLayers)))] + old(layers)
      ensures maxLayers == old(maxLayers) + 1 && guiPreviewChanged && showPreviewPoint && !draggingLine
    {
      AddLayer("Layer #" + NatToString(maxLayers));
    }

    /**
     * `addLayer(name)`: a new empty layer goes in front, the others keep
     * their shapes and counters. The selected index is not adjusted, so it
     * now names the layer in front of the one it named before.
     */
    method AddLayer(name: string)
      modifies this`layers, this`maxLayers, this`guiPreviewChanged, this`showPreviewPoint, this`draggingLine
      requires Valid()
      ensures Valid()
      ensures layers == [NamedLayer(name)] + old(layers)
      ensures maxLayers == old(maxLayers) + 1 && guiPreviewChanged && showPreviewPoint && !draggingLine
      ensures 0 <= selectedLayer < |old(layers)| ==> layers[selectedLayer + 1] == old(layers)[selectedLayer]
    {
      CancelShape();
      layers := [NamedLayer(name)] + layers;
      maxLayers := maxLayers + 1;
      guiPreviewChanged := true;
    }

    /**
     * `selectLayer`: an existing layer becomes the selected one and the
     * shape selection is cleared; any other index throws (false here, and
     * nothing changes).
     */
    method SelectLayer(layer: int) returns (ok: bool)
      modifies this`selectedLayer, this`selectedShapes, this`showPreviewPoint, this`draggingLine
      ensures ok <==> 0 <= layer < |layers|
      ensures ok ==> (selectedLayer == layer && selectedShapes == [] && showPreviewPoint && !draggingLine)
      ensures !ok ==> (selectedLayer == old(selectedLayer) && selectedShapes == old(selectedShapes)
        && showPreviewPoint == old(showPreviewPoint) && draggingLine == old(draggingLine))
    {
      if 0 <= layer < |layers| {
        CancelShape();
        selectedLayer := layer;
        selectedShapes := [];
        return true;
      }
      return false;
    }

    /**
     * `addLine`: a line between two different points goes onto the
     * selected layer with the current thickness; with no selected layer it
     * throws (false here, and nothing changes).
     */
    method AddLine(p1: Vec2, p2: Vec2) returns (ok: bool)
      modifies this`layers, this`guiPreviewChanged
      requires Valid()
      ensures Valid()
      ensures ok <==> p1 == p2 || HasSelectedLayer()
      ensures p1 != p2 && ok ==> (0 <= selectedLayer < |old(layers)| && layers == old(layers)[selectedLayer :=
        AddShapeTo(old(layers)[selectedLayer], L.ShapeLine, p1, p2, lineThickness)])
      ensures p1 == p2 || !ok ==> layers == old(layers)
      ensures guiPreviewChanged == (ok || old(guiPreviewChanged))
    {
      if p1 != p2 {
        if 0 <= selectedLayer < |layers| {
          layers := layers[selectedLayer := AddShapeTo(layers[selectedLayer], L.ShapeLine, p1, p2, lineThickness)];
        } else {
          return false;
        }
      }
      guiPreviewChanged := true;
      return true;
    }

    /**
     * `changeMode`: the shape being drawn is dropped and the selection
     * cleared; the select mode hides the preview point, the line modes show
     * it at the snapped mouse. An unknown mode changes nothing more.
     */
    method ChangeMode(mode: int)
      modifies this`cursorMode, this`showPreviewPoint, this`draggingLine, this`draggingSelectionBox,
        this`selectedShapes, this`previewPoint
      requires Valid()
      ensures Valid()
      ensures selectedShapes == []
      ensures mode == ModeSelect ==> (cursorMode == ModeSelect && !showPreviewPoint && !draggingLine
        && !draggingSelectionBox && previewPoint == old(previewPoint))
      ensures mode == ModeLine || mode == ModeLineStrip ==> (cursorMode == mode && showPreviewPoint
        && !draggingLine && !draggingSelectionBox && previewPoint == mouseSnapped)
      ensures mode !in {ModeSelect, ModeLine, ModeLineStrip} ==> (cursorMode == old(cursorMode)
        && showPreviewPoint && !draggingLine && draggingSelectionBox == old(draggingSelectionBox)
        && previewPoint == old(previewPoint))
    {
      CancelShape();
      selectedShapes := [];
      if mode == ModeSelect {
        cursorMode := ModeSelect;
        showPreviewPoint := false;
        draggingSelectionBox := false;
      } else if mode == ModeLine || mode == ModeLineStrip {
        cursorMode := mode;
        previewPoint := mouseSnapped;
        showPreviewPoint := true;
        draggingLine := false;
        draggingSelectionBox := false;
      }
    }

    /** `isShapeSelected`. */
    method IsShapeSelected(shape: nat) returns (r: bool)
      ensures r <==> shape in selectedShapes
    {
      for i := 0 to |selectedShapes|
        invariant shape !in selectedShapes[..i]
      {
        assert selectedShapes[..i + 1] == selectedShapes[..i] + [selectedShapes[i]];
        if selectedShapes[i] == shape {
          return true;
        }
      }
      assert selectedShapes[..|selectedShapes|] == selectedShapes;
      return false;
    }

    /** `deleteShape`: removes the shape from the selected layer (which must exist); afterwards no shape there has its id. */
    method DeleteShape(shape: nat) returns (removed: bool)
      modifies this`layers, this`guiPreviewChanged
      requires HasSelectedLayer() && Valid()
      ensures Valid() && guiPreviewChanged && |layers| == |old(layers)|
      ensures removed <==> L.IndexOfShape(old(layers)[selectedLayer].shapes, shape).Some?
      ensures forall i :: 0 <= i < |layers| && i != selectedLayer ==> layers[i] == old(layers)[i]
      ensures L.IndexOfShape(layers[selectedLayer].shapes, shape).None?
      ensures !removed ==> layers == old(layers)
    {
      guiPreviewChanged := true;
      var l;
      removed, l := RemoveShapeFrom(layers[selectedLayer], shape);
      layers := layers[selectedLayer := l];
    }

    /**
     * `mouseLeftPressed`: ignored over the GUI; otherwise the line modes
     * draw and the select mode selects, as the two halves below say. `ok`
     * is false where `addLine` throws, leaving the state it reached.
     */
    method MouseLeftPressed(ctrl: bool) returns (ok: bool)
      modifies this`layers, this`guiPreviewChanged, this`showPreviewPoint, this`draggingLine,
        this`previewLineStart, this`previewPoint, this`selectedShapes, this`draggingSelectionBox
      requires Valid()
      ensures Valid()
      ensures guiMouseOnGui || cursorMode !in {ModeSelect, ModeLine, ModeLineStrip} ==>
        (ok && layers == old(layers) && selectedShapes == old(selectedShapes)
        && draggingLine == old(draggingLine) && showPreviewPoint == old(showPreviewPoint)
        && guiPreviewChanged == old(guiPreviewChanged) && previewLineStart == old(previewLineStart)
        && previewPoint == old(previewPoint) && draggingSelectionBox == old(draggingSelectionBox))
      // The select mode: the halves of `SelectPressed`, with nothing drawn.
      ensures !guiMouseOnGui && cursorMode == ModeSelect ==>
        (ok && layers == old(layers) && guiPreviewChanged == old(guiPreviewChanged)
        && draggingLine == old(draggingLine) && previewLineStart == old(previewLineStart))
      ensures !guiMouseOnGui && cursorMode == ModeSelect && hoveredShape == NoShape && ctrl ==>
        (selectedShapes == old(selectedShapes) && draggingSelectionBox == old(draggingSelectionBox)
        && showPreviewPoint == old(showPreviewPoint) && previewPoint == old(previewPoint))
      ensures !guiMouseOnGui && cursorMode == ModeSelect && hoveredShape == NoShape && !ctrl ==>
        (selectedShapes == [] && draggingSelectionBox && previewPoint == mouse && !showPreviewPoint)
      ensures !guiMouseOnGui && cursorMode == ModeSelect && hoveredShape != NoShape ==>
        ((!ctrl ==> selectedShapes == [hoveredShape])
        && (ctrl && hoveredShape !in old(selectedShapes) ==> selectedShapes == old(selectedShapes) + [hoveredShape])
        && (ctrl ==> (hoveredShape in selectedShapes <==> hoveredShape !in old(selectedShapes))
                     && forall x :: x != hoveredShape ==> (x in selectedShapes <==> x in old(selectedShapes)))
        && draggingSelectionBox == old(draggingSelectionBox) && showPreviewPoint == old(showPreviewPoint)
        && previewPoint == old(previewPoint))
      // The line modes: the halves of `LinePressed`, with the selection untouched.
      ensures !guiMouseOnGui && cursorMode in {ModeLine, ModeLineStrip} ==>
        (selectedShapes == old(selectedShapes) && draggingSelectionBox == old(draggingSelectionBox))
      ensures !guiMouseOnGui && cursorMode in {ModeLine, ModeLineStrip} && !old(draggingLine) ==>
        (ok && draggingLine && !showPreviewPoint && previewLineStart == mouseSnapped && layers == old(layers)
        && previewPoint == old(previewPoint) && guiPreviewChanged == old(guiPreviewChanged))
      ensures !guiMouseOnGui && cursorMode in {ModeLine, ModeLineStrip} && old(draggingLine) ==>
        ((ok <==> mouseSnapped == old(previewLineStart) || HasSelectedLayer())
        && (mouseSnapped == old(previewLineStart) || !ok ==> layers == old(layers))
        && (mouseSnapped != old(previewLineStart) && ok ==>
              0 <= selectedLayer < |old(layers)|
              && layers == old(layers)[selectedLayer := AddShapeTo(old(layers)[selectedLayer], L.ShapeLine,
                mouseSnapped, old(previewLineStart), lineThickness)])
        && guiPreviewChanged == ((mouseSnapped != old(previewLineStart) && ok) || old(guiPreviewChanged)))
      ensures !guiMouseOnGui && cursorMode == ModeLineStrip && old(draggingLine) ==>
        (previewPoint == old(previewPoint)
        && (ok ==> draggingLine && !showPreviewPoint && previewLineStart == mouseSnapped)
        && (!ok ==> draggingLine && showPreviewPoint == old(showPreviewPoint)
                    && previewLineStart == old(previewLineStart)))
      ensures !guiMouseOnGui && cursorMode == ModeLine && old(draggingLine) ==>
        (!draggingLine && showPreviewPoint && previewPoint == mouseSnapped
        && previewLineStart == old(previewLineStart))
    {
      ok := true;
      if guiMouseOnGui {
        return;
      }
      if cursorMode == ModeLine || cursorMode == ModeLineStrip {
        ok := LinePressed();
      } else if cursorMode == ModeSelect {
        SelectPressed(ctrl);
      }
    }

    /**
     * The line modes of `mouseLeftPressed`: the first click starts a line
     * at the snapped mouse, the second ends it there (a strip goes on from
     * that point); a line of zero length is not added.
     */
    method LinePressed() returns (ok: bool)
      modifies this`layers, this`guiPreviewChanged, this`showPreviewPoint, this`draggingLine,
        this`previewLineStart, this`previewPoint
      requires Valid()
      ensures Valid()
      ensures !old(draggingLine) ==>
        (ok && draggingLine && !showPreviewPoint && previewLineStart == mouseSnapped && layers == old(layers))
      ensures old(draggingLine) ==> (ok <==> mouseSnapped == old(previewLineStart) || HasSelectedLayer())
      ensures old(draggingLine) && (mouseSnapped == old(previewLineStart) || !ok) ==> layers == old(layers)
      ensures old(draggingLine) && mouseSnapped != old(previewLineStart) && ok ==>
        (0 <= selectedLayer < |old(layers)|
        && layers == old(layers)[selectedLayer := AddShapeTo(old(layers)[selectedLayer], L.ShapeLine,
          mouseSnapped, old(previewLineStart), lineThickness)])
      ensures old(draggingLine) && cursorMode == ModeLineStrip && ok ==>
        (draggingLine && !showPreviewPoint && previewLineStart == mouseSnapped)
      ensures old(draggingLine) && cursorMode == ModeLineStrip && !ok ==>
        (layers == old(layers) && draggingLine && showPreviewPoint == old(showPreviewPoint)
        && previewLineStart == old(previewLineStart))
      ensures old(draggingLine) && cursorMode != ModeLineStrip ==>
        (!draggingLine && showPreviewPoint && previewPoint == mouseSnapped
        && previewLineStart == old(previewLineStart))
      ensures !old(draggingLine) || cursorMode == ModeLineStrip ==> previewPoint == old(previewPoint)
      ensures !old(draggingLine) ==> guiPreviewChanged == old(guiPreviewChanged)
      ensures old(draggingLine) ==>
        guiPreviewChanged == ((mouseSnapped != old(previewLineStart) && ok) || old(guiPreviewChanged))
    {
      if !draggingLine {
        draggingLine := true;
        showPreviewPoint := false;
        previewLineStart := mouseSnapped;
        ok := true;
      } else if cursorMode == ModeLineStrip {
        ok := ContinueStrip();
      } else {
        ok := FinishLine();
      }
    }

    /** A further click of the line-strip mode: the segment to it is added and the strip goes on from there. */
    method ContinueStrip() returns (ok: bool)
      modifies this`layers, this`guiPreviewChanged, this`showPreviewPoint, this`draggingLine, this`previewLineStart
      requires Valid()
      ensures Valid()
      ensures ok <==> mouseSnapped == old(previewLineStart) || HasSelectedLayer()
      ensures mouseSnapped == old(previewLineStart) ==> layers == old(layers)
      ensures mouseSnapped != old(previewLineStart) && ok ==>
        (0 <= selectedLayer < |old(layers)|
        && layers == old(layers)[selectedLayer := AddShapeTo(old(layers)[selectedLayer], L.ShapeLine,
          mouseSnapped, old(previewLineStart), lineThickness)])
      ensures ok ==> (draggingLine && !showPreviewPoint && previewLineStart == mouseSnapped)
      ensures !ok ==> (layers == old(layers) && draggingLine == old(draggingLine)
        && showPreviewPoint == old(showPreviewPoint) && previewLineStart == old(previewLineStart))
      ensures guiPreviewChanged == ((mouseSnapped != old(previewLineStart) && ok) || old(guiPreviewChanged))
    {
      ok := true;
      if mouseSnapped != previewLineStart {
        ok := AddLine(mouseSnapped, previewLineStart);
        if !ok {
          return;
        }
      }
      showPreviewPoint := false;
      draggingLine := true;
      previewLineStart := mouseSnapped;
    }

    /** The second click of the line mode: the line to it is added and drawing stops. */
    method FinishLine() returns (ok: bool)
      modifies this`layers, this`guiPreviewChanged, this`showPreviewPoint, this`draggingLine, this`previewPoint
      requires Valid()
      ensures Valid()
      ensures ok <==> mouseSnapped == previewLineStart || HasSelectedLayer()
      ensures mouseSnapped == previewLineStart ==> layers == old(layers)
      ensures mouseSnapped != previewLineStart && ok ==>
        (0 <= selectedLayer < |old(layers)|
        && layers == old(layers)[selectedLayer := AddShapeTo(old(layers)[selectedLayer], L.ShapeLine,
          mouseSnapped, previewLineStart, lineThickness)])
      ensures !draggingLine && showPreviewPoint && previewPoint == mouseSnapped
      ensures !ok ==> layers == old(layers)
      ensures guiPreviewChanged == ((mouseSnapped != previewLineStart && ok) || old(guiPreviewChanged))
    {
      showPreviewPoint := true;
      draggingLine := false;
      previewPoint := mouseSnapped;
      ok := true;
      if mouseSnapped != previewLineStart {
        ok := AddLine(mouseSnapped, previewLineStart);
      }
    }

    /**
     * The select mode of `mouseLeftPressed`: a click on no shape clears the
     * selection and starts a selection box (unless Ctrl is held), a
     * Ctrl-click toggles the hovered shape, and a plain click selects it
     * alone.
     */
    method SelectPressed(ctrl: bool)
      modifies this`selectedShapes, this`draggingSelectionBox, this`previewPoint, this`showPreviewPoint
      requires Valid()
      ensures Valid()
      ensures hoveredShape == NoShape && ctrl ==> (selectedShapes == old(selectedShapes)
        && draggingSelectionBox == old(draggingSelectionBox) && showPreviewPoint == old(showPreviewPoint))
      ensures hoveredShape == NoShape && !ctrl ==>
        (selectedShapes == [] && draggingSelectionBox && previewPoint == mouse && !showPreviewPoint)
      ensures hoveredShape != NoShape && !ctrl ==> selectedShapes == [hoveredShape]
      ensures hoveredShape != NoShape && ctrl ==>
        ((hoveredShape in selectedShapes <==> hoveredShape !in old(selectedShapes))
        && forall x :: x != hoveredShape ==> (x in selectedShapes <==> x in old(selectedShapes)))
      ensures hoveredShape != NoShape && ctrl && hoveredShape !in old(selectedShapes) ==>
        selectedShapes == old(selectedShapes) + [hoveredShape]
      ensures hoveredShape != NoShape ==> (draggingSelectionBox == old(draggingSelectionBox)
        && showPreviewPoint == old(showPreviewPoint))
      ensures hoveredShape != NoShape || ctrl ==> previewPoint == old(previewPoint)
    {
      if hoveredShape == NoShape {
        if !ctrl {
          selectedShapes := [];
          draggingSelectionBox := true;
          previewPoint := mouse;
          showPreviewPoint := false;
        }
      } else if ctrl {
        var selected := IsShapeSelected(hoveredShape);
        if selected {
          selectedShapes := EraseMatches(selectedShapes, hoveredShape);
        } else {
          selectedShapes := selectedShapes + [hoveredShape];
        }
      } else {
        selectedShapes := [hoveredShape];
      }
    }

    /** `mouseRightPressed`: drops the line being drawn. */
    method MouseRightPressed()
      modifies this`showPreviewPoint, this`draggingLine
      ensures showPreviewPoint && !draggingLine
    {
      CancelShape();
    }

    /**
     * `mouseLeftReleased`: a selection box being dragged ends, and the
     * selection becomes the lines of the selected layer (which must exist)
     * lying wholly inside the box from the workspace position of its start
     * corner to the mouse.
     */
    method MouseLeftReleased(toWorkspace: Vec2 -> Vec2)
      modifies this`draggingSelectionBox, this`selectedShapes
      requires draggingSelectionBox ==> HasSelectedLayer()
      requires Valid()
      ensures Valid() && !draggingSelectionBox
      ensures old(draggingSelectionBox) ==>
        selectedShapes == BoxSelection(layers[selectedLayer].shapes, toWorkspace(previewPoint), mousePos)
      ensures !old(draggingSelectionBox) ==> selectedShapes == old(selectedShapes)
    {
      if draggingSelectionBox {
        draggingSelectionBox := false;
        selectedShapes := [];
        var prev := toWorkspace(previewPoint);
        var shapes := layers[selectedLayer].shapes;
        for i := 0 to |shapes|
          invariant selectedShapes == BoxSelection(shapes[..i], prev, mousePos)
          invariant !draggingSelectionBox
        {
          assert shapes[..i + 1][..i] == shapes[..i];
          if LineInBox(shapes[i], prev, mousePos) {
            selectedShapes := selectedShapes + [shapes[i].shapeID];
          }
        }
        assert shapes[..|shapes|] == shapes;
        BoxSelectionDistinct(layers[selectedLayer], |shapes|, prev, mousePos);
      }
    }

    /**
     * `mouseHovered`: ends any selection box; in a line mode the preview
     * point follows the snapped mouse unless a line is being drawn; in the
     * select mode the hovered shape becomes the topmost line of the
     * selected layer (which must exist) that the mouse is near, or -1.
     */
    method MouseHovered(near: L.Shape -> bool)
      modifies this`draggingSelectionBox, this`previewPoint, this`hoveredShape
      requires !guiMouseOnGui && cursorMode == ModeSelect ==> HasSelectedLayer()
      ensures guiMouseOnGui ==> (draggingSelectionBox == old(draggingSelectionBox)
        && previewPoint == old(previewPoint) && hoveredShape == old(hoveredShape))
      ensures !guiMouseOnGui ==> !draggingSelectionBox
      ensures !guiMouseOnGui && cursorMode in {ModeLine, ModeLineStrip} ==>
        (previewPoint == (if draggingLine then old(previewPoint) else mouseSnapped)
        && hoveredShape == old(hoveredShape))
      ensures !guiMouseOnGui && cursorMode == ModeSelect ==>
        (hoveredShape == HoveredId(layers[selectedLayer].shapes, near) && previewPoint == old(previewPoint))
    {
      if guiMouseOnGui {
        return;
      }
      draggingSelectionBox := false;
      if cursorMode == ModeLine || cursorMode == ModeLineStrip {
        if !draggingLine {
          previewPoint := mouseSnapped;
        }
      } else if cursorMode == ModeSelect {
        hoveredShape := NoShape;
        var shapes := layers[selectedLayer].shapes;
        var i := |shapes|;
        while i > 0
          invariant 0 <= i <= |shapes|
          invariant forall j :: i <= j < |shapes| ==> !NearLine(shapes[j], near)
          invariant hoveredShape == NoShape && !draggingSelectionBox && previewPoint == old(previewPoint)
        {
          i := i - 1;
          if shapes[i].kind == L.ShapeLine && near(shapes[i]) {
            hoveredShape := shapes[i].shapeID;
            TopmostIs(shapes, near, i);
            return;
          }
        }
      }
    }
  }

  /** A near line with no near line after it is the topmost one. */
  lemma {:induction false} TopmostIs(shapes: seq<L.Shape>, near: L.Shape -> bool, i: nat)
    requires i < |shapes| && NearLine(shapes[i], near)
    requires forall j :: i < j < |shapes| ==> !NearLine(shapes[j], near)
    ensures TopmostNear(shapes, near) == Some(i)
  {
    if i < |shapes| - 1 {
      var init := shapes[..|shapes| - 1];
      assert forall j :: 0 <= j < |init| ==> init[j] == shapes[j];
      TopmostIs(init, near, i);
    }
  }
}
