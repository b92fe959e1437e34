// The open drawing of the Allegro edition (src/SketchFile.cpp): a layer
// list, the number for the next generated layer name, the file's name and
// location, and the flags that tell the window the previews must be redrawn
// and the file has unsaved changes. Its methods change these fields in
// place. The layer previews are bitmaps and are not modelled.

module AllegroSketchFile {
  import opened Wrappers
  import opened Decimal
  import opened Geometry
  import opened JsonValue
  import opened AllegroLayer
  import opened AllegroLayerList

  const DefaultFilename: string := "Unnamed.tsk"

  /** The generated name of layer number `n`. */
  function LayerName(n: nat): string
  {
    "Layer #" + NatToString(n)
  }

  class SketchFile {
    const layers: LayerList
    var nextLayerName: nat
    var regeneratePreviews: bool
    var filename: string
    var fileChanged: bool
    var fileChangedEventFlag: bool
    var fileLocation: string

    ghost predicate Valid()
      reads this, layers
    {
      layers.Valid()
    }

    /** `SketchFile()`: opens a new file, with one layer named "Layer #0" and id 0, selected. */
    constructor ()
      ensures Valid() && fresh(layers)
      ensures layers.layers == [NewLayer(LayerName(0), 0)] && layers.layerOrder == [0]
      ensures layers.selectedLayer == 0 && layers.nextLayerID == 1
      ensures nextLayerName == 1 && regeneratePreviews && filename == DefaultFilename
      ensures !fileChanged && !fileChangedEventFlag && fileLocation == ""
    {
      layers := new LayerList();
      new;
      OpenNewFile();
    }

    /** `getCurrentLayer`: the selected layer, none if the selection is not an existing layer. */
    method GetCurrentLayer() returns (r: Option<nat>)
      requires Valid()
      ensures r.Some? <==> layers.selectedLayer != NoLayer && layers.selectedLayer in LayerIds(layers.layers)
      ensures r.Some? ==> r.value < |layers.layers| && layers.layers[r.value].layerID == layers.selectedLayer
    {
      var exists_ := layers.LayerExists(layers.selectedLayer);
      if !exists_ {
        return None;
      }
      r := layers.GetSelectedLayer();
    }

    /** `getCurrentLayerShapes`: the shapes of the current layer; empty when there is none. */
    method GetCurrentLayerShapes() returns (shapes: seq<Shape>)
      requires Valid()
      ensures layers.selectedLayer != NoLayer && layers.selectedLayer in LayerIds(layers.layers) ==>
        var i := IndexIn(LayerIds(layers.layers), layers.selectedLayer).value;
        shapes == layers.layers[i].shapes
      ensures !(layers.selectedLayer != NoLayer && layers.selectedLayer in LayerIds(layers.layers)) ==> shapes == []
    {
      var current := GetCurrentLayer();
      if current.None? {
        return [];
      }
      IndexInUnique(LayerIds(layers.layers), current.value);
      shapes := layers.layers[current.value].shapes;
    }

    /** `fileChanged`: marks the file changed; the event flag is raised only on the first change. */
    method FileChanged()
      modifies this
      ensures fileChanged
      ensures fileChangedEventFlag == (old(fileChangedEventFlag) || !old(fileChanged))
      ensures nextLayerName == old(nextLayerName) && regeneratePreviews == old(regeneratePreviews)
      ensures filename == old(filename) && fileLocation == old(fileLocation)
    {
      if !fileChanged {
        fileChanged := true;
        fileChangedEventFlag := true;
      }
    }

    method SetPreviewRegenerateFlag()
      modifies this
      ensures regeneratePreviews
      ensures nextLayerName == old(nextLayerName) && filename == old(filename) && fileLocation == old(fileLocation)
      ensures fileChanged == old(fileChanged) && fileChangedEventFlag == old(fileChangedEventFlag)
    {
      regeneratePreviews := true;
    }

    method ClearPreviewRegenerateFlag()
      modifies this
      ensures !regeneratePreviews
      ensures nextLayerName == old(nextLayerName) && filename == old(filename) && fileLocation == old(fileLocation)
      ensures fileChanged == old(fileChanged) && fileChangedEventFlag == old(fileChangedEventFlag)
    {
      regeneratePreviews := false;
    }

    method GetPreviewRegenerateFlag() returns (r: bool)
      ensures r == regeneratePreviews
    {
      r := regeneratePreviews;
    }

    /**
     * `addNewLayer(name)`: a new layer in front, selected; the name counter
     * moves on, previews are redrawn and the file is marked changed.
     */
    method AddNewLayerNamed(name: string)
      requires Valid()
      modifies this, layers
      ensures Valid()
      ensures layers.layers == old(layers.layers) + [NewLayer(name, old(layers.nextLayerID))]
      ensures layers.layerOrder == [old(layers.nextLayerID)] + old(layers.layerOrder)
      ensures layers.selectedLayer ==
        (if old(layers.nextLayerID) != NoLayer then old(layers.nextLayerID) else old(layers.selectedLayer))
      ensures layers.nextLayerID == old(layers.nextLayerID) + 1
      ensures nextLayerName == old(nextLayerName) + 1 && regeneratePreviews
      ensures fileChanged && fileChangedEventFlag == (old(fileChangedEventFlag) || !old(fileChanged))
      ensures filename == old(filename) && fileLocation == old(fileLocation)
    {
      layers.AddLayerFront(name);
      nextLayerName := nextLayerName + 1;
      SetPreviewRegenerateFlag();
      FileChanged();
    }

    /** `addNewLayer()`: a new layer named "Layer #n" with the name counter's value. */
    method AddNewLayer()
      requires Valid()
      modifies this, layers
      ensures Valid()
      ensures layers.layers == old(layers.layers) + [NewLayer(LayerName(old(nextLayerName)), old(layers.nextLayerID))]
      ensures layers.layerOrder == [old(layers.nextLayerID)] + old(layers.layerOrder)
      ensures layers.selectedLayer ==
        (if old(layers.nextLayerID) != NoLayer then old(layers.nextLayerID) else old(layers.selectedLayer))
      ensures layers.nextLayerID == old(layers.nextLayerID) + 1
      ensures nextLayerName == old(nextLayerName) + 1 && regeneratePreviews
      ensures fileChanged && fileChangedEventFlag == (old(fileChangedEventFlag) || !old(fileChanged))
      ensures filename == old(filename) && fileLocation == old(fileLocation)
    {
      AddNewLayerNamed(LayerName(nextLayerName));
    }

    /** `deleteLayer`: deletes the layer if it exists; either way previews are redrawn and the file is marked changed. */
    method DeleteLayer(id: nat)
      requires Valid()
      modifies this, layers
      ensures Valid()
      ensures id !in LayerIds(layers.layers) && id !in layers.layerOrder
      ensures id in LayerIds(old(layers.layers)) ==>
        layers.layers == EraseAt(old(layers.layers), IndexIn(LayerIds(old(layers.layers)), id).value)
      ensures id in LayerIds(old(layers.layers)) ==>
        id in old(layers.layerOrder) &&
        layers.layerOrder == EraseAt(old(layers.layerOrder), IndexIn(old(layers.layerOrder), id).value)
      ensures id !in LayerIds(old(layers.layers)) ==>
        layers.layers == old(layers.layers) && layers.layerOrder == old(layers.layerOrder)
      ensures layers.selectedLayer == (if old(layers.selectedLayer) == id then NoLayer else old(layers.selectedLayer))
      ensures layers.nextLayerID == old(layers.nextLayerID)
      ensures regeneratePreviews && fileChanged && nextLayerName == old(nextLayerName)
      ensures fileChangedEventFlag == (old(fileChangedEventFlag) || !old(fileChanged))
      ensures filename == old(filename) && fileLocation == old(fileLocation)
    {
      layers.OrderDistinct();
      var _ := layers.DeleteLayer(id);
      SetPreviewRegenerateFlag();
      FileChanged();
    }

    /** `moveLayerFront`: one step to the front of the drawing order, when possible. */
    method MoveLayerFront(id: nat)
      requires Valid()
      modifies this, layers
      ensures Valid()
      ensures var k := IndexIn(old(layers.layerOrder), id);
        layers.layerOrder == if k.Some? && k.value >= 1 then Swap(old(layers.layerOrder), k.value, k.value - 1)
                             else old(layers.layerOrder)
      ensures layers.layers == old(layers.layers) && layers.selectedLayer == old(layers.selectedLayer)
      ensures layers.nextLayerID == old(layers.nextLayerID)
      ensures regeneratePreviews && fileChanged && nextLayerName == old(nextLayerName)
      ensures fileChangedEventFlag == (old(fileChangedEventFlag) || !old(fileChanged))
      ensures filename == old(filename) && fileLocation == old(fileLocation)
    {
      var _ := layers.MoveLayerFront(id);
      SetPreviewRegenerateFlag();
      FileChanged();
    }

    /** `moveLayerBack`: one step to the back of the drawing order, when possible. */
    method MoveLayerBack(id: nat)
      requires Valid()
      modifies this, layers
      ensures Valid()
      ensures var k := IndexIn(old(layers.layerOrder), id);
        layers.layerOrder == if k.Some? && k.value + 1 < |old(layers.layerOrder)| then Swap(old(layers.layerOrder), k.value, k.value + 1)
                             else old(layers.layerOrder)
      ensures layers.layers == old(layers.layers) && layers.selectedLayer == old(layers.selectedLayer)
      ensures layers.nextLayerID == old(layers.nextLayerID)
      ensures regeneratePreviews && fileChanged && nextLayerName == old(nextLayerName)
      ensures fileChangedEventFlag == (old(fileChangedEventFlag) || !old(fileChanged))
      ensures filename == old(filename) && fileLocation == old(fileLocation)
    {
      var _ := layers.MoveLayerBack(id);
      SetPreviewRegenerateFlag();
      FileChanged();
    }

    /**
     * `addShape`: adds the shape to the current layer; without a current
     * layer nothing happens. The file is not marked changed here.
     */
    method AddShape(kind: ShapeType, p1: Vec2, p2: Vec2, thickness: real)
      requires Valid()
      modifies layers
      ensures Valid()
      ensures var sel := old(layers.selectedLayer);
        if sel != NoLayer && sel in LayerIds(old(layers.layers)) then
          var i := IndexIn(LayerIds(old(layers.layers)), sel).value;
          layers.layers == old(layers.layers)[i := AllegroLayer.AddShape(old(layers.layers)[i], kind, p1, p2, thickness)]
        else layers.layers == old(layers.layers)
      ensures layers.layerOrder == old(layers.layerOrder) && layers.selectedLayer == old(layers.selectedLayer)
      ensures layers.nextLayerID == old(layers.nextLayerID)
    {
      var current := GetCurrentLayer();
      if current.Some? {
        IndexInUnique(LayerIds(layers.layers), current.value);
        layers.AddShapeAt(current.value, kind, p1, p2, thickness);
      }
    }

    /**
     * `openNewFile`: empties the layer list, restarts the name counter,
     * adds "Layer #0" and resets the file's name, location and flags.
     */
    method OpenNewFile()
      requires Valid()
      modifies this, layers
      ensures Valid()
      ensures layers.layers == [NewLayer(LayerName(0), old(layers.nextLayerID))]
      ensures layers.layerOrder == [old(layers.nextLayerID)]
      ensures layers.selectedLayer == (if old(layers.nextLayerID) != NoLayer then old(layers.nextLayerID) else NoLayer)
      ensures layers.nextLayerID == old(layers.nextLayerID) + 1
      ensures nextLayerName == 1 && regeneratePreviews && filename == DefaultFilename
      ensures !fileChanged && !fileChangedEventFlag && fileLocation == ""
    {
      layers.Clear();
      nextLayerName := 0;
      regeneratePreviews := true;
      filename := DefaultFilename;
      AddNewLayer();
      fileChanged := false;
      fileChangedEventFlag := false;
      fileLocation := "";
    }

    /**
     * `loadFile`: `parsed` is the outcome of parsing the content and
     * reading "next_layer_name" and the layer list, none when any of it
     * throws or fails. On failure nothing changes; on success the list and
     * counter are replaced and the file takes the given name and path,
     * unchanged.
     */
    method LoadFile(parsed: Option<(nat, seq<Layer>, seq<nat>, nat, nat)>, path: string, displayName: string) returns (ok: bool)
      requires Valid()
      requires parsed.Some? ==> ListInvariant(parsed.value.1, parsed.value.2, parsed.value.3, parsed.value.4)
      modifies this, layers
      ensures Valid()
      ensures ok <==> parsed.Some?
      ensures ok ==> layers.layers == parsed.value.1 && layers.layerOrder == parsed.value.2
      ensures ok ==> layers.selectedLayer == parsed.value.3 && layers.nextLayerID == parsed.value.4
      ensures ok ==> nextLayerName == parsed.value.0 && regeneratePreviews && filename == displayName
      ensures ok ==> !fileChanged && !fileChangedEventFlag && fileLocation == path
      ensures !ok ==> layers.layers == old(layers.layers) && layers.layerOrder == old(layers.layerOrder)
      ensures !ok ==> layers.selectedLayer == old(layers.selectedLayer) && layers.nextLayerID == old(layers.nextLayerID)
      ensures !ok ==> nextLayerName == old(nextLayerName) && filename == old(filename) && fileLocation == old(fileLocation)
      ensures !ok ==> fileChanged == old(fileChanged) && fileChangedEventFlag == old(fileChangedEventFlag)
      ensures !ok ==> regeneratePreviews == old(regeneratePreviews)
    {
      if parsed.None? {
        return false;
      }
      var (name, ls, order, selected, next) := parsed.value;
      layers.Clear();
      layers.Assign(ls, order, selected, next);
      nextLayerName := name;
      regeneratePreviews := true;
      filename := displayName;
      fileChanged := false;
      fileChangedEventFlag := false;
      fileLocation := path;
      return true;
    }

    /** `getJson`: the layer list's JSON with "next_layer_name" added. */
    method GetJson(encode: Shape -> Json) returns (j: Json)
      ensures j == SketchJson(layers.layers, layers.layerOrder, layers.nextLayerID, nextLayerName, encode)
    {
      var list := layers.GetJson(encode);
      j := Obj(list.fields + [("next_layer_name", Num(nextLayerName))]);
    }
  }

  /** The first index of a value that occurs is the index where it is found, when values are distinct. */
  lemma IndexInUnique(s: seq<nat>, i: nat)
    requires i < |s| && Distinct(s)
    ensures IndexIn(s, s[i]) == Some(i)
  {
    IndexInIs(s, s[i], i);
  }

  /** The saved file: the layer list's JSON and "next_layer_name". */
  function SketchJson(ls: seq<Layer>, order: seq<nat>, next: nat, nameCounter: nat, encode: Shape -> Json): Json
  {
    Obj(ListJson(ls, order, next, encode).fields + [("next_layer_name", Num(nameCounter))])
  }

  /** The reading of a saved file: the name counter and the layer list. */
  function SketchOfJson(j: Json, decode: Json -> Option<Shape>): Option<(nat, (seq<Layer>, seq<nat>, nat))>
  {
    var n := AsNat(Field(j, "next_layer_name"));
    var list := ListOfJson(j, decode);
    if n.Some? && list.Some? then Some((n.value, list.value)) else None
  }

  /** Nothing a saved file holds is lost: reading it back gives the counter, layers, order and id counter. */
  lemma SketchJsonRoundTrip(ls: seq<Layer>, order: seq<nat>, next: nat, nameCounter: nat,
                            encode: Shape -> Json, decode: Json -> Option<Shape>)
    requires forall s :: decode(encode(s)) == Some(s)
    ensures SketchOfJson(SketchJson(ls, order, next, nameCounter, encode), decode) == Some((nameCounter, (ls, order, next)))
  {
    var list := ListJson(ls, order, next, encode);
    var f := ("next_layer_name", Num(nameCounter));
    var j := SketchJson(ls, order, next, nameCounter, encode);
    ListJsonFields(ls, order, next, encode);
    FieldAfter(list.fields, f, "layers");
    FieldAfter(list.fields, f, "layer_order");
    FieldAfter(list.fields, f, "next_id");
    FieldAfter(list.fields, f, "next_layer_name");
    ListJsonNoNameField(ls, order, next, encode);
    ListsAgree(list, j, decode);
    ListJsonRoundTrip(ls, order, next, encode, decode);
    assert AsNat(Field(j, "next_layer_name")) == Some(nameCounter);
  }

  /** Two documents that agree on the layer list's keys read as the same layer list. */
  lemma ListsAgree(a: Json, b: Json, decode: Json -> Option<Shape>)
    requires Field(a, "layers") == Field(b, "layers")
    requires Field(a, "layer_order") == Field(b, "layer_order")
    requires Field(a, "next_id") == Field(b, "next_id")
    ensures ListOfJson(a, decode) == ListOfJson(b, decode)
  {
  }

  /** The layer list's JSON has no "next_layer_name" key of its own. */
  lemma ListJsonNoNameField(ls: seq<Layer>, order: seq<nat>, next: nat, encode: Shape -> Json)
    ensures Field(ListJson(ls, order, next, encode), "next_layer_name").None?
  {
    var f0 := ("layers", Arr(LayersJson(ls, encode)));
    var f1 := ("layer_order", Arr(NumsJson(order)));
    var f2 := ("next_id", Num(next));
    assert ListJson(ls, order, next, encode) == Obj([f0] + [f1, f2]);
    assert [f1, f2] == [f1] + [f2] && [f2] == [f2] + [];
    FieldSkips("next_layer_name", f0, [f1, f2]);
    FieldSkips("next_layer_name", f1, [f2]);
    FieldSkips("next_layer_name", f2, []);
  }
}
