// A drawing layer of the Allegro edition (`include/Layer.h`): a named list
// of shapes with a per-layer counter that gives every new shape its id.
// Layers live by value in `std::vector`s and their copy constructor copies
// every field, so a layer is a value here; an operation that changes a
// layer in place returns the changed layer. The bitmap preview is not
// modelled. Shapes are written to and read from JSON by `Shape::getJson`
// and the `Shape(json)` constructor, which are passed in as functions.

module AllegroLayer {
  import opened Wrappers
  import opened Geometry
  import opened JsonValue

  datatype ShapeType = ShapeInvalid | ShapeLine | ShapeCircle

  datatype Shape = Shape(shapeID: nat, kind: ShapeType, p1: Vec2, p2: Vec2, thickness: real)

  datatype Layer = Layer(name: string, layerID: nat, shapes: seq<Shape>, nextShapeID: nat)

  /** `Layer(name, id)`: no shapes, the shape counter at 0. */
  function NewLayer(name: string, id: nat): Layer
  {
    Layer(name, id, [], 0)
  }

  /** Every shape id is below the counter and no two shapes share an id. */
  predicate IdsFresh(l: Layer)
  {
    (forall i :: 0 <= i < |l.shapes| ==> l.shapes[i].shapeID < l.nextShapeID) &&
    (forall i, j :: 0 <= i < j < |l.shapes| ==> l.shapes[i].shapeID != l.shapes[j].shapeID)
  }

  /** A new layer has fresh ids. */
  lemma NewLayerIdsFresh(name: string, id: nat)
    ensures IdsFresh(NewLayer(name, id)) && NewLayer(name, id).shapes == []
  {
  }

  /** The first shape with the id, if any. */
  function IndexOfShape(shapes: seq<Shape>, id: nat): (r: Option<nat>)
    ensures r.Some? ==> r.value < |shapes| && shapes[r.value].shapeID == id
    ensures r.Some? ==> forall j :: 0 <= j < r.value ==> shapes[j].shapeID != id
    ensures r.None? <==> forall j :: 0 <= j < |shapes| ==> shapes[j].shapeID != id
  {
    if shapes == [] then None
    else if shapes[0].shapeID == id then Some(0)
    else
      var r := IndexOfShape(shapes[1..], id);
      if r.Some? then Some(r.value + 1) else None
  }

  /**
   * `addShape`: the shape is appended with the counter's value as its id,
   * and the counter moves on, so ids stay unique.
   */
  function AddShape(l: Layer, kind: ShapeType, p1: Vec2, p2: Vec2, thickness: real): (r: Layer)
    ensures r.name == l.name && r.layerID == l.layerID
    ensures |r.shapes| == |l.shapes| + 1 && r.shapes[..|l.shapes|] == l.shapes
    ensures r.shapes[|l.shapes|] == Shape(l.nextShapeID, kind, p1, p2, thickness)
    ensures IdsFresh(l) ==> IdsFresh(r) && IndexOfShape(r.shapes, l.nextShapeID) == Some(|l.shapes|)
  {
    var r := l.(shapes := l.shapes + [Shape(l.nextShapeID, kind, p1, p2, thickness)], nextShapeID := l.nextShapeID + 1);
    assert r.shapes[..|l.shapes|] == l.shapes;
    r
  }

  /**
   * `removeShape`: erases the first shape with the id and reports true, or
   * reports false and leaves the layer as it was.
   */
  method RemoveShape(l: Layer, id: nat) returns (removed: bool, r: Layer)
    ensures removed <==> IndexOfShape(l.shapes, id).Some?
    ensures removed ==>
      var i := IndexOfShape(l.shapes, id).value;
      r == l.(shapes := l.shapes[..i] + l.shapes[i + 1..])
    ensures !removed ==> r == l
    ensures IdsFresh(l) ==> IdsFresh(r) && IndexOfShape(r.shapes, id).None?
  {
    for i := 0 to |l.shapes|
      invariant forall j :: 0 <= j < i ==> l.shapes[j].shapeID != id
    {
      if l.shapes[i].shapeID == id {
        r := l.(shapes := l.shapes[..i] + l.shapes[i + 1..]);
        RemovedGone(l, i);
        return true, r;
      }
    }
    return false, l;
  }

  /** Erasing the shape at `i` from a layer with unique ids leaves no shape with its id. */
  lemma RemovedGone(l: Layer, i: nat)
    requires i < |l.shapes|
    ensures var r := l.(shapes := l.shapes[..i] + l.shapes[i + 1..]);
      IdsFresh(l) ==> IdsFresh(r) && IndexOfShape(r.shapes, l.shapes[i].shapeID).None?
  {
    var r := l.(shapes := l.shapes[..i] + l.shapes[i + 1..]);
    if IdsFresh(l) {
      forall j | 0 <= j < |r.shapes|
        ensures r.shapes[j].shapeID != l.shapes[i].shapeID
      {
        if j < i {
          assert r.shapes[j] == l.shapes[j];
        } else {
          assert r.shapes[j] == l.shapes[j + 1];
        }
      }
      forall a, b | 0 <= a < b < |r.shapes|
        ensures r.shapes[a].shapeID != r.shapes[b].shapeID
      {
        var a' := if a < i then a else a + 1;
        var b' := if b < i then b else b + 1;
        assert r.shapes[a] == l.shapes[a'] && r.shapes[b] == l.shapes[b'];
      }
    }
  }

  /** `findShape`: the index of the first shape with the id; none (a null pointer) iff no shape has it. */
  method FindShape(l: Layer, id: nat) returns (r: Option<nat>)
    ensures r == IndexOfShape(l.shapes, id)
  {
    for i := 0 to |l.shapes|
      invariant forall j :: 0 <= j < i ==> l.shapes[j].shapeID != id
    {
      if l.shapes[i].shapeID == id {
        IndexOfShapeIs(l.shapes, id, i);
        return Some(i);
      }
    }
    return None;
  }

  /** The first match is what `IndexOfShape` reports. */
  lemma {:induction false} IndexOfShapeIs(shapes: seq<Shape>, id: nat, i: nat)
    requires i < |shapes| && shapes[i].shapeID == id
    requires forall j :: 0 <= j < i ==> shapes[j].shapeID != id
    ensures IndexOfShape(shapes, id) == Some(i)
  {
    if i > 0 {
      IndexOfShapeIs(shapes[1..], id, i - 1);
    }
  }

  // ------------------------------------------------------------------ JSON

  /** The shapes written one after the other. */
  function EncodeAll(shapes: seq<Shape>, encode: Shape -> Json): (r: seq<Json>)
    ensures |r| == |shapes|
  {
    if shapes == [] then [] else EncodeAll(shapes[..|shapes| - 1], encode) + [encode(shapes[|shapes| - 1])]
  }

  /** `getJson`: the keys "id", "name", "next_layer_id" (the shape counter) and "shapes". */
  function LayerJson(l: Layer, encode: Shape -> Json): Json
  {
    Obj([("id", Num(l.layerID)), ("name", Str(l.name)), ("next_layer_id", Num(l.nextShapeID)),
         ("shapes", Arr(EncodeAll(l.shapes, encode)))])
  }

  /** `getJson`, with its loop over the shapes. */
  method GetJson(l: Layer, encode: Shape -> Json) returns (j: Json)
    ensures j == LayerJson(l, encode)
  {
    var items: seq<Json> := [];
    for i := 0 to |l.shapes|
      invariant items == EncodeAll(l.shapes[..i], encode)
    {
      assert l.shapes[..i + 1][..i] == l.shapes[..i];
      items := items + [encode(l.shapes[i])];
    }
    assert l.shapes[..|l.shapes|] == l.shapes;
    j := Obj([("id", Num(l.layerID)), ("name", Str(l.name)), ("next_layer_id", Num(l.nextShapeID)),
              ("shapes", Arr(items))]);
  }

  /** The shapes read from a list of JSON values: none if any one fails. */
  function ShapesOf(elems: seq<Json>, decode: Json -> Option<Shape>): (r: Option<seq<Shape>>)
    ensures r.Some? <==> forall i :: 0 <= i < |elems| ==> decode(elems[i]).Some?
    ensures r.Some? ==>
      |r.value| == |elems| && forall i :: 0 <= i < |elems| ==> r.value[i] == decode(elems[i]).value
  {
    if elems == [] then Some([])
    else
      var rest := ShapesOf(elems[..|elems| - 1], decode);
      var last := decode(elems[|elems| - 1]);
      if rest.Some? && last.Some? then Some(rest.value + [last.value]) else None
  }

  /**
   * `Layer(json)`: reads "name", "id", "next_layer_id" and the shapes under
   * "shapes"; a missing or mistyped field, or a shape that does not
   * parse, throws. A missing "shapes" reads as null and gives no shapes.
   */
  function LayerOfJson(j: Json, decode: Json -> Option<Shape>): Option<Layer>
  {
    var name := AsString(Field(j, "name"));
    var id := AsNat(Field(j, "id"));
    var next := AsNat(Field(j, "next_layer_id"));
    var shapesJson := Field(j, "shapes");
    var shapes := ShapesOf(Elements(if shapesJson.Some? then shapesJson.value else Null), decode);
    if name.Some? && id.Some? && next.Some? && shapes.Some? then
      Some(Layer(name.value, id.value, shapes.value, next.value))
    else None
  }

  /** The `Layer(json)` constructor, with its loop over the shapes. */
  method FromJson(j: Json, decode: Json -> Option<Shape>) returns (r: Option<Layer>)
    ensures r == LayerOfJson(j, decode)
  {
    var name := AsString(Field(j, "name"));
    var id := AsNat(Field(j, "id"));
    var next := AsNat(Field(j, "next_layer_id"));
    if name.None? || id.None? || next.None? {
      return None;
    }
    var shapesJson := Field(j, "shapes");
    var elems := Elements(if shapesJson.Some? then shapesJson.value else Null);
    var shapes: seq<Shape> := [];
    for i := 0 to |elems|
      invariant ShapesOf(elems[..i], decode) == Some(shapes)
    {
      assert elems[..i + 1][..i] == elems[..i];
      var s := decode(elems[i]);
      if s.None? {
        ShapesOfFails(elems, decode, i);
        return None;
      }
      shapes := shapes + [s.value];
    }
    assert elems[..|elems|] == elems;
    r := Some(Layer(name.value, id.value, shapes, next.value));
  }

  /** One shape that fails to parse makes the whole list fail. */
  lemma ShapesOfFails(elems: seq<Json>, decode: Json -> Option<Shape>, i: nat)
    requires i < |elems| && decode(elems[i]).None?
    ensures ShapesOf(elems, decode).None?
  {
  }

  /** Decoding what `EncodeAll` wrote gives the shapes back. */
  lemma {:induction false} ShapesRoundTrip(shapes: seq<Shape>, encode: Shape -> Json, decode: Json -> Option<Shape>)
    requires forall s :: decode(encode(s)) == Some(s)
    ensures ShapesOf(EncodeAll(shapes, encode), decode) == Some(shapes)
  {
    if shapes != [] {
      var init := shapes[..|shapes| - 1];
      ShapesRoundTrip(init, encode, decode);
      var e := EncodeAll(shapes, encode);
      assert e[..|e| - 1] == EncodeAll(init, encode);
      assert shapes == init + [shapes[|shapes| - 1]];
    }
  }

  /** Each key of `getJson` is found with the value written under it. */
  lemma LayerJsonFields(l: Layer, encode: Shape -> Json)
    ensures Field(LayerJson(l, encode), "id") == Some(Num(l.layerID))
    ensures Field(LayerJson(l, encode), "name") == Some(Str(l.name))
    ensures Field(LayerJson(l, encode), "next_layer_id") == Some(Num(l.nextShapeID))
    ensures Field(LayerJson(l, encode), "shapes") == Some(Arr(EncodeAll(l.shapes, encode)))
  {
    var f0 := ("id", Num(l.layerID));
    var f1 := ("name", Str(l.name));
    var f2 := ("next_layer_id", Num(l.nextShapeID));
    var f3 := ("shapes", Arr(EncodeAll(l.shapes, encode)));
    assert LayerJson(l, encode) == Obj([f0] + [f1, f2, f3]);
    assert [f1, f2, f3] == [f1] + [f2, f3] && [f2, f3] == [f2] + [f3];
    FieldOfFirst("id", f0.1, [f1, f2, f3]);
    FieldSkips("name", f0, [f1, f2, f3]);
    FieldOfFirst("name", f1.1, [f2, f3]);
    FieldSkips("next_layer_id", f0, [f1, f2, f3]);
    FieldSkips("next_layer_id", f1, [f2, f3]);
    FieldOfFirst("next_layer_id", f2.1, [f3]);
    FieldSkips("shapes", f0, [f1, f2, f3]);
    FieldSkips("shapes", f1, [f2, f3]);
    FieldSkips("shapes", f2, [f3]);
    FieldOfFirst("shapes", f3.1, []);
  }

  /** Round trip: a layer read back from its JSON is the same layer, given that shapes round-trip. */
  lemma JsonRoundTrip(l: Layer, encode: Shape -> Json, decode: Json -> Option<Shape>)
    requires forall s :: decode(encode(s)) == Some(s)
    ensures LayerOfJson(LayerJson(l, encode), decode) == Some(l)
  {
    var j := LayerJson(l, encode);
    LayerJsonFields(l, encode);
    ShapesRoundTrip(l.shapes, encode, decode);
    assert AsString(Field(j, "name")) == Some(l.name);
    assert AsNat(Field(j, "id")) == Some(l.layerID);
    assert AsNat(Field(j, "next_layer_id")) == Some(l.nextShapeID);
    assert Elements(Field(j, "shapes").value) == EncodeAll(l.shapes, encode);
  }
}
