// The shapes of one layer in the later edition (src/LayerState.cpp), and
// the shapes themselves as far as the layer code sees them.
//
// Every shape object gets a new id from a static counter when it is
// constructed (include/Shapes/GenericShape.h), and copying a `LayerState`
// duplicates every shape, so a copy holds the same geometry under new ids.
// The counter is an object passed to the operations that construct
// shapes. A shape's geometry is reduced to its two points and thickness;
// its own JSON form, its parsing and its bounding box are passed in.

module SrcLayerState {
  import opened Wrappers
  import opened Geometry
  import opened JsonValue

  datatype ShapeData = ShapeData(p1: Vec2, p2: Vec2, thickness: real)

  datatype Shape = Shape(id: nat, data: ShapeData)

  /** `GenericShape::nextID` (and `Layer::nextID`): the next id to hand out. */
  class Counter {
    var nextID: nat

    constructor ()
      ensures nextID == 0
    {
      nextID := 0;
    }

    /** `id = nextID++`. */
    method Take() returns (id: nat)
      modifies this
      ensures id == old(nextID) && nextID == old(nextID) + 1
    {
      id := nextID;
      nextID := nextID + 1;
    }

    /** `n` shapes duplicated one after another, into copies whose ids the model does not keep. */
    method Skip(n: nat)
      modifies this
      ensures nextID == old(nextID) + n
    {
      nextID := nextID + n;
    }
  }

  /**
   * `MakeShape(j)` first builds a `LineShape`, whose constructor draws an
   * id, and only then reads it from `j`: this happens exactly when the
   * "type" field reads "line". Elements of any other type make nothing.
   */
  predicate LineTyped(j: Json)
  {
    AsString(Field(j, "type")) == Some("line")
  }

  /** The geometry of each shape, in order. */
  function DataOf(shapes: seq<Shape>): (r: seq<ShapeData>)
    ensures |r| == |shapes| && forall i :: 0 <= i < |shapes| ==> r[i] == shapes[i].data
  {
    seq(|shapes|, i requires 0 <= i < |shapes| => shapes[i].data)
  }

  /** The same geometry under the ids `from`, `from + 1`, ...: what duplicating the shapes gives. */
  function Renumbered(shapes: seq<Shape>, from: nat): (r: seq<Shape>)
    ensures |r| == |shapes| && DataOf(r) == DataOf(shapes)
    ensures forall i :: 0 <= i < |r| ==> r[i].id == from + i
  {
    seq(|shapes|, i requires 0 <= i < |shapes| => Shape(from + i, shapes[i].data))
  }

  /** New shapes for the given geometry, with ids from `from` on. */
  function Numbered(data: seq<ShapeData>, from: nat): (r: seq<Shape>)
    ensures |r| == |data| && DataOf(r) == data
    ensures forall i :: 0 <= i < |r| ==> r[i].id == from + i
  {
    seq(|data|, i requires 0 <= i < |data| => Shape(from + i, data[i]))
  }

  /** A copy of shapes is their geometry numbered afresh. */
  lemma RenumberedIsNumbered(shapes: seq<Shape>, from: nat)
    ensures Renumbered(shapes, from) == Numbered(DataOf(shapes), from)
  {
    var r, n := Renumbered(shapes, from), Numbered(DataOf(shapes), from);
    forall i | 0 <= i < |n|
      ensures r[i] == n[i]
    {
      assert DataOf(r)[i] == DataOf(shapes)[i] == DataOf(n)[i];
    }
  }

  /** Duplicating every shape (`shape->Duplicate()` in a loop): the same geometry under fresh ids. */
  method Duplicates(src: seq<Shape>, ids: Counter) returns (r: seq<Shape>)
    modifies ids
    ensures r == Renumbered(src, old(ids.nextID))
    ensures ids.nextID == old(ids.nextID) + |src|
  {
    r := [];
    for i := 0 to |src|
      invariant ids.nextID == old(ids.nextID) + i
      invariant r == Renumbered(src[..i], old(ids.nextID))
    {
      var id := ids.Take();
      r := r + [Shape(id, src[i].data)];
    }
    assert src[..|src|] == src;
  }

  /** The first shape with the id, if any. */
  function IndexOfId(shapes: seq<Shape>, id: nat): (r: Option<nat>)
    ensures r.Some? ==> r.value < |shapes| && shapes[r.value].id == id
    ensures r.Some? ==> forall j :: 0 <= j < r.value ==> shapes[j].id != id
    ensures r.None? <==> forall j :: 0 <= j < |shapes| ==> shapes[j].id != id
  {
    if shapes == [] then None
    else if shapes[0].id == id then Some(0)
    else
      var r := IndexOfId(shapes[1..], id);
      if r.Some? then Some(r.value + 1) else None
  }

  /** A scan that stops at the first match finds what `IndexOfId` reports. */
  lemma {:induction false} IndexOfIdIs(shapes: seq<Shape>, id: nat, i: nat)
    requires i < |shapes| && shapes[i].id == id
    requires forall j :: 0 <= j < i ==> shapes[j].id != id
    ensures IndexOfId(shapes, id) == Some(i)
  {
    if i > 0 {
      IndexOfIdIs(shapes[1..], id, i - 1);
    }
  }

  /** Erasing the first shape with the id, and whether there was one. */
  function RemoveFirst(shapes: seq<Shape>, id: nat): (r: (seq<Shape>, bool))
    ensures r.1 <==> exists i :: 0 <= i < |shapes| && shapes[i].id == id
    ensures r.1 ==> |r.0| + 1 == |shapes|
    ensures !r.1 ==> r.0 == shapes
    ensures multiset(r.0) <= multiset(shapes)
  {
    var k := IndexOfId(shapes, id);
    if k.None? then (shapes, false)
    else
      var i := k.value;
      assert shapes == shapes[..i] + [shapes[i]] + shapes[i + 1..];
      (shapes[..i] + shapes[i + 1..], true)
  }

  /** Moving the first shape with the id by `delta`, and whether there was one. */
  function MoveFirst(shapes: seq<Shape>, id: nat, delta: Vec2): (r: (seq<Shape>, bool))
    ensures |r.0| == |shapes| && (r.1 <==> IndexOfId(shapes, id).Some?)
    ensures forall i :: 0 <= i < |shapes| ==> r.0[i].id == shapes[i].id
    ensures forall i :: 0 <= i < |shapes| && Some(i) != IndexOfId(shapes, id) ==> r.0[i] == shapes[i]
  {
    var k := IndexOfId(shapes, id);
    if k.None? then (shapes, false)
    else
      var s := shapes[k.value];
      (shapes[k.value := s.(data := Translated(s.data, delta))], true)
  }

  /** A shape's geometry moved by `delta` (`Move`, and `MoveLeft` and its kin with one coordinate set). */
  function Translated(d: ShapeData, delta: Vec2): ShapeData
  {
    d.(p1 := Plus(d.p1, delta), p2 := Plus(d.p2, delta))
  }

  /**
   * A layer's box as `GetBoundingBox` accumulates it, from the origin:
   * the lower corner takes the smallest x of the boxes' first corners and
   * the smallest y of their second corners, the upper corner the largest
   * x of their second corners and the largest y of their first corners.
   */
  function BoxOf(shapes: seq<Shape>, box: ShapeData -> (Vec2, Vec2)): (r: (Vec2, Vec2))
    ensures r.0.x <= 0.0 && r.0.y <= 0.0 && r.1.x >= 0.0 && r.1.y >= 0.0
    ensures forall i :: 0 <= i < |shapes| ==>
      var b := box(shapes[i].data);
      r.0.x <= b.0.x && r.0.y <= b.1.y && r.1.x >= b.1.x && r.1.y >= b.0.y
  {
    if shapes == [] then (Vec2(0.0, 0.0), Vec2(0.0, 0.0))
    else
      var prev := BoxOf(shapes[..|shapes| - 1], box);
      var b := box(shapes[|shapes| - 1].data);
      (Vec2(Min(prev.0.x, b.0.x), Min(prev.0.y, b.1.y)), Vec2(Max(prev.1.x, b.1.x), Max(prev.1.y, b.0.y)))
  }

  function Min(a: real, b: real): real { if a <= b then a else b }
  function Max(a: real, b: real): real { if a >= b then a else b }

  // ------------------------------------------------------------------ JSON

  /** `GetJson`: the shapes' JSON forms in an array. */
  function StateJson(shapes: seq<Shape>, encode: ShapeData -> Json): Json
  {
    Arr(seq(|shapes|, i requires 0 <= i < |shapes| => encode(shapes[i].data)))
  }

  /** The geometry read from a list of JSON values: none if any one fails to parse. */
  function ParsedAll(elems: seq<Json>, parse: Json -> Option<ShapeData>): (r: Option<seq<ShapeData>>)
    ensures r.Some? <==> forall i :: 0 <= i < |elems| ==> parse(elems[i]).Some?
    ensures r.Some? ==>
      |r.value| == |elems| && forall i :: 0 <= i < |elems| ==> r.value[i] == parse(elems[i]).value
  {
    if elems == [] then Some([])
    else
      var rest := ParsedAll(elems[..|elems| - 1], parse);
      var last := parse(elems[|elems| - 1]);
      if rest.Some? && last.Some? then Some(rest.value + [last.value]) else None
  }

  /** One more parsed element numbers one more shape, with the next id. */
  lemma NumberedStep(elems: seq<Json>, parse: Json -> Option<ShapeData>, i: nat, first: nat)
    requires i < |elems| && parse(elems[i]).Some? && ParsedAll(elems[..i], parse).Some?
    ensures ParsedAll(elems[..i + 1], parse).Some?
    ensures Numbered(ParsedAll(elems[..i + 1], parse).value, first) ==
      Numbered(ParsedAll(elems[..i], parse).value, first) + [Shape(first + i, parse(elems[i]).value)]
  {
    assert elems[..i + 1][..i] == elems[..i];
  }

  /** The number of leading elements that parse: how far `AddShapes` gets before it gives up. */
  function ParsedPrefix(elems: seq<Json>, parse: Json -> Option<ShapeData>): (n: nat)
    ensures n <= |elems|
    ensures forall i :: 0 <= i < n ==> parse(elems[i]).Some?
    ensures n < |elems| ==> parse(elems[n]).None?
  {
    if elems == [] || parse(elems[0]).None? then 0
    else
      var n := ParsedPrefix(elems[1..], parse);
      assert forall i :: 1 <= i < n + 1 ==> elems[i] == elems[1..][i - 1];
      n + 1
  }

  /**
   * The ids `AddShapes` draws when an element fails: one per element of the
   * parsed prefix, and one more when the failing element is a "line",
   * whose shape was built before it failed to load.
   */
  function FailedIds(elems: seq<Json>, parse: Json -> Option<ShapeData>): (n: nat)
    ensures ParsedPrefix(elems, parse) <= n <= ParsedPrefix(elems, parse) + 1
    ensures n == ParsedPrefix(elems, parse) + 1 <==>
      ParsedPrefix(elems, parse) < |elems| && LineTyped(elems[ParsedPrefix(elems, parse)])
  {
    var p := ParsedPrefix(elems, parse);
    if p < |elems| && LineTyped(elems[p]) then p + 1 else p
  }

  /** The first element that does not parse ends the parsed prefix, and the whole list fails. */
  lemma PrefixStopsAt(elems: seq<Json>, parse: Json -> Option<ShapeData>, i: nat)
    requires i < |elems| && i <= ParsedPrefix(elems, parse) && parse(elems[i]).None?
    ensures ParsedPrefix(elems, parse) == i && ParsedAll(elems, parse).None?
  {
  }

  /** All elements parse exactly when the parsed prefix is the whole list. */
  lemma ParsedPrefixAll(elems: seq<Json>, parse: Json -> Option<ShapeData>)
    ensures ParsedPrefix(elems, parse) == |elems| <==> ParsedAll(elems, parse).Some?
  {
  }

  /**
   * The parse loop of `LayerState::LoadJson` and `AddShapes`: each element
   * parsed and given the next id, up to the first failure, which draws an
   * id too when it is a "line".
   */
  method NumberAll(elems: seq<Json>, parse: Json -> Option<ShapeData>, shapeIds: Counter)
    returns (made: Option<seq<Shape>>)
    modifies shapeIds
    ensures made.Some? <==> ParsedAll(elems, parse).Some?
    ensures made.Some? ==>
      made.value == Numbered(ParsedAll(elems, parse).value, old(shapeIds.nextID)) &&
      shapeIds.nextID == old(shapeIds.nextID) + |elems|
    ensures made.None? ==> shapeIds.nextID == old(shapeIds.nextID) + FailedIds(elems, parse)
  {
    ParsedPrefixAll(elems, parse);
    var shapes: seq<Shape> := [];
    var first := shapeIds.nextID;
    for i := 0 to |elems|
      invariant shapeIds.nextID == first + i && i <= ParsedPrefix(elems, parse)
      invariant ParsedAll(elems[..i], parse).Some?
      invariant shapes == Numbered(ParsedAll(elems[..i], parse).value, first)
    {
      var d := parse(elems[i]);
      if d.None? {
        PrefixStopsAt(elems, parse, i);
        if LineTyped(elems[i]) {
          shapeIds.Skip(1);
        }
        return None;
      }
      NumberedStep(elems, parse, i, first);
      var id := shapeIds.Take();
      shapes := shapes + [Shape(id, d.value)];
    }
    assert elems[..|elems|] == elems;
    return Some(shapes);
  }

  /** What `GetJson` writes parses back to the same geometry, given that each shape does. */
  lemma StateJsonRoundTrip(shapes: seq<Shape>, encode: ShapeData -> Json, parse: Json -> Option<ShapeData>)
    requires forall d :: parse(encode(d)) == Some(d)
    ensures ParsedAll(Elements(StateJson(shapes, encode)), parse) == Some(DataOf(shapes))
  {
    var e := Elements(StateJson(shapes, encode));
    forall i | 0 <= i < |e|
      ensures parse(e[i]) == Some(shapes[i].data)
    {
      assert e[i] == encode(shapes[i].data);
    }
    var r := ParsedAll(e, parse);
    assert r.Some?;
    assert r.value == DataOf(shapes);
  }

  // ------------------------------------------------------------ LayerState

  class LayerState {
    var shapes: seq<Shape>

    constructor ()
      ensures shapes == []
    {
      shapes := [];
    }

    /** The copy constructor and `operator=`: every shape of `src` duplicated, in order. */
    method Assign(src: seq<Shape>, ids: Counter)
      modifies this, ids
      ensures shapes == Renumbered(src, old(ids.nextID)) && |shapes| == |src|
      ensures ids.nextID == old(ids.nextID) + |src|
    {
      shapes := Duplicates(src, ids);
    }

    /** `PushShape`: the shape goes to the end. */
    method PushShape(s: Shape)
      modifies this
      ensures shapes == old(shapes) + [s]
    {
      shapes := shapes + [s];
    }

    /** `RemoveShape`: erases the first shape with the id and reports whether there was one. */
    method RemoveShape(id: nat) returns (removed: bool)
      modifies this
      ensures (shapes, removed) == RemoveFirst(old(shapes), id)
    {
      for i := 0 to |shapes|
        invariant forall j :: 0 <= j < i ==> shapes[j].id != id
      {
        if shapes[i].id == id {
          IndexOfIdIs(shapes, id, i);
          shapes := shapes[..i] + shapes[i + 1..];
          return true;
        }
      }
      return false;
    }

    /** `FindShape`: the first shape with the id, none if there is none. */
    method FindShape(id: nat) returns (r: Option<nat>)
      ensures r == IndexOfId(shapes, id)
    {
      for i := 0 to |shapes|
        invariant forall j :: 0 <= j < i ==> shapes[j].id != id
      {
        if shapes[i].id == id {
          IndexOfIdIs(shapes, id, i);
          return Some(i);
        }
      }
      return None;
    }

    /** `ShapeExists`: whether some shape has the id. */
    method ShapeExists(id: nat) returns (r: bool)
      ensures r <==> exists i :: 0 <= i < |shapes| && shapes[i].id == id
    {
      r := false;
      for i := 0 to |shapes|
        invariant !r
        invariant forall j :: 0 <= j < i ==> shapes[j].id != id
      {
        if shapes[i].id == id {
          return true;
        }
      }
    }

    /** `GetBoundingBox`, with its loop over the shapes. */
    method GetBoundingBox(box: ShapeData -> (Vec2, Vec2)) returns (lo: Vec2, hi: Vec2)
      ensures (lo, hi) == BoxOf(shapes, box)
    {
      lo, hi := Vec2(0.0, 0.0), Vec2(0.0, 0.0);
      for i := 0 to |shapes|
        invariant (lo, hi) == BoxOf(shapes[..i], box)
      {
        assert shapes[..i + 1][..i] == shapes[..i];
        var b := box(shapes[i].data);
        lo := Vec2(Min(lo.x, b.0.x), Min(lo.y, b.1.y));
        hi := Vec2(Max(hi.x, b.1.x), Max(hi.y, b.0.y));
      }
      assert shapes[..|shapes|] == shapes;
    }

    /**
     * `LoadJson`: parses every element of `j` into a new shape; only if all
     * parse are the old shapes replaced, otherwise they stay. A failing
     * "line" element has drawn its id before it failed.
     */
    method LoadJson(j: Json, parse: Json -> Option<ShapeData>, ids: Counter) returns (ok: bool)
      modifies this, ids
      ensures ok <==> ParsedAll(Elements(j), parse).Some?
      ensures ok ==> DataOf(shapes) == ParsedAll(Elements(j), parse).value
      ensures ok ==> shapes == Numbered(DataOf(shapes), old(ids.nextID))
      ensures !ok ==> shapes == old(shapes)
      ensures ok ==> ids.nextID == old(ids.nextID) + |Elements(j)|
      ensures !ok ==> ids.nextID == old(ids.nextID) + FailedIds(Elements(j), parse)
    {
      var made := NumberAll(Elements(j), parse, ids);
      if made.None? {
        return false;
      }
      shapes := made.value;
      return true;
    }

    /** `GetJson`, with its loop over the shapes. */
    method GetJson(encode: ShapeData -> Json) returns (j: Json)
      ensures j == StateJson(shapes, encode)
    {
      var s := shapes;
      var items: seq<Json> := [];
      for i := 0 to |s|
        invariant items == seq(i, k requires 0 <= k < i => encode(s[k].data))
      {
        items := items + [encode(s[i].data)];
      }
      j := Arr(items);
    }
  }
}
