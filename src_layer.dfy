// A layer of the later edition (src/Layer.cpp): a name, an id from a
// static counter, the shapes (a `LayerState`) and a bounded history of
// snapshots for undo (include/LayerHistory.h).
//
// A snapshot is a copy of the layer state, and copying a state duplicates
// its shapes under new ids; a snapshot therefore keeps only the geometry,
// and restoring one gives the shapes fresh ids from the shape counter.

module SrcLayer {
  import opened Wrappers
  import opened Geometry
  import opened JsonValue
  import opened SrcLayerState

  /** `MAX_NUMBER_OF_UNDOS` (include/config.h): the capacity of a layer's history. */
  const MaxUndos: nat := 20

  /** The kinds of shape the factory knows (`ShapeType`). */
  datatype ShapeType = NoShapeType | Line

  /** `GenericShape::MakeShape(type, p1, p2, thickness, color)`: a line, or nothing for `NONE`. */
  function MakeShape(kind: ShapeType, p1: Vec2, p2: Vec2, thickness: real): (r: Option<ShapeData>)
    ensures r.Some? <==> kind == Line
    ensures r.Some? ==> r.value == ShapeData(p1, p2, thickness)
  {
    match kind
    case NoShapeType => None
    case Line => Some(ShapeData(p1, p2, thickness))
  }

  // --------------------------------------------------------------- history

  /**
   * `PushState`: the snapshot goes to the end and the oldest ones are
   * dropped until at most `MaxUndos` remain.
   */
  function Pushed(states: seq<seq<ShapeData>>, s: seq<ShapeData>): (r: seq<seq<ShapeData>>)
    ensures |r| == if |states| + 1 <= MaxUndos then |states| + 1 else MaxUndos
    ensures r == (states + [s])[|states| + 1 - |r|..]
  {
    var all := states + [s];
    if |all| <= MaxUndos then all else all[|all| - MaxUndos..]
  }

  /** The newest snapshot is the one just pushed, and the history never holds more than `MaxUndos`. */
  lemma PushedLast(states: seq<seq<ShapeData>>, s: seq<ShapeData>)
    ensures |Pushed(states, s)| <= MaxUndos
    ensures Pushed(states, s)[|Pushed(states, s)| - 1] == s
  {
  }

  /** Below capacity nothing is dropped: popping after a push gives back the old history. */
  lemma PushedKeeps(states: seq<seq<ShapeData>>, s: seq<ShapeData>)
    requires |states| < MaxUndos
    ensures Pushed(states, s)[..|states|] == states
  {
  }

  /** At capacity a push drops exactly the oldest snapshot. */
  lemma PushedDropsOldest(states: seq<seq<ShapeData>>, s: seq<ShapeData>)
    requires |states| == MaxUndos
    ensures Pushed(states, s) == states[1..] + [s]
  {
    assert (states + [s])[1..] == states[1..] + [s];
  }

  /** The number of shapes in the snapshots. */
  function Sizes(states: seq<seq<ShapeData>>): nat
  {
    if states == [] then 0 else |states[0]| + Sizes(states[1..])
  }

  /** One more snapshot adds its shapes to the count. */
  lemma {:induction false} SizesSnoc(states: seq<seq<ShapeData>>, s: seq<ShapeData>)
    ensures Sizes(states + [s]) == Sizes(states) + |s|
  {
    if states != [] {
      assert (states + [s])[1..] == states[1..] + [s];
      SizesSnoc(states[1..], s);
    }
  }

  /**
   * The ids the erase loop of `PushState` draws: erasing the front element
   * copy-assigns every later snapshot one place forward (`LayerState` has a
   * user-declared `operator=` and so no move assignment), and each
   * assignment duplicates that snapshot's shapes.
   */
  function EraseCost(all: seq<seq<ShapeData>>): nat
  {
    if |all| <= MaxUndos then 0 else Sizes(all[1..]) + EraseCost(all[1..])
  }

  /**
   * The vector's capacity after a push onto `size` elements: unchanged while
   * there is room, otherwise grown by half and at least by one, as the
   * Microsoft standard library grows a `std::vector`.
   */
  function GrownRoom(size: nat, room: nat): (r: nat)
    ensures size < room ==> r == room
    ensures size >= room ==> r > size && r >= room
  {
    if size < room then room
    else if room + room / 2 > size then room + room / 2
    else size + 1
  }

  /**
   * The ids `PushState(s)` draws: the copy of `s` into the vector; when the
   * vector is full, the copy of every stored snapshot into the larger buffer
   * (`LayerState` has no move constructor); and the erase loop's copies.
   */
  function PushCost(states: seq<seq<ShapeData>>, room: nat, s: seq<ShapeData>): nat
  {
    |s| + (if |states| >= room then Sizes(states) else 0) + EraseCost(states + [s])
  }

  /** The history and its capacity after `PushState(s)`. */
  function PushedHistory(states: seq<seq<ShapeData>>, room: nat, s: seq<ShapeData>): (seq<seq<ShapeData>>, nat)
  {
    (Pushed(states, s), GrownRoom(|states|, room))
  }

  /**
   * A push onto a full history copies every kept snapshot once more: the
   * `MaxUndos - 1` older ones it shifts forward and the one it pushed.
   */
  lemma PushCostAtCapacity(states: seq<seq<ShapeData>>, room: nat, s: seq<ShapeData>)
    requires |states| == MaxUndos && room > MaxUndos
    ensures PushCost(states, room, s) == |s| + Sizes(states[1..]) + |s|
  {
    var all := states + [s];
    assert all[1..] == states[1..] + [s];
    SizesSnoc(states[1..], s);
    assert EraseCost(all[1..]) == 0;
  }

  /** `LayerHistory<MAX_NUMBER_OF_UNDOS>`: the stack of snapshots, in a vector of capacity `room`. */
  class History {
    var states: seq<seq<ShapeData>>
    var room: nat

    constructor ()
      ensures states == [] && room == 0
    {
      states := [];
      room := 0;
    }

    /**
     * `PushState`: append a copy of `s`, then erase from the front while
     * over capacity. Only the geometry of a stored snapshot is kept; the ids
     * its copies take are counted.
     */
    method PushState(s: seq<ShapeData>, ids: Counter)
      modifies this, ids
      ensures (states, room) == PushedHistory(old(states), old(room), s)
      ensures ids.nextID == old(ids.nextID) + PushCost(old(states), old(room), s)
    {
      if |states| >= room {
        // a larger buffer: every stored snapshot is copied over
        ids.Skip(Sizes(states));
        room := GrownRoom(|states|, room);
      }
      ids.Skip(|s|);
      states := states + [s];
      EraseOldest(ids);
    }

    /** The erase loop of `PushState`: the oldest snapshots go until `MaxUndos` are left. */
    method EraseOldest(ids: Counter)
      modifies this`states, ids
      ensures states == if |old(states)| <= MaxUndos then old(states) else old(states)[|old(states)| - MaxUndos..]
      ensures ids.nextID == old(ids.nextID) + EraseCost(old(states))
    {
      ghost var all := states;
      ghost var base := ids.nextID;
      while |states| > MaxUndos
        invariant (|states| >= MaxUndos || states == all) && |states| <= |all|
        invariant states == all[|all| - |states|..]
        invariant ids.nextID + EraseCost(states) == base + EraseCost(all)
        decreases |states|
      {
        states := states[1..];
        ids.Skip(Sizes(states));
      }
    }

    /**
     * `PopState`: the newest snapshot, removed from the stack; none when it
     * is empty. The snapshot is copied twice on its way out: explicitly, and
     * into the pair `make_pair` builds.
     */
    method PopState(ids: Counter) returns (r: Option<seq<ShapeData>>)
      modifies this, ids
      ensures old(states) == [] ==> r.None? && states == [] && ids.nextID == old(ids.nextID)
      ensures old(states) != [] ==>
        r == Some(old(states)[|old(states)| - 1]) && states == old(states)[..|old(states)| - 1] &&
        ids.nextID == old(ids.nextID) + 2 * |r.value|
      ensures room == old(room)
    {
      if |states| == 0 {
        return None;
      }
      r := Some(states[|states| - 1]);
      ids.Skip(2 * |r.value|);
      states := states[..|states| - 1];
    }

    /** `Clear`: the snapshots go, the buffer stays. */
    method Clear()
      modifies this
      ensures states == [] && room == old(room)
    {
      states := [];
    }

    /**
     * Copy assignment: every snapshot of `other` copied; a buffer too small
     * is replaced by one of exactly the size needed.
     */
    method CopyFrom(other: seq<seq<ShapeData>>, ids: Counter)
      modifies this, ids
      ensures states == other
      ensures room == if |other| > old(room) then |other| else old(room)
      ensures ids.nextID == old(ids.nextID) + Sizes(other)
    {
      ids.Skip(Sizes(other));
      states := other;
      if |other| > room {
        room := |other|;
      }
    }
  }

  // ------------------------------------------------- operations on a list

  /**
   * Removing each id in turn (`RemoveShapes`), and whether every removal
   * found its shape: each removal that finds one shortens the list by one.
   */
  function RemoveEach(shapes: seq<Shape>, ids: seq<nat>): (r: (seq<Shape>, bool))
    ensures |r.0| + |ids| >= |shapes| && |r.0| <= |shapes|
    ensures r.1 <==> |r.0| + |ids| == |shapes|
    ensures multiset(r.0) <= multiset(shapes)
    decreases |ids|
  {
    if ids == [] then (shapes, true)
    else
      var prev := RemoveEach(shapes, ids[..|ids| - 1]);
      var step := RemoveFirst(prev.0, ids[|ids| - 1]);
      (step.0, prev.1 && step.1)
  }

  /** Every id of `ids` names a shape of `shapes`. */
  ghost predicate AllFound(shapes: seq<Shape>, ids: seq<nat>)
  {
    forall k :: 0 <= k < |ids| ==> IndexOfId(shapes, ids[k]).Some?
  }

  /** All ids are found exactly when those before the last are and the last is. */
  lemma AllFoundSnoc(shapes: seq<Shape>, ids: seq<nat>)
    requires ids != []
    ensures AllFound(shapes, ids) <==>
      AllFound(shapes, ids[..|ids| - 1]) && IndexOfId(shapes, ids[|ids| - 1]).Some?
  {
    assert forall k :: 0 <= k < |ids| - 1 ==> ids[..|ids| - 1][k] == ids[k];
  }

  /** Moving the shape of each id in turn by `delta`, and whether every id was found. */
  function MoveEach(shapes: seq<Shape>, ids: seq<nat>, delta: Vec2): (r: (seq<Shape>, bool))
    ensures |r.0| == |shapes|
    ensures forall i :: 0 <= i < |shapes| ==> r.0[i].id == shapes[i].id
    ensures r.1 <==> AllFound(shapes, ids)
    decreases |ids|
  {
    if ids == [] then (shapes, true)
    else
      var prev := MoveEach(shapes, ids[..|ids| - 1], delta);
      var step := MoveFirst(prev.0, ids[|ids| - 1], delta);
      SameIdsSameIndex(prev.0, shapes, ids[|ids| - 1]);
      AllFoundSnoc(shapes, ids);
      (step.0, prev.1 && step.1)
  }

  /** Lookup by id sees only the ids, so two lists with the same ids agree on it. */
  lemma {:induction false} SameIdsSameIndex(a: seq<Shape>, b: seq<Shape>, id: nat)
    requires |a| == |b| && forall i :: 0 <= i < |a| ==> a[i].id == b[i].id
    ensures IndexOfId(a, id) == IndexOfId(b, id)
  {
    if a != [] && a[0].id != id {
      SameIdsSameIndex(a[1..], b[1..], id);
    }
  }

  /** Moving shapes keeps the set of ids, so whatever existed still exists afterwards. */
  lemma MoveEachKeepsLookup(shapes: seq<Shape>, ids: seq<nat>, delta: Vec2, id: nat)
    ensures IndexOfId(MoveEach(shapes, ids, delta).0, id) == IndexOfId(shapes, id)
  {
    SameIdsSameIndex(MoveEach(shapes, ids, delta).0, shapes, id);
  }

  // ----------------------------------------------------------------- JSON

  /** `Layer::GetJson`: the shapes under "shapes" and the name under "name". */
  function LayerJson(name: string, shapes: seq<Shape>, encode: ShapeData -> Json): Json
  {
    Obj([("shapes", StateJson(shapes, encode)), ("name", Str(name))])
  }

  /**
   * What `Layer::LoadJson` reads: the name must be a string, and the
   * "shapes" value (null when absent) must parse entry by entry.
   */
  function LayerOfJson(j: Json, parse: Json -> Option<ShapeData>): (r: Option<(string, seq<ShapeData>)>)
    ensures r.Some? <==> AsString(Field(j, "name")).Some? && ParsedAll(Elements(ShapesField(j)), parse).Some?
  {
    var name := AsString(Field(j, "name"));
    var data := ParsedAll(Elements(ShapesField(j)), parse);
    if name.Some? && data.Some? then Some((name.value, data.value)) else None
  }

  /** `json["shapes"]`: null when the key is absent. */
  function ShapesField(j: Json): Json
  {
    var f := Field(j, "shapes");
    if f.Some? then f.value else Null
  }

  /** What `GetJson` writes, `LoadJson` reads back: the same name and geometry. */
  lemma LayerJsonRoundTrip(name: string, shapes: seq<Shape>, encode: ShapeData -> Json,
                           parse: Json -> Option<ShapeData>)
    requires forall d :: parse(encode(d)) == Some(d)
    ensures LayerOfJson(LayerJson(name, shapes, encode), parse) == Some((name, DataOf(shapes)))
  {
    var j := LayerJson(name, shapes, encode);
    FieldOfFirst("shapes", StateJson(shapes, encode), [("name", Str(name))]);
    FieldSkips("name", ("shapes", StateJson(shapes, encode)), [("name", Str(name))]);
    FieldOfFirst("name", Str(name), []);
    assert ShapesField(j) == StateJson(shapes, encode);
    StateJsonRoundTrip(shapes, encode, parse);
  }

  // ---------------------------------------------------------------- Layer

  class Layer {
    var id: nat
    var name: string
    var layerChanged: bool
    const state: LayerState
    const history: History

    /** `Layer(name)`: a fresh id from the layer counter, no shapes, no history. */
    constructor (name: string, layerIds: Counter)
      modifies layerIds
      ensures id == old(layerIds.nextID) && layerIds.nextID == old(layerIds.nextID) + 1
      ensures this.name == name && !layerChanged
      ensures fresh(state) && fresh(history) && state.shapes == [] && history.states == [] && history.room == 0
    {
      var i := layerIds.Take();
      id := i;
      this.name := name;
      layerChanged := false;
      state := new LayerState();
      history := new History();
    }

    /** `GetState`: a copy of the state, whose shapes get new ids. */
    method GetState(shapeIds: Counter) returns (r: seq<Shape>)
      modifies shapeIds
      ensures r == Renumbered(state.shapes, old(shapeIds.nextID))
      ensures shapeIds.nextID == old(shapeIds.nextID) + |state.shapes|
    {
      r := Duplicates(state.shapes, shapeIds);
    }

    /** `LoadState`: the state becomes a copy of `src`. */
    method LoadState(src: seq<Shape>, shapeIds: Counter)
      modifies state, shapeIds
      ensures state.shapes == Renumbered(src, old(shapeIds.nextID))
      ensures shapeIds.nextID == old(shapeIds.nextID) + |src|
    {
      state.Assign(src, shapeIds);
    }

    /** The number of shape ids `SaveState` draws in the current state. */
    function SaveIds(): nat
      reads state, history
    {
      |state.shapes| + PushCost(history.states, history.room, DataOf(state.shapes))
    }

    /**
     * `Duplicate`: a new layer named after this one with " - copy", with
     * the same geometry, the same history, and marked changed. Copying the
     * state and the history duplicates every shape of each; the layer is
     * returned without a further copy (the named return value is elided).
     */
    method Duplicate(layerIds: Counter, shapeIds: Counter) returns (copy: Layer)
      requires layerIds != shapeIds
      modifies layerIds, shapeIds
      ensures fresh(copy) && fresh(copy.state) && fresh(copy.history)
      ensures copy.id == old(layerIds.nextID) && layerIds.nextID == old(layerIds.nextID) + 1
      ensures copy.name == name + " - copy" && copy.layerChanged
      ensures copy.state.shapes == Renumbered(state.shapes, old(shapeIds.nextID))
      ensures copy.history.states == history.states && copy.history.room == |history.states|
      ensures shapeIds.nextID == old(shapeIds.nextID) + |state.shapes| + Sizes(history.states)
    {
      copy := new Layer(name + " - copy", layerIds);
      copy.LoadState(state.shapes, shapeIds);
      copy.layerChanged := true;
      copy.history.CopyFrom(history.states, shapeIds);
    }

    /**
     * `SaveState`: `GetState()` copies the state, and the history stores a
     * copy of that copy; both duplicate every shape.
     */
    method SaveState(shapeIds: Counter)
      modifies history, shapeIds
      ensures (history.states, history.room) ==
        PushedHistory(old(history.states), old(history.room), DataOf(state.shapes))
      ensures shapeIds.nextID == old(shapeIds.nextID) + old(SaveIds())
    {
      var copy := GetState(shapeIds);
      history.PushState(DataOf(copy), shapeIds);
    }

    /**
     * The `AddShape` overloads: a snapshot is saved first, then the shape
     * the factory made, if any, is appended under the next id after the
     * snapshot's.
     */
    method AddShape(made: Option<ShapeData>, shapeIds: Counter) returns (ok: bool)
      modifies state, history, shapeIds
      ensures (history.states, history.room) ==
        PushedHistory(old(history.states), old(history.room), DataOf(old(state.shapes)))
      ensures ok <==> made.Some?
      ensures ok ==> (state.shapes == old(state.shapes) + [Shape(old(shapeIds.nextID) + old(SaveIds()), made.value)]
                      && shapeIds.nextID == old(shapeIds.nextID) + old(SaveIds()) + 1)
      ensures !ok ==> state.shapes == old(state.shapes) && shapeIds.nextID == old(shapeIds.nextID) + old(SaveIds())
    {
      SaveState(shapeIds);
      if made.None? {
        return false;
      }
      var i := shapeIds.Take();
      state.PushShape(Shape(i, made.value));
      return true;
    }

    /**
     * `AddShape(json)`: the shape parsed from `j`; a snapshot is saved even
     * when it does not parse, and a "line" that fails to load has drawn the
     * id after the snapshot's all the same.
     */
    method AddShapeJson(j: Json, parse: Json -> Option<ShapeData>, shapeIds: Counter) returns (ok: bool)
      modifies state, history, shapeIds
      ensures (history.states, history.room) ==
        PushedHistory(old(history.states), old(history.room), DataOf(old(state.shapes)))
      ensures ok <==> parse(j).Some?
      ensures ok ==> state.shapes == old(state.shapes) + [Shape(old(shapeIds.nextID) + old(SaveIds()), parse(j).value)]
      ensures ok ==> shapeIds.nextID == old(shapeIds.nextID) + old(SaveIds()) + 1
      ensures !ok ==> state.shapes == old(state.shapes)
      ensures !ok ==> shapeIds.nextID == old(shapeIds.nextID) + old(SaveIds()) + (if LineTyped(j) then 1 else 0)
    {
      ok := AddShape(parse(j), shapeIds);
      if !ok && LineTyped(j) {
        shapeIds.Skip(1);
      }
    }

    /** `AddShape(type, p1, p2, thickness, color)`: a line, or only a snapshot for `NONE`. */
    method AddShapeOfType(kind: ShapeType, p1: Vec2, p2: Vec2, thickness: real, shapeIds: Counter)
      modifies state, history, shapeIds
      ensures (history.states, history.room) ==
        PushedHistory(old(history.states), old(history.room), DataOf(old(state.shapes)))
      ensures kind == Line ==>
        state.shapes == old(state.shapes) + [Shape(old(shapeIds.nextID) + old(SaveIds()), ShapeData(p1, p2, thickness))]
      ensures kind == NoShapeType ==> state.shapes == old(state.shapes)
      ensures shapeIds.nextID == old(shapeIds.nextID) + old(SaveIds()) + (if kind == Line then 1 else 0)
    {
      var _ := AddShape(MakeShape(kind, p1, p2, thickness), shapeIds);
    }

    /**
     * `AddShapes(jsonArray)`: every element is parsed first; only if all
     * parse is a snapshot saved and are the shapes appended. The shapes
     * made before a failure have taken their ids all the same.
     */
    method AddShapes(elems: seq<Json>, parse: Json -> Option<ShapeData>, shapeIds: Counter) returns (ok: bool)
      modifies state, history, shapeIds
      ensures ok <==> ParsedAll(elems, parse).Some?
      ensures ok ==> ((history.states, history.room) ==
        PushedHistory(old(history.states), old(history.room), DataOf(old(state.shapes))))
      ensures ok ==> state.shapes == old(state.shapes) + Numbered(ParsedAll(elems, parse).value, old(shapeIds.nextID))
      ensures ok ==> shapeIds.nextID == old(shapeIds.nextID) + |elems| + old(SaveIds())
      ensures !ok ==> (state.shapes == old(state.shapes) && history.states == old(history.states) &&
        history.room == old(history.room) && shapeIds.nextID == old(shapeIds.nextID) + FailedIds(elems, parse))
    {
      var made := NumberAll(elems, parse, shapeIds);
      if made.None? {
        return false;
      }
      SaveState(shapeIds);
      state.shapes := state.shapes + made.value;
      return true;
    }

    /** `AddShapes(shapes)`: a snapshot, then the ready-made shapes appended as they are. */
    method AddMadeShapes(made: seq<Shape>, shapeIds: Counter)
      modifies state, history, shapeIds
      ensures (history.states, history.room) ==
        PushedHistory(old(history.states), old(history.room), DataOf(old(state.shapes)))
      ensures shapeIds.nextID == old(shapeIds.nextID) + old(SaveIds())
      ensures state.shapes == old(state.shapes) + made
    {
      SaveState(shapeIds);
      ghost var saved, next := (history.states, history.room), shapeIds.nextID;
      for i := 0 to |made|
        invariant state.shapes == old(state.shapes) + made[..i]
        invariant history.states == saved.0 && history.room == saved.1 && shapeIds.nextID == next
      {
        assert made[..i + 1] == made[..i] + [made[i]];
        state.PushShape(made[i]);
      }
      assert made[..|made|] == made;
    }

    /** `RemoveShape`: a snapshot, then the first shape with the id erased. */
    method RemoveShape(id: nat, shapeIds: Counter) returns (ok: bool)
      modifies state, history, shapeIds
      ensures (history.states, history.room) ==
        PushedHistory(old(history.states), old(history.room), DataOf(old(state.shapes)))
      ensures shapeIds.nextID == old(shapeIds.nextID) + old(SaveIds())
      ensures (state.shapes, ok) == RemoveFirst(old(state.shapes), id)
    {
      SaveState(shapeIds);
      ok := state.RemoveShape(id);
    }

    /**
     * `RemoveShapes`: one snapshot, then each id removed in turn; true iff
     * every removal found its shape.
     */
    method RemoveShapes(ids: seq<nat>, shapeIds: Counter) returns (ok: bool)
      modifies state, history, shapeIds
      ensures (history.states, history.room) ==
        PushedHistory(old(history.states), old(history.room), DataOf(old(state.shapes)))
      ensures shapeIds.nextID == old(shapeIds.nextID) + old(SaveIds())
      ensures (state.shapes, ok) == RemoveEach(old(state.shapes), ids)
    {
      SaveState(shapeIds);
      ok := RemoveAll(ids);
    }

    /** The loop of `RemoveShapes`: each id removed in turn, without a snapshot. */
    method RemoveAll(ids: seq<nat>) returns (ok: bool)
      modifies state
      ensures (state.shapes, ok) == RemoveEach(old(state.shapes), ids)
    {
      var failed := false;
      for i := 0 to |ids|
        invariant (state.shapes, !failed) == RemoveEach(old(state.shapes), ids[..i])
      {
        assert ids[..i + 1][..i] == ids[..i];
        var removed := state.RemoveShape(ids[i]);
        if !removed {
          failed := true;
        }
      }
      assert ids[..|ids|] == ids;
      return !failed;
    }

    /** `MoveShapeLeft` and its kin: a snapshot, then the shape with the id moved, if there is one. */
    method MoveShapeBy(id: nat, delta: Vec2, shapeIds: Counter) returns (ok: bool)
      modifies state, history, shapeIds
      ensures (history.states, history.room) ==
        PushedHistory(old(history.states), old(history.room), DataOf(old(state.shapes)))
      ensures shapeIds.nextID == old(shapeIds.nextID) + old(SaveIds())
      ensures (state.shapes, ok) == MoveFirst(old(state.shapes), id, delta)
    {
      SaveState(shapeIds);
      ok := MoveOne(id, delta);
    }

    /** The shape with the id moved, if there is one; no snapshot. */
    method MoveOne(id: nat, delta: Vec2) returns (ok: bool)
      modifies state
      ensures (state.shapes, ok) == MoveFirst(old(state.shapes), id, delta)
    {
      var k := state.FindShape(id);
      if k.None? {
        return false;
      }
      var s := state.shapes[k.value];
      state.shapes := state.shapes[k.value := s.(data := Translated(s.data, delta))];
      return true;
    }

    /** `MoveShapeLeft`: x decreases by `amount`. */
    method MoveShapeLeft(id: nat, amount: real, shapeIds: Counter) returns (ok: bool)
      modifies state, history, shapeIds
      ensures (state.shapes, ok) == MoveFirst(old(state.shapes), id, Vec2(-amount, 0.0))
      ensures (history.states, history.room) ==
        PushedHistory(old(history.states), old(history.room), DataOf(old(state.shapes)))
      ensures shapeIds.nextID == old(shapeIds.nextID) + old(SaveIds())
    {
      ok := MoveShapeBy(id, Vec2(-amount, 0.0), shapeIds);
    }

    /** `MoveShapeRight`: x increases by `amount`. */
    method MoveShapeRight(id: nat, amount: real, shapeIds: Counter) returns (ok: bool)
      modifies state, history, shapeIds
      ensures (state.shapes, ok) == MoveFirst(old(state.shapes), id, Vec2(amount, 0.0))
      ensures (history.states, history.room) ==
        PushedHistory(old(history.states), old(history.room), DataOf(old(state.shapes)))
      ensures shapeIds.nextID == old(shapeIds.nextID) + old(SaveIds())
    {
      ok := MoveShapeBy(id, Vec2(amount, 0.0), shapeIds);
    }

    /** `MoveShapeUp`: y decreases by `amount`. */
    method MoveShapeUp(id: nat, amount: real, shapeIds: Counter) returns (ok: bool)
      modifies state, history, shapeIds
      ensures (state.shapes, ok) == MoveFirst(old(state.shapes), id, Vec2(0.0, -amount))
      ensures (history.states, history.room) ==
        PushedHistory(old(history.states), old(history.room), DataOf(old(state.shapes)))
      ensures shapeIds.nextID == old(shapeIds.nextID) + old(SaveIds())
    {
      ok := MoveShapeBy(id, Vec2(0.0, -amount), shapeIds);
    }

    /** `MoveShapeDown`: y increases by `amount`. */
    method MoveShapeDown(id: nat, amount: real, shapeIds: Counter) returns (ok: bool)
      modifies state, history, shapeIds
      ensures (state.shapes, ok) == MoveFirst(old(state.shapes), id, Vec2(0.0, amount))
      ensures (history.states, history.room) ==
        PushedHistory(old(history.states), old(history.room), DataOf(old(state.shapes)))
      ensures shapeIds.nextID == old(shapeIds.nextID) + old(SaveIds())
    {
      ok := MoveShapeBy(id, Vec2(0.0, amount), shapeIds);
    }

    /**
     * `MoveShapes` (and `MoveShapesLeft` and its kin with one coordinate
     * set): one snapshot, then the shape of each id moved in turn; true iff
     * every id was found.
     */
    method MoveShapes(ids: seq<nat>, delta: Vec2, shapeIds: Counter) returns (ok: bool)
      modifies state, history, shapeIds
      ensures (history.states, history.room) ==
        PushedHistory(old(history.states), old(history.room), DataOf(old(state.shapes)))
      ensures shapeIds.nextID == old(shapeIds.nextID) + old(SaveIds())
      ensures (state.shapes, ok) == MoveEach(old(state.shapes), ids, delta)
    {
      SaveState(shapeIds);
      ok := MoveAll(ids, delta);
    }

    /** The loop of `MoveShapes`: the shape of each id moved in turn, without a snapshot. */
    method MoveAll(ids: seq<nat>, delta: Vec2) returns (ok: bool)
      modifies state
      ensures (state.shapes, ok) == MoveEach(old(state.shapes), ids, delta)
    {
      var failed := false;
      for i := 0 to |ids|
        invariant (state.shapes, !failed) == MoveEach(old(state.shapes), ids[..i], delta)
      {
        assert ids[..i + 1][..i] == ids[..i];
        var moved := MoveOne(ids[i], delta);
        if !moved {
          failed := true;
        }
      }
      assert ids[..|ids|] == ids;
      return !failed;
    }

    /**
     * `UndoAction`: the newest snapshot replaces the shapes. `PopState`
     * copies it twice and `LoadState` once more, so the restored shapes
     * take the last of three runs of new ids; with an empty history nothing
     * changes.
     */
    method UndoAction(shapeIds: Counter)
      modifies state, history, shapeIds
      ensures old(history.states) == [] ==>
        state.shapes == old(state.shapes) && history.states == [] && shapeIds.nextID == old(shapeIds.nextID)
      ensures old(history.states) != [] ==>
        var n := |old(history.states)| - 1;
        var top := old(history.states)[n];
        history.states == old(history.states)[..n]
        && state.shapes == Numbered(top, old(shapeIds.nextID) + 2 * |top|)
        && shapeIds.nextID == old(shapeIds.nextID) + 3 * |top|
      ensures history.room == old(history.room)
    {
      var popped := history.PopState(shapeIds);
      if popped.Some? {
        var restored := Numbered(popped.value, shapeIds.nextID);
        state.Assign(restored, shapeIds);
        assert Renumbered(restored, shapeIds.nextID - |restored|) == restored;
      }
    }

    /** `FindShape`: the index of the first shape with the id. */
    method FindShape(id: nat) returns (r: Option<nat>)
      ensures r.Some? <==> exists i :: 0 <= i < |state.shapes| && state.shapes[i].id == id
      ensures r.Some? ==> r.value < |state.shapes| && state.shapes[r.value].id == id
    {
      r := state.FindShape(id);
    }

    /** `ShapeExists`. */
    method ShapeExists(id: nat) returns (r: bool)
      ensures r <==> exists i :: 0 <= i < |state.shapes| && state.shapes[i].id == id
    {
      r := state.ShapeExists(id);
    }

    /**
     * `LoadJson`: on success the name and the shapes are replaced, the
     * history is cleared and the layer is no longer marked changed; on
     * failure the layer is unchanged. The name is read first, and a missing
     * one fails before any shape is made. The shapes are parsed into a
     * temporary state and then copied, so on success they take ids twice;
     * a failed parse has drawn `FailedIds`.
     */
    method LoadJson(j: Json, parse: Json -> Option<ShapeData>, shapeIds: Counter) returns (ok: bool)
      modifies this`name, this`layerChanged, state, history, shapeIds
      ensures ok <==> LayerOfJson(j, parse).Some?
      ensures ok ==> (name == LayerOfJson(j, parse).value.0 && DataOf(state.shapes) == LayerOfJson(j, parse).value.1
                      && history.states == [] && !layerChanged)
      ensures !ok ==> (name == old(name) && state.shapes == old(state.shapes)
                       && history.states == old(history.states) && layerChanged == old(layerChanged))
      ensures ok ==> state.shapes == Numbered(LayerOfJson(j, parse).value.1,
                                              old(shapeIds.nextID) + |Elements(ShapesField(j))|)
      ensures ok ==> shapeIds.nextID == old(shapeIds.nextID) + 2 * |Elements(ShapesField(j))|
      ensures AsString(Field(j, "name")).None? ==> shapeIds.nextID == old(shapeIds.nextID)
      ensures !ok && AsString(Field(j, "name")).Some? ==>
        shapeIds.nextID == old(shapeIds.nextID) + FailedIds(Elements(ShapesField(j)), parse)
      ensures id == old(id)
    {
      var newName := AsString(Field(j, "name"));
      if newName.None? {
        return false;
      }
      var temp := new LayerState();
      ok := temp.LoadJson(ShapesField(j), parse, shapeIds);
      if ok {
        name := newName.value;
        var second := shapeIds.nextID;
        state.Assign(temp.shapes, shapeIds);
        RenumberedIsNumbered(temp.shapes, second);
        history.Clear();
        layerChanged := false;
      }
    }

    /** `GetJson`. */
    method GetJson(encode: ShapeData -> Json) returns (j: Json)
      ensures j == LayerJson(name, state.shapes, encode)
    {
      var shapesJson := state.GetJson(encode);
      j := Obj([("shapes", shapesJson), ("name", Str(name))]);
    }
  }

  /**
   * A layer holding one shape with id 0, the shape counter at 1 and an
   * empty history: the snapshot's two copies take ids 1 and 2, so the new
   * line gets id 3.
   */
  method AddLineAfterSnapshot() returns (newId: nat)
    ensures newId == 3
  {
    var layerIds := new Counter();
    var shapeIds := new Counter();
    var layer := new Layer("Layer #1", layerIds);
    var first := shapeIds.Take();
    layer.state.PushShape(Shape(first, ShapeData(Vec2(0.0, 0.0), Vec2(1.0, 1.0), 1.0)));
    assert layer.SaveIds() == 2 by {
      assert EraseCost([DataOf(layer.state.shapes)]) == 0;
    }
    layer.AddShapeOfType(Line, Vec2(0.0, 0.0), Vec2(2.0, 2.0), 1.0, shapeIds);
    newId := layer.state.shapes[1].id;
  }
}
