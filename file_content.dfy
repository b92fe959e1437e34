// The layers of an open file in the later edition (include/FileContent.h):
// a vector of layers whose order is the drawing order, and the index of
// the active layer, `-1` (the largest `size_t`) before any is chosen.
// Whenever the layers are handed out, the list is first corrected so that
// it holds at least one layer and the index is in range.
//
// Layers are the id and name values of `SrcLayerList`; new ones take their
// id from the layer counter. Beside each entry the content keeps the
// layer's body: the shapes of its state and the geometry of its history.
// `LayerState` declares a copy constructor and a copy assignment but no
// move operations (include/LayerState.h:14-15), so every time the vector
// copies or moves a layer, its shapes are duplicated and draw new ids from
// the shape counter. Regenerating the preview images after a push is
// drawing and is not modelled.

module SrcFileContent {
  import opened Wrappers
  import opened TinyString
  import opened Decimal
  import opened LayerNames
  import SrcLayerState
  import SrcLayer
  import opened SrcLayerList
  import AllegroLayerList

  /** The prefix of generated names: "Layer #1", "Layer #2", ... */
  const NamePrefix: string := "Layer #"

  /** `activeLayer = -1`: no index chosen yet. */
  const NoIndex: nat := Npos

  /** The names of the layers, in order. */
  function Names(ls: seq<LayerEntry>): (r: seq<string>)
    ensures |r| == |ls| && forall i :: 0 <= i < |ls| ==> r[i] == ls[i].name
  {
    seq(|ls|, i requires 0 <= i < |ls| => ls[i].name)
  }

  /** The index `p_CorrectLayers` leaves for a non-empty list: 0 for none, the last one when too large. */
  function CorrectedIndex(active: nat, size: nat): (r: nat)
    requires size >= 1
    ensures r < size
    ensures active < size && active != NoIndex ==> r == active
  {
    if active == NoIndex then 0 else if active >= size then size - 1 else active
  }

  /** Every layer's id was handed out before the counter reached `next`. */
  predicate IdsBelow(ls: seq<LayerEntry>, next: nat)
  {
    forall i :: 0 <= i < |ls| ==> ls[i].id < next
  }

  /** What a stored layer holds besides its id and name: its state's shapes and its snapshots. */
  datatype LayerBody = LayerBody(shapes: seq<SrcLayerState.Shape>, snapshots: seq<seq<SrcLayerState.ShapeData>>)

  /** `Layer(name)`: no shapes and an empty history. */
  const EmptyBody: LayerBody := LayerBody([], [])

  /** Every shape id of the body lies in `[lo, hi)`. */
  predicate IdsWithin(b: LayerBody, lo: nat, hi: nat)
  {
    forall i :: 0 <= i < |b.shapes| ==> lo <= b.shapes[i].id < hi
  }

  /** Every shape id of every body was handed out before the counter reached `next`. */
  predicate ShapeIdsBelow(bs: seq<LayerBody>, next: nat)
  {
    forall j :: 0 <= j < |bs| ==> IdsWithin(bs[j], 0, next)
  }

  /** The same drawing: the same geometry in the same order, and the same snapshots. */
  predicate SameDrawing(a: LayerBody, b: LayerBody)
  {
    SrcLayerState.DataOf(a.shapes) == SrcLayerState.DataOf(b.shapes) && a.snapshots == b.snapshots
  }

  /**
   * The body after its state was copied with the shape counter at `next`:
   * the copy constructor and the copy assignment of `LayerState`
   * (src/LayerState.cpp:12-23) duplicate each shape, and every duplicate
   * draws the next id.
   */
  function Renumber(b: LayerBody, next: nat): (r: LayerBody)
    ensures SameDrawing(r, b) && |r.shapes| == |b.shapes|
    ensures IdsWithin(r, next, next + |b.shapes|)
  {
    LayerBody(SrcLayerState.Renumbered(b.shapes, next), b.snapshots)
  }

  /**
   * The ids one copy of the layer draws: its state's shapes and, when the
   * history is copied too, the shapes of every snapshot.
   */
  function CopyCost(b: LayerBody, withHistory: bool): nat
  {
    |b.shapes| + if withHistory then SrcLayer.Sizes(b.snapshots) else 0
  }

  /** The ids copying all the bodies one after another draws. */
  function InOrderCost(bs: seq<LayerBody>, withHistory: bool): nat
    decreases |bs|
  {
    if bs == [] then 0 else CopyCost(bs[0], withHistory) + InOrderCost(bs[1..], withHistory)
  }

  /**
   * The bodies after they were copied one after another, from the first,
   * with the counter at `next`. A reallocating `push_back` copies whole
   * layers (the implicit move constructor of `Layer` is not `noexcept`);
   * `erase` move-assigns the layers behind the erased one, which copies
   * their states and moves their histories.
   */
  function CopiedInOrder(bs: seq<LayerBody>, next: nat, withHistory: bool): (r: seq<LayerBody>)
    ensures |r| == |bs|
    ensures forall j :: 0 <= j < |bs| ==>
      SameDrawing(r[j], bs[j]) && IdsWithin(r[j], next, next + InOrderCost(bs, withHistory))
    decreases |bs|
  {
    if bs == [] then []
    else [Renumber(bs[0], next)] + CopiedInOrder(bs[1..], next + CopyCost(bs[0], withHistory), withHistory)
  }

  /**
   * The bodies after `push_back` of a copy of `b` with the counter at
   * `next`: the new element is built first, and when the vector was full
   * (`|bs| == room`) every old layer is then copied into the new buffer.
   */
  function Pushed(bs: seq<LayerBody>, room: nat, b: LayerBody, next: nat): (r: seq<LayerBody>)
    ensures |r| == |bs| + 1 && SameDrawing(r[|bs|], b) && IdsWithin(r[|bs|], next, next + CopyCost(b, true))
    ensures forall j :: 0 <= j < |bs| ==> SameDrawing(r[j], bs[j])
    ensures |bs| < room ==> r[..|bs|] == bs
    ensures |bs| >= room ==> forall j :: 0 <= j < |bs| ==>
      IdsWithin(r[j], next + CopyCost(b, true), next + PushCost(bs, room, b))
  {
    if |bs| < room then bs + [Renumber(b, next)]
    else CopiedInOrder(bs, next + CopyCost(b, true), true) + [Renumber(b, next)]
  }

  /** The ids `push_back` of a copy of `b` draws. */
  function PushCost(bs: seq<LayerBody>, room: nat, b: LayerBody): nat
  {
    CopyCost(b, true) + if |bs| < room then 0 else InOrderCost(bs, true)
  }

  /**
   * The bodies after `erase` of the one at `k` with the counter at `next`:
   * those before it stay, those behind it move one place down and have
   * their states copied.
   */
  function Erased(bs: seq<LayerBody>, k: nat, next: nat): (r: seq<LayerBody>)
    requires k < |bs|
    ensures |r| == |bs| - 1 && r[..k] == bs[..k]
    ensures forall j :: k <= j < |r| ==>
      SameDrawing(r[j], bs[j + 1]) && IdsWithin(r[j], next, next + InOrderCost(bs[k + 1..], false))
  {
    bs[..k] + CopiedInOrder(bs[k + 1..], next, false)
  }

  /**
   * The bodies after `std::iter_swap` of those at `a` and `b` with the
   * counter at `next`: `tmp(move(*a))`, `*a = move(*b)`, `*b = move(tmp)`.
   * Each step copies a state and moves a history, so the two layers trade
   * drawings, both under new ids.
   */
  function Swapped(bs: seq<LayerBody>, a: nat, b: nat, next: nat): (r: seq<LayerBody>)
    requires a < |bs| && b < |bs| && a != b
    ensures |r| == |bs| && SameDrawing(r[a], bs[b]) && SameDrawing(r[b], bs[a])
    ensures forall j :: 0 <= j < |bs| && j != a && j != b ==> r[j] == bs[j]
    ensures IdsWithin(r[a], next, next + SwapCost(bs, a, b)) && IdsWithin(r[b], next, next + SwapCost(bs, a, b))
  {
    var tmp := |bs[a].shapes|;
    bs[a := Renumber(bs[b], next + tmp)][b := Renumber(bs[a], next + tmp + |bs[b].shapes|)]
  }

  /** The ids `std::iter_swap` draws: the state at `a` is copied twice, the one at `b` once. */
  function SwapCost(bs: seq<LayerBody>, a: nat, b: nat): nat
    requires a < |bs| && b < |bs|
  {
    2 * |bs[a].shapes| + |bs[b].shapes|
  }

  /** A push keeps every shape id below the counter. */
  lemma PushedIdsBelow(bs: seq<LayerBody>, room: nat, b: LayerBody, next: nat)
    requires ShapeIdsBelow(bs, next)
    ensures ShapeIdsBelow(Pushed(bs, room, b, next), next + PushCost(bs, room, b))
  {
    var r := Pushed(bs, room, b, next);
    forall j | 0 <= j < |r|
      ensures IdsWithin(r[j], 0, next + PushCost(bs, room, b))
    {
      if j < |bs| && |bs| < room {
        assert r[j] == r[..|bs|][j] == bs[j];
      }
    }
  }

  /**
   * When the vector is full, a push leaves no old layer with any id it had:
   * a selection of shape ids taken before the push names none of them.
   */
  lemma ReallocationRenumbers(bs: seq<LayerBody>, room: nat, b: LayerBody, next: nat, j: nat, i: nat)
    requires ShapeIdsBelow(bs, next) && |bs| >= room
    requires j < |bs| && i < |bs[j].shapes|
    ensures i < |Pushed(bs, room, b, next)[j].shapes|
    ensures forall m :: 0 <= m < |bs[j].shapes| ==> Pushed(bs, room, b, next)[j].shapes[i].id != bs[j].shapes[m].id
  {
    var r := Pushed(bs, room, b, next);
    assert IdsWithin(bs[j], 0, next);
    assert |r[j].shapes| == |SrcLayerState.DataOf(r[j].shapes)| == |SrcLayerState.DataOf(bs[j].shapes)|;
  }

  /** An erase keeps every shape id below the counter. */
  lemma ErasedIdsBelow(bs: seq<LayerBody>, k: nat, next: nat)
    requires k < |bs| && ShapeIdsBelow(bs, next)
    ensures ShapeIdsBelow(Erased(bs, k, next), next + InOrderCost(bs[k + 1..], false))
  {
    var r := Erased(bs, k, next);
    forall j | 0 <= j < |r|
      ensures IdsWithin(r[j], 0, next + InOrderCost(bs[k + 1..], false))
    {
      if j < k {
        assert r[j] == r[..k][j] == bs[j];
      }
    }
  }

  /** A swap keeps every shape id below the counter. */
  lemma SwappedIdsBelow(bs: seq<LayerBody>, a: nat, b: nat, next: nat)
    requires a < |bs| && b < |bs| && a != b && ShapeIdsBelow(bs, next)
    ensures ShapeIdsBelow(Swapped(bs, a, b, next), next + SwapCost(bs, a, b))
  {
    var r := Swapped(bs, a, b, next);
    forall j | 0 <= j < |r|
      ensures IdsWithin(r[j], 0, next + SwapCost(bs, a, b))
    {
      if j != a && j != b {
        assert r[j] == bs[j];
      }
    }
  }

  /** Without layers the first free name is "Layer #1". */
  lemma FirstFreeOfNone(k: nat)
    requires FirstFree(NamePrefix, [], k)
    ensures k == 1 && Numbered(NamePrefix, k) == NamePrefix + "1"
  {
    var j: nat := 1;
    assert j < k ==> Numbered(NamePrefix, j) in [];
    assert NatToString(1) == "1";
  }

  class FileContent {
    var layers: seq<LayerEntry>
    var activeLayer: nat
    /** The body of each layer, index by index. */
    var bodies: seq<LayerBody>
    /** The capacity of the vector of layers. */
    var room: nat

    /** The active index is in range, or nothing has been chosen in an empty list. */
    predicate Valid()
      reads this
    {
      activeLayer < |layers| || (layers == [] && activeLayer == NoIndex)
    }

    /** Every layer has its body, and the vector's capacity holds them all. */
    predicate Stored()
      reads this
    {
      |bodies| == |layers| <= room
    }

    /**
     * `FileContent(init)`: with `init`, one layer "Layer #1" without
     * shapes, made active; without, no layers and no index.
     */
    constructor (init: bool, layerIds: SrcLayerState.Counter, shapeIds: SrcLayerState.Counter)
      requires layerIds != shapeIds
      modifies layerIds, shapeIds
      ensures init ==> layers == [LayerEntry(old(layerIds.nextID), NamePrefix + "1")] && activeLayer == 0
                       && layerIds.nextID == old(layerIds.nextID) + 1 && bodies == [EmptyBody]
      ensures !init ==> layers == [] && activeLayer == NoIndex && layerIds.nextID == old(layerIds.nextID)
                        && bodies == []
      ensures room == if init then 1 else 0
      ensures shapeIds.nextID == old(shapeIds.nextID)
      ensures Valid() && Stored()
    {
      layers := [];
      activeLayer := NoIndex;
      bodies := [];
      room := 0;
      new;
      if init {
        PushNewLayer(layerIds, shapeIds);
        assert Names([]) == [];
        ghost var k :| FirstFree(NamePrefix, [], k) && layers == [LayerEntry(old(layerIds.nextID), Numbered(NamePrefix, k))];
        FirstFreeOfNone(k);
        CorrectLayers(layerIds, shapeIds);
      }
    }

    /**
     * The name search of `PushLayer()`: from "Layer #1" up, the number
     * grows at every clash until a full pass over the layers finds none.
     */
    method UnusedName() returns (name: string, k: nat)
      ensures FirstFree(NamePrefix, Names(layers), k) && name == Numbered(NamePrefix, k)
    {
      var names := Names(layers);
      k := 1;
      name := NamePrefix + "1";
      assert NatToString(1) == "1";
      var repeat := true;
      while repeat
        invariant k >= 1 && name == Numbered(NamePrefix, k)
        invariant forall j :: 1 <= j < k ==> Numbered(NamePrefix, j) in names
        invariant !repeat ==> name !in names
        decreases CountFrom(NamePrefix, names, k), repeat
      {
        repeat := false;
        for i := 0 to |names|
          invariant forall m :: 0 <= m < i ==> names[m] != name
        {
          if names[i] == name {
            repeat := true;
            CountFromDrops(NamePrefix, names, k);
            k := k + 1;
            name := NamePrefix + NatToString(k);
            break;
          }
        }
      }
    }

    /** `PushLayer()`: a new empty layer named "Layer #k" for the smallest unused k from 1, made active. */
    method PushNewLayer(layerIds: SrcLayerState.Counter, shapeIds: SrcLayerState.Counter)
      requires Stored() && layerIds != shapeIds
      modifies this, layerIds, shapeIds
      ensures exists k :: (FirstFree(NamePrefix, Names(old(layers)), k) &&
                           layers == old(layers) + [LayerEntry(old(layerIds.nextID), Numbered(NamePrefix, k))])
      ensures layerIds.nextID == old(layerIds.nextID) + 1
      ensures FindIndex(layers, old(layerIds.nextID)) == Some(activeLayer)
      ensures IdsBelow(old(layers), old(layerIds.nextID)) ==> activeLayer == |layers| - 1
      ensures bodies == Pushed(old(bodies), old(room), EmptyBody, old(shapeIds.nextID))
      ensures shapeIds.nextID == old(shapeIds.nextID) + PushCost(old(bodies), old(room), EmptyBody)
      ensures room == SrcLayer.GrownRoom(|old(layers)|, old(room))
      ensures Valid() && Stored()
    {
      var name, k := UnusedName();
      PushNamedLayer(name, layerIds, shapeIds);
    }

    /**
     * `PushLayer(name)`: a new empty layer with a fresh id at the end, made
     * active. `push_back(Layer(name))` moves the new layer in, which copies
     * its (empty) state; a reallocation copies the old layers as in
     * `PushLayer(layer)`.
     */
    method PushNamedLayer(name: string, layerIds: SrcLayerState.Counter, shapeIds: SrcLayerState.Counter)
      requires Stored() && layerIds != shapeIds
      modifies this, layerIds, shapeIds
      ensures layers == old(layers) + [LayerEntry(old(layerIds.nextID), name)]
      ensures layerIds.nextID == old(layerIds.nextID) + 1
      ensures FindIndex(layers, old(layerIds.nextID)) == Some(activeLayer)
      ensures IdsBelow(old(layers), old(layerIds.nextID)) ==> activeLayer == |layers| - 1
      ensures bodies == Pushed(old(bodies), old(room), EmptyBody, old(shapeIds.nextID))
      ensures shapeIds.nextID == old(shapeIds.nextID) + PushCost(old(bodies), old(room), EmptyBody)
      ensures room == SrcLayer.GrownRoom(|old(layers)|, old(room))
      ensures Valid() && Stored()
    {
      var id := layerIds.Take();
      PushLayer(LayerEntry(id, name), EmptyBody, shapeIds);
    }

    /**
     * `PushLayer(layer)`: a copy of the layer goes to the end and its id is
     * activated, which picks the first layer with that id. The copy's
     * shapes get new ids; when the vector was full, so do those of every
     * old layer and of their snapshots' copies.
     */
    method PushLayer(layer: LayerEntry, body: LayerBody, shapeIds: SrcLayerState.Counter)
      requires Stored()
      modifies this, shapeIds
      ensures layers == old(layers) + [layer]
      ensures FindIndex(layers, layer.id) == Some(activeLayer)
      ensures (forall i :: 0 <= i < |old(layers)| ==> old(layers)[i].id != layer.id) ==> activeLayer == |layers| - 1
      ensures bodies == Pushed(old(bodies), old(room), body, old(shapeIds.nextID))
      ensures shapeIds.nextID == old(shapeIds.nextID) + PushCost(old(bodies), old(room), body)
      ensures room == SrcLayer.GrownRoom(|old(layers)|, old(room))
      ensures Valid() && Stored()
    {
      PushBody(body, shapeIds);
      layers := layers + [layer];
      assert layers[|layers| - 1].id == layer.id;
      var _ := ActivateLayer(layer.id);
      if forall i :: 0 <= i < |old(layers)| ==> old(layers)[i].id != layer.id {
        FindIndexIs(layers, layer.id, |layers| - 1);
      }
    }

    /**
     * The vector side of `push_back` of a copy of `body`: the copy is made
     * first, then a full vector grows by half and copies the old layers.
     */
    method PushBody(body: LayerBody, shapeIds: SrcLayerState.Counter)
      requires |bodies| <= room
      modifies this`bodies, this`room, shapeIds
      ensures bodies == Pushed(old(bodies), old(room), body, old(shapeIds.nextID))
      ensures shapeIds.nextID == old(shapeIds.nextID) + PushCost(old(bodies), old(room), body)
      ensures room == SrcLayer.GrownRoom(|old(bodies)|, old(room)) && |bodies| <= room
    {
      var pushed := Pushed(bodies, room, body, shapeIds.nextID);
      shapeIds.Skip(PushCost(bodies, room, body));
      room := SrcLayer.GrownRoom(|bodies|, room);
      bodies := pushed;
    }

    /** `ActivateLayer`: the index of the first layer with the id; false and no change for an unknown id. */
    method ActivateLayer(id: nat) returns (ok: bool)
      modifies this`activeLayer
      ensures ok <==> FindIndex(layers, id).Some?
      ensures activeLayer == if ok then FindIndex(layers, id).value else old(activeLayer)
      ensures old(Valid()) ==> Valid()
      ensures ok ==> Valid()
    {
      for i := 0 to |layers|
        invariant forall j :: 0 <= j < i ==> layers[j].id != id
      {
        if layers[i].id == id {
          FindIndexIs(layers, id, i);
          activeLayer := i;
          return true;
        }
      }
      return false;
    }

    /**
     * `RemoveLayer`: erases the first layer with the id and corrects the
     * list, so that at least one layer remains and the index is in range;
     * false and no change for an unknown id. The layers behind the erased
     * one move down, and their shapes get new ids.
     */
    method RemoveLayer(id: nat, layerIds: SrcLayerState.Counter, shapeIds: SrcLayerState.Counter) returns (ok: bool)
      requires Stored() && layerIds != shapeIds
      modifies this, layerIds, shapeIds
      ensures ok <==> FindIndex(old(layers), id).Some?
      ensures !ok ==> (layers == old(layers) && activeLayer == old(activeLayer) && bodies == old(bodies)
                       && layerIds.nextID == old(layerIds.nextID) && shapeIds.nextID == old(shapeIds.nextID))
      ensures ok ==> |layers| >= 1 && activeLayer < |layers|
      ensures ok && |old(layers)| >= 2 ==>
        var k := FindIndex(old(layers), id).value;
        layers == AllegroLayerList.EraseAt(old(layers), k)
        && activeLayer == CorrectedIndex(old(activeLayer), |layers|)
        && layerIds.nextID == old(layerIds.nextID)
        && bodies == Erased(old(bodies), k, old(shapeIds.nextID))
        && shapeIds.nextID == old(shapeIds.nextID) + InOrderCost(old(bodies)[k + 1..], false)
      ensures ok && |old(layers)| == 1 ==>
        layers == [LayerEntry(old(layerIds.nextID), NamePrefix + "1")] && activeLayer == 0
        && layerIds.nextID == old(layerIds.nextID) + 1
        && bodies == [EmptyBody] && shapeIds.nextID == old(shapeIds.nextID)
      ensures room == old(room)
      ensures old(Valid()) ==> Valid()
      ensures Stored()
    {
      var k := FindLayerIndex(id);
      if k.None? {
        return false;
      }
      var next := shapeIds.nextID;
      var shifted := Erased(bodies, k.value, next);
      shapeIds.Skip(InOrderCost(bodies[k.value + 1..], false));
      layers := AllegroLayerList.EraseAt(layers, k.value);
      bodies := shifted;
      CorrectLayers(layerIds, shapeIds);
      return true;
    }

    /** `FindLayer` and `p_FindLayerIndex`: the index of the first layer with the id, none (`-1`) if there is none. */
    method FindLayerIndex(id: nat) returns (r: Option<nat>)
      ensures r == FindIndex(layers, id)
    {
      for i := 0 to |layers|
        invariant forall j :: 0 <= j < i ==> layers[j].id != id
      {
        if layers[i].id == id {
          FindIndexIs(layers, id, i);
          return Some(i);
        }
      }
      return None;
    }

    /**
     * `MoveLayerFront`: corrects the list first; then fails for an unknown
     * layer or the first one, otherwise swaps it with its predecessor,
     * which gives both layers' shapes new ids.
     */
    method MoveLayerFront(id: nat, layerIds: SrcLayerState.Counter, shapeIds: SrcLayerState.Counter) returns (ok: bool)
      requires Stored() && layerIds != shapeIds
      modifies this, layerIds, shapeIds
      ensures old(layers) == [] ==> (!ok && layers == [LayerEntry(old(layerIds.nextID), NamePrefix + "1")]
                                     && activeLayer == 0 && layerIds.nextID == old(layerIds.nextID) + 1
                                     && bodies == [EmptyBody] && shapeIds.nextID == old(shapeIds.nextID)
                                     && room == SrcLayer.GrownRoom(0, old(room)))
      ensures old(layers) != [] ==> (
        var k := FindIndex(old(layers), id);
        (ok <==> k.Some? && k.value >= 1)
        && layers == (if ok then AllegroLayerList.Swap(old(layers), k.value, k.value - 1) else old(layers))
        && activeLayer == CorrectedIndex(old(activeLayer), |old(layers)|)
        && layerIds.nextID == old(layerIds.nextID)
        && bodies == (if ok then Swapped(old(bodies), k.value, k.value - 1, old(shapeIds.nextID)) else old(bodies))
        && shapeIds.nextID == old(shapeIds.nextID) + (if ok then SwapCost(old(bodies), k.value, k.value - 1) else 0)
        && room == old(room))
      ensures activeLayer < |layers|
      ensures Stored()
    {
      CorrectLayers(layerIds, shapeIds);
      var k := FindLayerIndex(id);
      if k.None? || k.value < 1 {
        return false;
      }
      var swapped := Swapped(bodies, k.value, k.value - 1, shapeIds.nextID);
      shapeIds.Skip(SwapCost(bodies, k.value, k.value - 1));
      layers := AllegroLayerList.Swap(layers, k.value, k.value - 1);
      bodies := swapped;
      return true;
    }

    /**
     * `MoveLayerBack`: fails for an unknown layer or the last one, otherwise
     * swaps it with its successor, which gives both layers' shapes new ids.
     */
    method MoveLayerBack(id: nat, shapeIds: SrcLayerState.Counter) returns (ok: bool)
      requires Stored()
      modifies this, shapeIds
      ensures var k := FindIndex(old(layers), id);
        ok <==> k.Some? && k.value + 1 < |old(layers)|
      ensures ok ==> var k := FindIndex(old(layers), id).value;
        layers == AllegroLayerList.Swap(old(layers), k, k + 1)
        && bodies == Swapped(old(bodies), k, k + 1, old(shapeIds.nextID))
        && shapeIds.nextID == old(shapeIds.nextID) + SwapCost(old(bodies), k, k + 1)
      ensures !ok ==> layers == old(layers) && bodies == old(bodies) && shapeIds.nextID == old(shapeIds.nextID)
      ensures activeLayer == old(activeLayer) && room == old(room)
      ensures old(Valid()) ==> Valid()
      ensures Stored()
    {
      var k := FindLayerIndex(id);
      if k.None? || k.value >= |layers| - 1 {
        return false;
      }
      var swapped := Swapped(bodies, k.value, k.value + 1, shapeIds.nextID);
      shapeIds.Skip(SwapCost(bodies, k.value, k.value + 1));
      layers := AllegroLayerList.Swap(layers, k.value, k.value + 1);
      bodies := swapped;
      return true;
    }

    /**
     * `p_CorrectLayers`: an empty list gets a new layer; then an unchosen
     * index becomes 0 and one past the end the last index.
     */
    method CorrectLayers(layerIds: SrcLayerState.Counter, shapeIds: SrcLayerState.Counter)
      requires Stored() && layerIds != shapeIds
      modifies this, layerIds, shapeIds
      ensures |layers| >= 1 && activeLayer < |layers|
      ensures old(layers) != [] ==>
        layers == old(layers) && activeLayer == CorrectedIndex(old(activeLayer), |layers|)
        && layerIds.nextID == old(layerIds.nextID) && bodies == old(bodies) && room == old(room)
      ensures old(layers) == [] ==>
        layers == [LayerEntry(old(layerIds.nextID), NamePrefix + "1")] && activeLayer == 0
        && layerIds.nextID == old(layerIds.nextID) + 1
        && bodies == [EmptyBody] && room == SrcLayer.GrownRoom(0, old(room))
      ensures shapeIds.nextID == old(shapeIds.nextID)
      ensures Stored()
    {
      if |layers| == 0 {
        PushNewLayer(layerIds, shapeIds);
        assert Names(old(layers)) == [];
        ghost var k :| FirstFree(NamePrefix, [], k) && layers == [LayerEntry(old(layerIds.nextID), Numbered(NamePrefix, k))];
        FirstFreeOfNone(k);
      }
      if activeLayer == NoIndex {
        activeLayer := 0;
      } else if activeLayer >= |layers| {
        activeLayer := |layers| - 1;
      }
    }

    /** `GetActiveLayer`: corrects the list, then the active index. */
    method GetActiveLayer(layerIds: SrcLayerState.Counter, shapeIds: SrcLayerState.Counter) returns (r: nat)
      requires Stored() && layerIds != shapeIds
      modifies this, layerIds, shapeIds
      ensures r == activeLayer && r < |layers|
      ensures old(layers) != [] ==>
        layers == old(layers) && r == CorrectedIndex(old(activeLayer), |layers|)
        && layerIds.nextID == old(layerIds.nextID) && bodies == old(bodies) && room == old(room)
      ensures old(layers) == [] ==>
        layers == [LayerEntry(old(layerIds.nextID), NamePrefix + "1")] && r == 0
        && layerIds.nextID == old(layerIds.nextID) + 1
        && bodies == [EmptyBody] && room == SrcLayer.GrownRoom(0, old(room))
      ensures shapeIds.nextID == old(shapeIds.nextID)
      ensures Stored()
    {
      CorrectLayers(layerIds, shapeIds);
      r := activeLayer;
    }

    /** `p_IsIndexValid`. */
    method IsIndexValid(index: nat) returns (r: bool)
      ensures r <==> index < |layers|
    {
      r := index < |layers|;
    }
  }
}
