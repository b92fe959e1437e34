// The layer list of the later edition (src/LayerList.cpp): one vector of
// layers, whose order is the drawing order, and the id of the active
// layer, `-1` when there is none.
//
// The list only reads a layer's id and name, so a layer is a value of
// those two here; its JSON form is passed in. Layer ids come from the
// static layer counter, an object passed to the operations that create
// layers.

module SrcLayerList {
  import opened Wrappers
  import opened TinyList
  import opened JsonValue
  import opened SrcLayerState
  import AllegroLayerList

  /** `LayerID(-1)`: no active layer. */
  const NoLayer: int := -1

  datatype LayerEntry = LayerEntry(id: nat, name: string)

  /** The ids of the layers, in list order. */
  function IdsOf(ls: seq<LayerEntry>): (r: seq<nat>)
    ensures |r| == |ls| && forall i :: 0 <= i < |ls| ==> r[i] == ls[i].id
  {
    seq(|ls|, i requires 0 <= i < |ls| => ls[i].id)
  }

  /** `__findLayer`: the index of the first layer with the id, none for `-1`. */
  function FindIndex(ls: seq<LayerEntry>, id: nat): (r: Option<nat>)
    ensures r.Some? ==> r.value < |ls| && ls[r.value].id == id
    ensures r.Some? ==> forall j :: 0 <= j < r.value ==> ls[j].id != id
    ensures r.None? <==> forall j :: 0 <= j < |ls| ==> ls[j].id != id
  {
    var r := AllegroLayerList.IndexIn(IdsOf(ls), id);
    assert r.None? ==> forall j :: 0 <= j < |ls| ==> IdsOf(ls)[j] != id;
    r
  }

  /** A scan that stops at the first match finds what `FindIndex` reports. */
  lemma FindIndexIs(ls: seq<LayerEntry>, id: nat, i: nat)
    requires i < |ls| && ls[i].id == id
    requires forall j :: 0 <= j < i ==> ls[j].id != id
    ensures FindIndex(ls, id) == Some(i)
  {
    AllegroLayerList.IndexInIs(IdsOf(ls), id, i);
  }

  /** The active id names a layer of the list, or there is none. */
  predicate ActiveExists(ls: seq<LayerEntry>, active: int)
  {
    active == NoLayer || (active >= 0 && FindIndex(ls, active).Some?)
  }

  /**
   * The active id after `DeleteLayer` as written: it is compared with the
   * number of layers left, and cleared only when it is not below that
   * number.
   */
  function ActiveAfterDeleteAsWritten(active: int, size: nat): int
  {
    if active >= size then NoLayer else active
  }

  /**
   * The comparison as written both clears a selection that still exists
   * and keeps one that was just deleted: with layers 5 and 6 and layer 6
   * active, deleting layer 5 clears it; with layers 0, 1 and 2 and layer 0
   * active, deleting layer 0 keeps the deleted id active.
   */
  lemma DeleteActiveAsWrittenFails()
    ensures var ls := [LayerEntry(5, "a"), LayerEntry(6, "b")];
      ActiveExists(ls[1..], 6) && ActiveAfterDeleteAsWritten(6, 1) == NoLayer
    ensures var ls := [LayerEntry(0, "a"), LayerEntry(1, "b"), LayerEntry(2, "c")];
      ActiveAfterDeleteAsWritten(0, 2) == 0 && !ActiveExists(ls[1..], 0)
  {
    var a := [LayerEntry(5, "a"), LayerEntry(6, "b")];
    assert a[1..] == [LayerEntry(6, "b")];
    FindIndexIs(a[1..], 6, 0);
    var b := [LayerEntry(0, "a"), LayerEntry(1, "b"), LayerEntry(2, "c")];
    assert b[1..] == [LayerEntry(1, "b"), LayerEntry(2, "c")];
    assert forall j :: 0 <= j < |b[1..]| ==> b[1..][j].id != 0;
  }

  /** The layers' JSON forms in list order. */
  function LayersJson(ls: seq<LayerEntry>, encode: LayerEntry -> Json): (r: seq<Json>)
    ensures |r| == |ls| && forall i :: 0 <= i < |ls| ==> r[i] == encode(ls[i])
  {
    seq(|ls|, i requires 0 <= i < |ls| => encode(ls[i]))
  }

  /** `GetJson`: an object whose "layers" field holds every layer's JSON form in order. */
  function ListJson(ls: seq<LayerEntry>, encode: LayerEntry -> Json): (r: Json)
    ensures Field(r, "layers").Some? && Elements(Field(r, "layers").value) == LayersJson(ls, encode)
  {
    FieldOfFirst("layers", Arr(LayersJson(ls, encode)), []);
    Obj([("layers", Arr(LayersJson(ls, encode)))])
  }

  class LayerList {
    var layers: seq<LayerEntry>
    var activeLayer: int

    /** The active layer, if any, is one of the list's layers. */
    predicate Valid()
      reads this
    {
      ActiveExists(layers, activeLayer)
    }

    /** `LayerList()`: no layers and no active layer. */
    constructor ()
      ensures layers == [] && activeLayer == NoLayer && Valid()
    {
      layers := [];
      activeLayer := NoLayer;
    }

    /** `AddLayerFront`: a new layer with a fresh id at index 0, made active. */
    method AddLayerFront(name: string, layerIds: Counter)
      modifies this, layerIds
      ensures layers == [LayerEntry(old(layerIds.nextID), name)] + old(layers)
      ensures activeLayer == old(layerIds.nextID) && layerIds.nextID == old(layerIds.nextID) + 1
      ensures Valid()
    {
      var id := layerIds.Take();
      layers := [LayerEntry(id, name)] + layers;
      FindIndexIs(layers, id, 0);
      var _ := SelectLayer(id);
    }

    /** `AddLayerBack`: a new layer with a fresh id at the end, made active. */
    method AddLayerBack(name: string, layerIds: Counter)
      modifies this, layerIds
      ensures layers == old(layers) + [LayerEntry(old(layerIds.nextID), name)]
      ensures activeLayer == old(layerIds.nextID) && layerIds.nextID == old(layerIds.nextID) + 1
      ensures Valid()
    {
      var id := layerIds.Take();
      layers := layers + [LayerEntry(id, name)];
      assert layers[|layers| - 1].id == id;
      var _ := SelectLayer(id);
    }

    /** `MoveLayerFront`: fails for an unknown layer or the first one, otherwise swaps it with its predecessor. */
    method MoveLayerFront(id: nat) returns (ok: bool)
      modifies this
      ensures var k := FindIndex(old(layers), id);
        ok <==> k.Some? && k.value >= 1
      ensures ok ==> layers == AllegroLayerList.Swap(old(layers), FindIndex(old(layers), id).value,
                                                     FindIndex(old(layers), id).value - 1)
      ensures !ok ==> layers == old(layers)
      ensures activeLayer == old(activeLayer)
      ensures old(Valid()) ==> Valid()
    {
      var k := FindLayerIndex(id);
      if k.None? || k.value < 1 {
        return false;
      }
      SwapKeepsActive(layers, k.value, k.value - 1, activeLayer);
      layers := AllegroLayerList.Swap(layers, k.value, k.value - 1);
      return true;
    }

    /** `MoveLayerBack`: fails for an unknown layer or the last one, otherwise swaps it with its successor. */
    method MoveLayerBack(id: nat) returns (ok: bool)
      modifies this
      ensures var k := FindIndex(old(layers), id);
        ok <==> k.Some? && k.value + 1 < |old(layers)|
      ensures ok ==> layers == AllegroLayerList.Swap(old(layers), FindIndex(old(layers), id).value,
                                                     FindIndex(old(layers), id).value + 1)
      ensures !ok ==> layers == old(layers)
      ensures activeLayer == old(activeLayer)
      ensures old(Valid()) ==> Valid()
    {
      var k := FindLayerIndex(id);
      if k.None? || k.value >= |layers| - 1 {
        return false;
      }
      SwapKeepsActive(layers, k.value, k.value + 1, activeLayer);
      layers := AllegroLayerList.Swap(layers, k.value, k.value + 1);
      return true;
    }

    /** `Clear`: no layers and no active layer. */
    method Clear()
      modifies this
      ensures layers == [] && activeLayer == NoLayer && Valid()
    {
      layers := [];
      activeLayer := NoLayer;
    }

    /**
     * `DeleteLayer`: erases the layer with the id, and fails for an
     * unknown one. The active layer is cleared when it was the one
     * deleted (the comparison as written is `ActiveAfterDeleteAsWritten`).
     */
    method DeleteLayer(id: nat) returns (ok: bool)
      modifies this
      ensures ok <==> FindIndex(old(layers), id).Some?
      ensures ok ==> layers == AllegroLayerList.EraseAt(old(layers), FindIndex(old(layers), id).value)
      ensures ok ==> activeLayer == if old(activeLayer) == id then NoLayer else old(activeLayer)
      ensures !ok ==> layers == old(layers) && activeLayer == old(activeLayer)
      ensures AllegroLayerList.Distinct(IdsOf(old(layers))) ==> FindIndex(layers, id).None?
      ensures old(Valid()) ==> Valid()
    {
      var k := FindLayerIndex(id);
      if k.None? {
        return false;
      }
      EraseKeepsOthers(layers, k.value);
      if AllegroLayerList.Distinct(IdsOf(layers)) {
        EraseDropsId(layers, k.value);
      }
      layers := AllegroLayerList.EraseAt(layers, k.value);
      if activeLayer == id {
        activeLayer := NoLayer;
      }
      return true;
    }

    /** `LayerExists`: false for `-1`, otherwise whether some layer has the id. */
    method LayerExists(id: int) returns (r: bool)
      ensures r <==> id != NoLayer && id >= 0 && FindIndex(layers, id).Some?
    {
      if id == NoLayer || id < 0 {
        return false;
      }
      for i := 0 to |layers|
        invariant forall j :: 0 <= j < i ==> layers[j].id != id
      {
        if layers[i].id == id {
          return true;
        }
      }
      return false;
    }

    /** `SelectLayer`: the id becomes active only if such a layer exists. */
    method SelectLayer(id: int) returns (ok: bool)
      modifies this
      ensures ok <==> id >= 0 && FindIndex(layers, id).Some?
      ensures layers == old(layers)
      ensures activeLayer == if ok then id else old(activeLayer)
      ensures old(Valid()) ==> Valid()
      ensures ok ==> Valid()
    {
      ok := LayerExists(id);
      if ok {
        activeLayer := id;
      }
    }

    /** `GetActiveLayer`: the index of the active layer, none if there is none. */
    method GetActiveLayer() returns (r: Option<nat>)
      ensures activeLayer < 0 ==> r.None?
      ensures activeLayer >= 0 ==> r == FindIndex(layers, activeLayer)
    {
      if activeLayer < 0 {
        return None;
      }
      r := FindLayerIndex(activeLayer);
    }

    /** `FindLayer` and `__findLayer`: the index of the first layer with the id. */
    method FindLayerIndex(id: nat) returns (r: Option<nat>)
      ensures r == FindIndex(layers, id)
    {
      for i := 0 to |layers|
        invariant forall j :: 0 <= j < i ==> layers[j].id != id
      {
        if layers[i].id == id {
          FindIndexIs(layers, id, i);
          return Some(i);
        }
      }
      return None;
    }

    /** `GetLayersReverse`: the layers from last to first, by a loop on an index that wraps below 0. */
    method GetLayersReverse() returns (r: seq<LayerEntry>)
      ensures r == Reversed(layers)
    {
      var ls := layers;
      r := [];
      var i := |ls|;
      while i > 0
        invariant 0 <= i <= |ls|
        invariant r == Reversed(ls[i..])
        decreases i
      {
        ReversedCons(ls[i - 1], ls[i..]);
        assert ls[i - 1..] == [ls[i - 1]] + ls[i..];
        r := r + [ls[i - 1]];
        i := i - 1;
      }
      assert ls[0..] == ls;
    }

    /** `LoadJson`: its reading is commented out, so it succeeds and changes nothing. */
    method LoadJson(j: Json) returns (ok: bool)
      ensures ok
    {
      ok := true;
    }

    /** `GetJson`, with its loop over the layers. */
    method GetJson(encode: LayerEntry -> Json) returns (j: Json)
      ensures j == ListJson(layers, encode)
    {
      var ls := layers;
      var items: seq<Json> := [];
      for i := 0 to |ls|
        invariant items == LayersJson(ls[..i], encode)
      {
        items := items + [encode(ls[i])];
      }
      assert ls[..|ls|] == ls;
      j := Obj([("layers", Arr(items))]);
    }
  }

  /** Reversing a list with an element in front puts that element at the end. */
  lemma ReversedCons<T>(x: T, s: seq<T>)
    ensures Reversed([x] + s) == Reversed(s) + [x]
  {
    ReversedAt([x] + s);
    ReversedAt(s);
  }

  /** Swapping two layers keeps the same ids in the list, so an existing active id stays existing. */
  lemma SwapKeepsActive(ls: seq<LayerEntry>, i: nat, j: nat, active: int)
    requires i < |ls| && j < |ls|
    ensures ActiveExists(ls, active) ==> ActiveExists(AllegroLayerList.Swap(ls, i, j), active)
  {
    var s := AllegroLayerList.Swap(ls, i, j);
    if active != NoLayer && active >= 0 && FindIndex(ls, active).Some? {
      var k := FindIndex(ls, active).value;
      var k' := if k == i then j else if k == j then i else k;
      assert s[k'].id == active;
    }
  }

  /** With distinct ids, erasing a layer drops its id from the list. */
  lemma EraseDropsId(ls: seq<LayerEntry>, k: nat)
    requires k < |ls| && AllegroLayerList.Distinct(IdsOf(ls))
    ensures FindIndex(AllegroLayerList.EraseAt(ls, k), ls[k].id).None?
  {
    var r := AllegroLayerList.EraseAt(ls, k);
    forall j | 0 <= j < |r|
      ensures r[j].id != ls[k].id
    {
      if j < k {
        assert IdsOf(ls)[j] != IdsOf(ls)[k];
      } else {
        assert IdsOf(ls)[k] != IdsOf(ls)[j + 1];
      }
    }
  }

  /** Erasing one layer keeps every other id in the list. */
  lemma EraseKeepsOthers(ls: seq<LayerEntry>, k: nat)
    requires k < |ls|
    ensures var r := AllegroLayerList.EraseAt(ls, k);
      forall x: nat :: x != ls[k].id && FindIndex(ls, x).Some? ==> FindIndex(r, x).Some?
  {
    var r := AllegroLayerList.EraseAt(ls, k);
    forall x: nat | x != ls[k].id && FindIndex(ls, x).Some?
      ensures FindIndex(r, x).Some?
    {
      var m := FindIndex(ls, x).value;
      var m' := if m < k then m else m - 1;
      assert r[m'].id == x;
    }
  }
}
