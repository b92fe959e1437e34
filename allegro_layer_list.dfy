// The two layer containers of the Allegro edition.
//
// `LayerList` (LayerList.cpp) keeps the layers in creation order in one
// vector and their drawing order, as ids, in another; a layer is known by
// its id, and `-1` (the largest `size_t`) stands for "no layer".
// `LayerArray` (LayerArray.cpp) is the older container: one vector whose
// order is the drawing order, moved by index.
//
// The containers own their vectors and change them in place, so both are
// classes whose fields are the vectors as sequences. Layer ids are counted
// up from 0 without wrap-around.

module AllegroLayerList {
  import opened Wrappers
  import opened TinyString
  import opened TinyList
  import opened JsonValue
  import opened Geometry
  import opened AllegroLayer

  /** `LayerID(-1)`: no layer. */
  const NoLayer: nat := Npos

  /** The ids of the layers, in vector order. */
  function LayerIds(ls: seq<Layer>): (r: seq<nat>)
    ensures |r| == |ls| && forall i :: 0 <= i < |ls| ==> r[i] == ls[i].layerID
  {
    seq(|ls|, i requires 0 <= i < |ls| => ls[i].layerID)
  }

  predicate Distinct(s: seq<nat>)
  {
    forall i, j :: 0 <= i < j < |s| ==> s[i] != s[j]
  }

  /** The first index of `x` in `s`, if any (`-1` in the source when there is none). */
  function IndexIn(s: seq<nat>, x: nat): (r: Option<nat>)
    ensures r.Some? ==> r.value < |s| && s[r.value] == x
    ensures r.Some? ==> forall j :: 0 <= j < r.value ==> s[j] != x
    ensures r.None? <==> x !in s
  {
    if s == [] then None
    else if s[0] == x then Some(0)
    else
      var r := IndexIn(s[1..], x);
      if r.Some? then Some(r.value + 1) else None
  }

  /** The first match found by a scan is what `IndexIn` reports. */
  lemma {:induction false} IndexInIs(s: seq<nat>, x: nat, i: nat)
    requires i < |s| && s[i] == x
    requires forall j :: 0 <= j < i ==> s[j] != x
    ensures IndexIn(s, x) == Some(i)
  {
    if i > 0 {
      IndexInIs(s[1..], x, i - 1);
    }
  }

  /** `std::iter_swap` of two positions. */
  function Swap<T>(s: seq<T>, i: nat, j: nat): (r: seq<T>)
    requires i < |s| && j < |s|
    ensures |r| == |s| && r[i] == s[j] && r[j] == s[i]
    ensures forall k :: 0 <= k < |s| && k != i && k != j ==> r[k] == s[k]
    ensures multiset(r) == multiset(s)
  {
    s[i := s[j]][j := s[i]]
  }

  /** `vector::erase` of one position. */
  function EraseAt<T>(s: seq<T>, i: nat): (r: seq<T>)
    requires i < |s|
    ensures |r| == |s| - 1
    ensures forall k :: 0 <= k < i ==> r[k] == s[k]
    ensures forall k :: i <= k < |r| ==> r[k] == s[k + 1]
  {
    s[..i] + s[i + 1..]
  }

  /** Erasing a position takes exactly that element out of the multiset. */
  lemma EraseAtMultiset<T>(s: seq<T>, i: nat)
    requires i < |s|
    ensures multiset(EraseAt(s, i)) == multiset(s) - multiset{s[i]}
  {
    assert s == s[..i] + [s[i]] + s[i + 1..];
  }

  /** Erasing from distinct ids keeps them distinct and drops just the erased one. */
  lemma EraseAtIds(ls: seq<Layer>, i: nat)
    requires i < |ls| && Distinct(LayerIds(ls))
    ensures LayerIds(EraseAt(ls, i)) == EraseAt(LayerIds(ls), i)
    ensures Distinct(LayerIds(EraseAt(ls, i)))
    ensures forall x :: x in LayerIds(EraseAt(ls, i)) <==> x in LayerIds(ls) && x != ls[i].layerID
  {
    var ids := LayerIds(ls);
    var r := LayerIds(EraseAt(ls, i));
    assert r == EraseAt(ids, i);
    forall a, b | 0 <= a < b < |r|
      ensures r[a] != r[b]
    {
      var a' := if a < i then a else a + 1;
      var b' := if b < i then b else b + 1;
      assert r[a] == ids[a'] && r[b] == ids[b'];
    }
    forall x
      ensures x in r <==> x in ids && x != ls[i].layerID
    {
      if x in r {
        var k :| 0 <= k < |r| && r[k] == x;
        var k' := if k < i then k else k + 1;
        assert ids[k'] == x;
      }
      if x in ids && x != ls[i].layerID {
        var k :| 0 <= k < |ids| && ids[k] == x;
        assert k != i;
        if k < i {
          assert r[k] == x;
        } else {
          assert r[k - 1] == x;
        }
      }
    }
  }

  /** Appending a layer with a new, higher id keeps the ids distinct. */
  lemma AppendFreshId(ls: seq<Layer>, l: Layer)
    requires Distinct(LayerIds(ls))
    requires forall i :: 0 <= i < |ls| ==> ls[i].layerID < l.layerID
    ensures LayerIds(ls + [l]) == LayerIds(ls) + [l.layerID]
    ensures Distinct(LayerIds(ls + [l]))
  {
  }

  // ------------------------------------------------------------- LayerList

  /**
   * Every id is below the counter and used once; the drawing order holds
   * each layer's id exactly once; the selection is no layer or an existing one.
   */
  ghost predicate ListInvariant(layers: seq<Layer>, layerOrder: seq<nat>, selectedLayer: nat, nextLayerID: nat)
  {
    (forall i :: 0 <= i < |layers| ==> layers[i].layerID < nextLayerID) &&
    Distinct(LayerIds(layers)) &&
    multiset(layerOrder) == multiset(LayerIds(layers)) &&
    (selectedLayer == NoLayer || selectedLayer in LayerIds(layers))
  }

  class LayerList {
    var layers: seq<Layer>
    var layerOrder: seq<nat>
    var selectedLayer: nat
    var nextLayerID: nat

    ghost predicate Valid()
      reads this
    {
      ListInvariant(layers, layerOrder, selectedLayer, nextLayerID)
    }

    /** The drawing order holds no id twice. */
    lemma OrderDistinct()
      requires Valid()
      ensures Distinct(layerOrder) && |layerOrder| == |layers|
      ensures forall x :: x in layerOrder <==> x in LayerIds(layers)
    {
      assert |layerOrder| == |multiset(layerOrder)| == |LayerIds(layers)|;
      forall x
        ensures x in layerOrder <==> x in LayerIds(layers)
      {
        assert x in layerOrder <==> x in multiset(layerOrder);
        assert x in LayerIds(layers) <==> x in multiset(LayerIds(layers));
      }
      forall a, b | 0 <= a < b < |layerOrder|
        ensures layerOrder[a] != layerOrder[b]
      {
        if layerOrder[a] == layerOrder[b] {
          var x := layerOrder[a];
          assert layerOrder == layerOrder[..b] + [x] + layerOrder[b + 1..];
          assert x in layerOrder[..b];
          assert multiset(layerOrder)[x] >= 2;
          DistinctCount(LayerIds(layers), x);
          assert false;
        }
      }
    }

    constructor ()
      ensures Valid()
      ensures layers == [] && layerOrder == [] && selectedLayer == NoLayer && nextLayerID == 0
    {
      layers := [];
      layerOrder := [];
      selectedLayer := NoLayer;
      nextLayerID := 0;
    }

    /**
     * `clear`, which LayerList.h declares without a definition: taken to
     * empty both vectors and the selection, as the other edition's
     * `LayerList::Clear` does; the id counter is kept.
     */
    method Clear()
      requires Valid()
      modifies this
      ensures Valid()
      ensures layers == [] && layerOrder == [] && selectedLayer == NoLayer && nextLayerID == old(nextLayerID)
    {
      layers, layerOrder, selectedLayer := [], [], NoLayer;
    }

    /** Copy assignment from another list's state (`layers = tempLayers`). */
    method Assign(ls: seq<Layer>, order: seq<nat>, selected: nat, next: nat)
      requires ListInvariant(ls, order, selected, next)
      modifies this
      ensures Valid()
      ensures layers == ls && layerOrder == order && selectedLayer == selected && nextLayerID == next
    {
      layers, layerOrder, selectedLayer, nextLayerID := ls, order, selected, next;
    }

    /** `Layer::addShape` on the layer at `index`, reached through a pointer into the vector. */
    method AddShapeAt(index: nat, kind: ShapeType, p1: Vec2, p2: Vec2, thickness: real)
      requires Valid() && index < |layers|
      modifies this
      ensures Valid()
      ensures layers == old(layers)[index := AddShape(old(layers)[index], kind, p1, p2, thickness)]
      ensures layerOrder == old(layerOrder) && selectedLayer == old(selectedLayer) && nextLayerID == old(nextLayerID)
    {
      var l := AddShape(layers[index], kind, p1, p2, thickness);
      assert LayerIds(layers[index := l]) == LayerIds(layers);
      layers := layers[index := l];
    }

    /** `Layer::removeShape` on the layer at `index`, reached through a pointer into the vector. */
    method RemoveShapeAt(index: nat, id: nat) returns (removed: bool)
      requires Valid() && index < |layers|
      modifies this
      ensures Valid()
      ensures removed <==> IndexOfShape(old(layers)[index].shapes, id).Some?
      ensures removed ==>
        var i := IndexOfShape(old(layers)[index].shapes, id).value;
        layers == old(layers)[index := old(layers)[index].(shapes := old(layers)[index].shapes[..i] + old(layers)[index].shapes[i + 1..])]
      ensures !removed ==> layers == old(layers)
      ensures IdsFresh(old(layers)[index]) ==> IdsFresh(layers[index]) && IndexOfShape(layers[index].shapes, id).None?
      ensures layerOrder == old(layerOrder) && selectedLayer == old(selectedLayer) && nextLayerID == old(nextLayerID)
    {
      var l;
      removed, l := RemoveShape(layers[index], id);
      assert LayerIds(layers[index := l]) == LayerIds(layers);
      layers := layers[index := l];
    }

    /** `layerExists`: false for `-1`, otherwise whether some layer has the id. */
    method LayerExists(id: nat) returns (r: bool)
      ensures r <==> id != NoLayer && id in LayerIds(layers)
    {
      if id == NoLayer {
        return false;
      }
      for i := 0 to |layers|
        invariant forall j :: 0 <= j < i ==> layers[j].layerID != id
      {
        if layers[i].layerID == id {
          assert LayerIds(layers)[i] == id;
          return true;
        }
      }
      return false;
    }

    /** `selectLayer`: selects an existing layer; otherwise reports false and changes nothing. */
    method SelectLayer(id: nat) returns (ok: bool)
      modifies this
      ensures ok <==> id != NoLayer && id in LayerIds(layers)
      ensures selectedLayer == (if ok then id else old(selectedLayer))
      ensures layers == old(layers) && layerOrder == old(layerOrder) && nextLayerID == old(nextLayerID)
      ensures old(Valid()) ==> Valid()
    {
      ok := LayerExists(id);
      if ok {
        selectedLayer := id;
      }
    }

    /**
     * `addLayerFront`: the new layer gets the next id, goes to the end of
     * the vector and to the front of the drawing order, and is selected.
     */
    method AddLayerFront(name: string)
      requires Valid()
      modifies this
      ensures Valid()
      ensures layers == old(layers) + [NewLayer(name, old(nextLayerID))]
      ensures layerOrder == [old(nextLayerID)] + old(layerOrder)
      ensures selectedLayer == (if old(nextLayerID) != NoLayer then old(nextLayerID) else old(selectedLayer))
      ensures nextLayerID == old(nextLayerID) + 1
    {
      AppendFreshId(layers, NewLayer(name, nextLayerID));
      layers := layers + [NewLayer(name, nextLayerID)];
      layerOrder := [nextLayerID] + layerOrder;
      var _ := SelectLayer(nextLayerID);
      nextLayerID := nextLayerID + 1;
    }

    /** `addLayerBack`: as `addLayerFront`, but the id goes to the back of the drawing order. */
    method AddLayerBack(name: string)
      requires Valid()
      modifies this
      ensures Valid()
      ensures layers == old(layers) + [NewLayer(name, old(nextLayerID))]
      ensures layerOrder == old(layerOrder) + [old(nextLayerID)]
      ensures selectedLayer == (if old(nextLayerID) != NoLayer then old(nextLayerID) else old(selectedLayer))
      ensures nextLayerID == old(nextLayerID) + 1
    {
      AppendFreshId(layers, NewLayer(name, nextLayerID));
      layers := layers + [NewLayer(name, nextLayerID)];
      layerOrder := layerOrder + [nextLayerID];
      var _ := SelectLayer(nextLayerID);
      nextLayerID := nextLayerID + 1;
    }

    /** `__findLayerOrderIndex`: where the id stands in the drawing order. */
    method FindLayerOrderIndex(id: nat) returns (r: Option<nat>)
      ensures r == IndexIn(layerOrder, id)
    {
      for i := 0 to |layerOrder|
        invariant forall j :: 0 <= j < i ==> layerOrder[j] != id
      {
        if layerOrder[i] == id {
          IndexInIs(layerOrder, id, i);
          return Some(i);
        }
      }
      return None;
    }

    /** `__findLayerArrayIndex` and `findLayer`: where the layer with the id stands in the vector. */
    method FindLayer(id: nat) returns (r: Option<nat>)
      ensures r == IndexIn(LayerIds(layers), id)
      ensures r.Some? ==> r.value < |layers| && layers[r.value].layerID == id
    {
      for i := 0 to |layers|
        invariant forall j :: 0 <= j < i ==> layers[j].layerID != id
      {
        if layers[i].layerID == id {
          IndexInIs(LayerIds(layers), id, i);
          return Some(i);
        }
      }
      return None;
    }

    /** `getSelectedLayer`: the selected layer, none when nothing is selected. */
    method GetSelectedLayer() returns (r: Option<nat>)
      requires Valid()
      ensures r.Some? <==> selectedLayer != NoLayer || NoLayer in LayerIds(layers)
      ensures r.Some? ==> r.value < |layers| && layers[r.value].layerID == selectedLayer
      ensures r == IndexIn(LayerIds(layers), selectedLayer)
    {
      r := FindLayer(selectedLayer);
    }

    /**
     * `moveLayerFront`: swaps the layer with its neighbour nearer the front
     * of the drawing order; false when it is unknown or already in front.
     */
    method MoveLayerFront(id: nat) returns (ok: bool)
      requires Valid()
      modifies this
      ensures Valid()
      ensures var k := IndexIn(old(layerOrder), id);
        ok <==> k.Some? && k.value >= 1
      ensures ok ==> var k := IndexIn(old(layerOrder), id).value;
        layerOrder == Swap(old(layerOrder), k, k - 1)
      ensures !ok ==> layerOrder == old(layerOrder)
      ensures layers == old(layers) && selectedLayer == old(selectedLayer) && nextLayerID == old(nextLayerID)
    {
      var orderIndex := FindLayerOrderIndex(id);
      if orderIndex.None? || orderIndex.value < 1 {
        return false;
      }
      layerOrder := Swap(layerOrder, orderIndex.value, orderIndex.value - 1);
      return true;
    }

    /**
     * `moveLayerBack`: swaps the layer with its neighbour nearer the back;
     * false when it is unknown or already at the back.
     */
    method MoveLayerBack(id: nat) returns (ok: bool)
      requires Valid()
      modifies this
      ensures Valid()
      ensures var k := IndexIn(old(layerOrder), id);
        ok <==> k.Some? && k.value + 1 < |old(layerOrder)|
      ensures ok ==> var k := IndexIn(old(layerOrder), id).value;
        layerOrder == Swap(old(layerOrder), k, k + 1)
      ensures !ok ==> layerOrder == old(layerOrder)
      ensures layers == old(layers) && selectedLayer == old(selectedLayer) && nextLayerID == old(nextLayerID)
    {
      var orderIndex := FindLayerOrderIndex(id);
      // `orderIndex >= size - 1`: the order holds the id here, so it is not empty
      if orderIndex.None? || orderIndex.value >= |layerOrder| - 1 {
        return false;
      }
      layerOrder := Swap(layerOrder, orderIndex.value, orderIndex.value + 1);
      return true;
    }

    /**
     * `deleteLayer`: takes the layer out of the vector and the drawing
     * order; a deleted selection becomes no selection. False, with nothing
     * changed, for an unknown id.
     */
    method DeleteLayer(id: nat) returns (ok: bool)
      requires Valid()
      modifies this
      ensures Valid()
      ensures ok <==> id in LayerIds(old(layers))
      ensures ok ==> layers == EraseAt(old(layers), IndexIn(LayerIds(old(layers)), id).value)
      ensures ok ==> id in old(layerOrder) && layerOrder == EraseAt(old(layerOrder), IndexIn(old(layerOrder), id).value)
      ensures ok ==> id !in LayerIds(layers) && id !in layerOrder
      ensures ok ==> selectedLayer == (if old(selectedLayer) == id then NoLayer else old(selectedLayer))
      ensures !ok ==> layers == old(layers) && layerOrder == old(layerOrder) && selectedLayer == old(selectedLayer)
      ensures nextLayerID == old(nextLayerID)
    {
      OrderDistinct();
      var arrayIndex := FindLayer(id);
      var orderIndex := FindLayerOrderIndex(id);
      if arrayIndex.None? || orderIndex.None? {
        return false;
      }
      var a, o := arrayIndex.value, orderIndex.value;
      EraseKeepsInvariant(layers, layerOrder, selectedLayer, nextLayerID, a, o);
      layers := EraseAt(layers, a);
      layerOrder := EraseAt(layerOrder, o);
      if selectedLayer == id {
        selectedLayer := NoLayer;
      }
      return true;
    }

    /** `getSortedLayerIDs`: the ids in drawing order, front first. */
    method GetSortedLayerIDs() returns (sorted: seq<nat>)
      requires Valid()
      ensures sorted == layerOrder
      ensures Distinct(sorted) && forall x :: x in sorted <==> x in LayerIds(layers)
    {
      OrderDistinct();
      sorted := [];
      for i := 0 to |layerOrder|
        invariant sorted == layerOrder[..i]
      {
        sorted := sorted + [layerOrder[i]];
      }
    }

    /** `getSortedLayerIDsReverse`: the ids in drawing order, back first. */
    method GetSortedLayerIDsReverse() returns (sorted: seq<nat>)
      ensures sorted == Reversed(layerOrder)
      ensures |sorted| == |layerOrder| && forall k :: 0 <= k < |sorted| ==> sorted[k] == layerOrder[|layerOrder| - 1 - k]
    {
      sorted := [];
      for i := 0 to |layerOrder|
        invariant sorted == Reversed(layerOrder[..i])
      {
        assert layerOrder[..i + 1][..i] == layerOrder[..i];
        sorted := [layerOrder[i]] + sorted;
      }
      assert layerOrder[..|layerOrder|] == layerOrder;
      ReversedAt(layerOrder);
    }

    /** `getJson`, with its two loops. */
    method GetJson(encode: Shape -> Json) returns (j: Json)
      ensures j == ListJson(layers, layerOrder, nextLayerID, encode)
    {
      var jsonLayers: seq<Json> := [];
      for i := 0 to |layers|
        invariant jsonLayers == LayersJson(layers[..i], encode)
      {
        assert layers[..i + 1][..i] == layers[..i];
        var lj := AllegroLayer.GetJson(layers[i], encode);
        jsonLayers := jsonLayers + [lj];
      }
      assert layers[..|layers|] == layers;
      var jsonOrder: seq<Json> := [];
      for i := 0 to |layerOrder|
        invariant jsonOrder == NumsJson(layerOrder[..i])
      {
        assert layerOrder[..i + 1][..i] == layerOrder[..i];
        jsonOrder := jsonOrder + [Num(layerOrder[i])];
      }
      assert layerOrder[..|layerOrder|] == layerOrder;
      j := Obj([("layers", Arr(jsonLayers)), ("layer_order", Arr(jsonOrder)), ("next_id", Num(nextLayerID))]);
    }
  }

  /** Erasing one layer from both vectors, and the selection if it was that layer, keeps the invariant. */
  lemma EraseKeepsInvariant(ls: seq<Layer>, order: seq<nat>, sel: nat, next: nat, a: nat, o: nat)
    requires ListInvariant(ls, order, sel, next) && Distinct(order)
    requires a < |ls| && o < |order| && order[o] == ls[a].layerID
    ensures var id := ls[a].layerID;
      ListInvariant(EraseAt(ls, a), EraseAt(order, o), if sel == id then NoLayer else sel, next)
    ensures ls[a].layerID !in LayerIds(EraseAt(ls, a)) && order[o] !in EraseAt(order, o)
  {
    EraseAtIds(ls, a);
    EraseAtMultiset(LayerIds(ls), a);
    EraseAtMultiset(order, o);
    ErasedGone(order, o);
    var r := EraseAt(ls, a);
    forall i | 0 <= i < |r|
      ensures r[i].layerID < next
    {
      if i < a {
        assert r[i] == ls[i];
      } else {
        assert r[i] == ls[i + 1];
      }
    }
  }

  /** A value held twice is counted twice. */
  lemma {:induction false} DistinctCount(s: seq<nat>, x: nat)
    requires Distinct(s)
    ensures multiset(s)[x] <= 1
  {
    if s != [] {
      assert Distinct(s[1..]) by {
        forall a, b | 0 <= a < b < |s[1..]|
          ensures s[1..][a] != s[1..][b]
        {
          assert s[1..][a] == s[a + 1] && s[1..][b] == s[b + 1];
        }
      }
      DistinctCount(s[1..], x);
      assert s == [s[0]] + s[1..];
      if s[0] == x {
        assert x !in s[1..];
      }
    }
  }

  /** Erasing the one place a distinct sequence holds `s[i]` leaves it out. */
  lemma ErasedGone(s: seq<nat>, i: nat)
    requires i < |s| && Distinct(s)
    ensures s[i] !in EraseAt(s, i)
  {
    var r := EraseAt(s, i);
    forall k | 0 <= k < |r|
      ensures r[k] != s[i]
    {
      if k < i {
        assert r[k] == s[k];
      } else {
        assert r[k] == s[k + 1];
      }
    }
  }

  // ------------------------------------------------------------------ JSON

  /** The layers written one after the other. */
  function LayersJson(ls: seq<Layer>, encode: Shape -> Json): (r: seq<Json>)
    ensures |r| == |ls|
  {
    if ls == [] then [] else LayersJson(ls[..|ls| - 1], encode) + [LayerJson(ls[|ls| - 1], encode)]
  }

  /** The ids written one after the other. */
  function NumsJson(ids: seq<nat>): (r: seq<Json>)
    ensures |r| == |ids|
  {
    if ids == [] then [] else NumsJson(ids[..|ids| - 1]) + [Num(ids[|ids| - 1])]
  }

  /** `LayerList::getJson`: the keys "layers", "layer_order" and "next_id". */
  function ListJson(ls: seq<Layer>, order: seq<nat>, next: nat, encode: Shape -> Json): Json
  {
    Obj([("layers", Arr(LayersJson(ls, encode))), ("layer_order", Arr(NumsJson(order))), ("next_id", Num(next))])
  }

  /** The layers read from a list of JSON values: none if any one fails. */
  function LayersOf(elems: seq<Json>, decode: Json -> Option<Shape>): Option<seq<Layer>>
  {
    if elems == [] then Some([])
    else
      var rest := LayersOf(elems[..|elems| - 1], decode);
      var last := LayerOfJson(elems[|elems| - 1], decode);
      if rest.Some? && last.Some? then Some(rest.value + [last.value]) else None
  }

  /** The ids read from a list of JSON values: none if any one is not an unsigned number. */
  function NumsOf(elems: seq<Json>): Option<seq<nat>>
  {
    if elems == [] then Some([])
    else
      var rest := NumsOf(elems[..|elems| - 1]);
      var last := AsNat(Some(elems[|elems| - 1]));
      if rest.Some? && last.Some? then Some(rest.value + [last.value]) else None
  }

  /**
   * The reading of a saved layer list: the layers, the drawing order and
   * the id counter. (`loadJson` is declared in LayerList.h but has no
   * definition; this is the reading that recovers what `getJson` wrote.)
   */
  function ListOfJson(j: Json, decode: Json -> Option<Shape>): Option<(seq<Layer>, seq<nat>, nat)>
  {
    var ls := Field(j, "layers");
    var order := Field(j, "layer_order");
    var next := AsNat(Field(j, "next_id"));
    var lsv := if ls.Some? && ls.value.Arr? then LayersOf(ls.value.items, decode) else None;
    var orderv := if order.Some? && order.value.Arr? then NumsOf(order.value.items) else None;
    if lsv.Some? && orderv.Some? && next.Some? then Some((lsv.value, orderv.value, next.value)) else None
  }

  lemma {:induction false} LayersRoundTrip(ls: seq<Layer>, encode: Shape -> Json, decode: Json -> Option<Shape>)
    requires forall s :: decode(encode(s)) == Some(s)
    ensures LayersOf(LayersJson(ls, encode), decode) == Some(ls)
  {
    if ls != [] {
      var init, last := ls[..|ls| - 1], ls[|ls| - 1];
      LayersRoundTrip(init, encode, decode);
      JsonRoundTrip(last, encode, decode);
      LayersOfSnoc(LayersJson(init, encode), LayerJson(last, encode), decode, init, last);
      assert LayersJson(ls, encode) == LayersJson(init, encode) + [LayerJson(last, encode)];
      SplitLast(ls);
    }
  }

  lemma SplitLast<T>(s: seq<T>)
    requires s != []
    ensures s[..|s| - 1] + [s[|s| - 1]] == s
  {
  }

  /** Reading one more layer. */
  lemma LayersOfSnoc(elems: seq<Json>, j: Json, decode: Json -> Option<Shape>, init: seq<Layer>, last: Layer)
    requires LayersOf(elems, decode) == Some(init) && LayerOfJson(j, decode) == Some(last)
    ensures LayersOf(elems + [j], decode) == Some(init + [last])
  {
    assert (elems + [j])[..|elems|] == elems;
  }

  lemma {:induction false} NumsRoundTrip(ids: seq<nat>)
    ensures NumsOf(NumsJson(ids)) == Some(ids)
  {
    if ids != [] {
      var init := ids[..|ids| - 1];
      NumsRoundTrip(init);
      var e := NumsJson(ids);
      assert e[..|e| - 1] == NumsJson(init);
      assert ids == init + [ids[|ids| - 1]];
    }
  }

  /** Each key of `LayerList::getJson` is found with the value written under it. */
  lemma ListJsonFields(ls: seq<Layer>, order: seq<nat>, next: nat, encode: Shape -> Json)
    ensures Field(ListJson(ls, order, next, encode), "layers") == Some(Arr(LayersJson(ls, encode)))
    ensures Field(ListJson(ls, order, next, encode), "layer_order") == Some(Arr(NumsJson(order)))
    ensures Field(ListJson(ls, order, next, encode), "next_id") == Some(Num(next))
  {
    var f0 := ("layers", Arr(LayersJson(ls, encode)));
    var f1 := ("layer_order", Arr(NumsJson(order)));
    var f2 := ("next_id", Num(next));
    assert ListJson(ls, order, next, encode) == Obj([f0] + [f1, f2]);
    assert [f1, f2] == [f1] + [f2];
    FieldOfFirst("layers", f0.1, [f1, f2]);
    FieldSkips("layer_order", f0, [f1, f2]);
    FieldOfFirst("layer_order", f1.1, [f2]);
    FieldSkips("next_id", f0, [f1, f2]);
    FieldSkips("next_id", f1, [f2]);
    FieldOfFirst("next_id", f2.1, []);
  }

  /** Nothing `getJson` writes is lost: reading it back gives the layers, the order and the counter. */
  lemma ListJsonRoundTrip(ls: seq<Layer>, order: seq<nat>, next: nat, encode: Shape -> Json, decode: Json -> Option<Shape>)
    requires forall s :: decode(encode(s)) == Some(s)
    ensures ListOfJson(ListJson(ls, order, next, encode), decode) == Some((ls, order, next))
  {
    ListJsonFields(ls, order, next, encode);
    LayersRoundTrip(ls, encode, decode);
    NumsRoundTrip(order);
    ListOfFields(ListJson(ls, order, next, encode), decode, LayersJson(ls, encode), NumsJson(order), next);
  }

  /** `ListOfJson` reads the three fields and nothing else. */
  lemma ListOfFields(j: Json, decode: Json -> Option<Shape>, layers: seq<Json>, order: seq<Json>, next: nat)
    requires Field(j, "layers") == Some(Arr(layers))
    requires Field(j, "layer_order") == Some(Arr(order))
    requires Field(j, "next_id") == Some(Num(next))
    ensures ListOfJson(j, decode) ==
      if LayersOf(layers, decode).Some? && NumsOf(order).Some?
      then Some((LayersOf(layers, decode).value, NumsOf(order).value, next))
      else None
  {
    assert AsNat(Field(j, "next_id")) == Some(next);
  }

  // ------------------------------------------------------------ LayerArray

  /** `index < layers.size() - 1` as written: the subtraction wraps on an empty vector. */
  function MoveBackGuardAsWritten(index: nat, size: nat): bool
    requires size < SizeLimit
  {
    index < (size - 1) % SizeLimit
  }

  /** On an empty vector the guard lets index 0 through, and the swap reaches past the end. */
  lemma MoveBackGuardEmpty()
    ensures MoveBackGuardAsWritten(0, 0) && !(0 + 1 < 0)
  {
  }

  /** Once there is a layer, the guard as written and the corrected one agree. */
  lemma MoveBackGuardAgrees(index: nat, size: nat)
    requires 1 <= size < SizeLimit
    ensures MoveBackGuardAsWritten(index, size) <==> index + 1 < size
  {
  }

  class LayerArray {
    var layers: seq<Layer>
    var selectedLayer: nat
    var nextLayerID: nat

    /** Ids are below the counter and used once; the selection is no layer or an existing one. */
    ghost predicate Valid()
      reads this
    {
      (forall i :: 0 <= i < |layers| ==> layers[i].layerID < nextLayerID) &&
      Distinct(LayerIds(layers)) &&
      (selectedLayer == NoLayer || selectedLayer in LayerIds(layers))
    }

    constructor ()
      ensures Valid()
      ensures layers == [] && selectedLayer == NoLayer && nextLayerID == 0
    {
      layers := [];
      selectedLayer := NoLayer;
      nextLayerID := 0;
    }

    /** `addLayerFront`: the new layer goes to the front; it is selected only if nothing was. */
    method AddLayerFront(name: string)
      requires Valid()
      modifies this
      ensures Valid()
      ensures layers == [NewLayer(name, old(nextLayerID))] + old(layers)
      ensures selectedLayer == (if old(selectedLayer) == NoLayer then old(nextLayerID) else old(selectedLayer))
      ensures nextLayerID == old(nextLayerID) + 1
    {
      var l := NewLayer(name, nextLayerID);
      assert LayerIds([l] + layers) == [l.layerID] + LayerIds(layers);
      layers := [l] + layers;
      if selectedLayer == NoLayer {
        selectedLayer := nextLayerID;
      }
      nextLayerID := nextLayerID + 1;
    }

    /** `addLayerBack`: the new layer goes to the back; it is selected only if nothing was. */
    method AddLayerBack(name: string)
      requires Valid()
      modifies this
      ensures Valid()
      ensures layers == old(layers) + [NewLayer(name, old(nextLayerID))]
      ensures selectedLayer == (if old(selectedLayer) == NoLayer then old(nextLayerID) else old(selectedLayer))
      ensures nextLayerID == old(nextLayerID) + 1
    {
      AppendFreshId(layers, NewLayer(name, nextLayerID));
      layers := layers + [NewLayer(name, nextLayerID)];
      if selectedLayer == NoLayer {
        selectedLayer := nextLayerID;
      }
      nextLayerID := nextLayerID + 1;
    }

    /** `moveLayerFront`: swaps the layer at `index` with the one before it, when there is one. */
    method MoveLayerFront(index: nat) returns (ok: bool)
      requires Valid()
      modifies this
      ensures Valid()
      ensures ok <==> 0 < index < |old(layers)|
      ensures layers == if ok then Swap(old(layers), index, index - 1) else old(layers)
      ensures selectedLayer == old(selectedLayer) && nextLayerID == old(nextLayerID)
    {
      if index > 0 && index < |layers| {
        SwapKeepsIds(layers, index, index - 1, nextLayerID);
        layers := Swap(layers, index, index - 1);
        return true;
      }
      return false;
    }

    /**
     * `moveLayerBack`, with the guard corrected to `index + 1 < size`:
     * swaps the layer at `index` with the one after it, when there is one.
     */
    method MoveLayerBack(index: nat) returns (ok: bool)
      requires Valid()
      modifies this
      ensures Valid()
      ensures ok <==> index + 1 < |old(layers)|
      ensures layers == if ok then Swap(old(layers), index, index + 1) else old(layers)
      ensures selectedLayer == old(selectedLayer) && nextLayerID == old(nextLayerID)
    {
      if index + 1 < |layers| {
        SwapKeepsIds(layers, index, index + 1, nextLayerID);
        layers := Swap(layers, index, index + 1);
        return true;
      }
      return false;
    }

    /** `findLayer`: the layer with the id; none where the source throws `logic_error`. */
    method FindLayer(id: nat) returns (r: Option<nat>)
      ensures r == IndexIn(LayerIds(layers), id)
      ensures r.Some? ==> r.value < |layers| && layers[r.value].layerID == id
    {
      for i := 0 to |layers|
        invariant forall j :: 0 <= j < i ==> layers[j].layerID != id
      {
        if layers[i].layerID == id {
          IndexInIs(LayerIds(layers), id, i);
          return Some(i);
        }
      }
      return None;
    }
  }

  /** Swapping two layers keeps every id below the counter, distinct, and present. */
  lemma SwapKeepsIds(ls: seq<Layer>, i: nat, j: nat, next: nat)
    requires i < |ls| && j < |ls|
    requires forall k :: 0 <= k < |ls| ==> ls[k].layerID < next
    ensures forall k :: 0 <= k < |ls| ==> Swap(ls, i, j)[k].layerID < next
    ensures Distinct(LayerIds(ls)) ==> Distinct(LayerIds(Swap(ls, i, j)))
    ensures forall x :: x in LayerIds(Swap(ls, i, j)) <==> x in LayerIds(ls)
  {
    SwapIds(ls, i, j);
    forall k | 0 <= k < |ls|
      ensures Swap(ls, i, j)[k].layerID < next
    {
      assert Swap(ls, i, j)[k] == ls[if k == i then j else if k == j then i else k];
    }
  }

  /** Swapping two layers swaps their ids, so the ids stay distinct and keep their members. */
  lemma SwapIds(ls: seq<Layer>, i: nat, j: nat)
    requires i < |ls| && j < |ls|
    ensures LayerIds(Swap(ls, i, j)) == Swap(LayerIds(ls), i, j)
    ensures Distinct(LayerIds(ls)) ==> Distinct(LayerIds(Swap(ls, i, j)))
    ensures forall x :: x in LayerIds(Swap(ls, i, j)) <==> x in LayerIds(ls)
  {
    var ids := LayerIds(ls);
    var r := LayerIds(Swap(ls, i, j));
    assert r == Swap(ids, i, j);
    assert multiset(r) == multiset(ids);
    forall x
      ensures x in r <==> x in ids
    {
      assert x in r <==> x in multiset(r);
      assert x in ids <==> x in multiset(ids);
    }
    if Distinct(ids) {
      forall a, b | 0 <= a < b < |r|
        ensures r[a] != r[b]
      {
        var a' := if a == i then j else if a == j then i else a;
        var b' := if b == i then j else if b == j then i else b;
        assert r[a] == ids[a'] && r[b] == ids[b'];
      }
    }
  }
}
