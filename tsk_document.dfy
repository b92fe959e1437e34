// The document of the newest edition (include/TskDocument.hpp,
// src/TskDocument.cpp): a vector of layers, back to front, the index of
// the active layer and an unsaved-changes flag. A layer is known by a
// random UUID; drawing the document and the file dialogs are not
// modelled, and the UUID of a new layer is passed in.

module TskDocumentModel {
  import opened Wrappers
  import opened Decimal
  import opened LayerNames
  import AllegroLayerList

  /** `LayerID`: a UUID string. */
  datatype LayerID = LayerID(uuid: string)

  /** `LayerID::operator==`: equal exactly when the UUID strings are. */
  function SameLayer(a: LayerID, b: LayerID): (r: bool)
    ensures r <==> a.uuid == b.uuid
    ensures r <==> a == b
  {
    a.uuid == b.uuid
  }

  /** `TskDocument::Layer`: its id, its name and its own unsaved flag. */
  datatype DocLayer = DocLayer(id: LayerID, name: string, unsaved: bool)

  /** The prefix of generated names: "Layer 1", "Layer 2", ... */
  const NamePrefix: string := "Layer "

  function DocNames(ls: seq<DocLayer>): (r: seq<string>)
    ensures |r| == |ls| && forall i :: 0 <= i < |ls| ==> r[i] == ls[i].name
  {
    seq(|ls|, i requires 0 <= i < |ls| => ls[i].name)
  }

  /**
   * `getLayerIndex`: the index of the first layer with the id, or the
   * number of layers when there is none (the distance to `end()`).
   */
  function LayerIndex(ls: seq<DocLayer>, id: LayerID): (r: nat)
    ensures r <= |ls|
    ensures r < |ls| ==> ls[r].id == id
    ensures forall j :: 0 <= j < r ==> ls[j].id != id
  {
    if ls == [] then 0
    else if SameLayer(ls[0].id, id) then 0
    else 1 + LayerIndex(ls[1..], id)
  }

  /** The index is past the end exactly when no layer has the id. */
  lemma LayerIndexPastEnd(ls: seq<DocLayer>, id: LayerID)
    ensures LayerIndex(ls, id) == |ls| <==> forall j :: 0 <= j < |ls| ==> ls[j].id != id
  {
  }

  /** Whether some layer is marked unsaved (`std::ranges::any_of`). */
  function AnyUnsaved(ls: seq<DocLayer>): (r: bool)
    ensures r <==> exists i :: 0 <= i < |ls| && ls[i].unsaved
  {
    if ls == [] then false
    else ls[0].unsaved || (assert forall i :: 1 <= i < |ls| ==> ls[i] == ls[1..][i - 1]; AnyUnsaved(ls[1..]))
  }

  /** `std::clamp(i, 0, size - 1)` for a non-empty vector. */
  function Clamp(i: nat, size: nat): (r: nat)
    requires size >= 1
    ensures r < size && (i < size ==> r == i) && (i >= size ==> r == size - 1)
  {
    if i < size then i else size - 1
  }

  /**
   * The index `moveLayerBack` as written swaps with: one below the index of
   * the id, when that is not negative.
   */
  function MoveBackOtherAsWritten(ls: seq<DocLayer>, id: LayerID): (r: Option<(nat, nat)>)
  {
    var i := LayerIndex(ls, id);
    if i - 1 >= 0 then Some((i, i - 1)) else None
  }

  /**
   * For an id no layer has, the index is the vector's size, and
   * `moveLayerBack` as written swaps an element past the end with the
   * last one (`removeLayer` likewise erases at the size).
   */
  lemma MoveBackUnknownAsWritten(ls: seq<DocLayer>, id: LayerID)
    requires ls != [] && forall j :: 0 <= j < |ls| ==> ls[j].id != id
    ensures MoveBackOtherAsWritten(ls, id) == Some((|ls|, |ls| - 1))
  {
    LayerIndexPastEnd(ls, id);
  }

  /**
   * For an id no layer has, `removeLayer(id)` as written passes the
   * vector's size on to `removeLayer(index)`, which erases at that index:
   * past the last element, where erasing is undefined.
   */
  lemma RemoveUnknownAsWritten(ls: seq<DocLayer>, id: LayerID)
    requires forall j :: 0 <= j < |ls| ==> ls[j].id != id
    ensures LayerIndex(ls, id) == |ls|
  {
    LayerIndexPastEnd(ls, id);
  }

  class TskDocument {
    var layers: seq<DocLayer>
    var activeIndex: nat
    var unsaved: bool

    /** The guarantee in the class comment: at least one layer, and the active index is one of them. */
    predicate Valid()
      reads this
    {
      |layers| >= 1 && activeIndex < |layers|
    }

    /**
     * `TskDocument() = default` as written: no layers at all, so the
     * active index names none and the class guarantee does not hold.
     */
    constructor ()
      ensures layers == [] && activeIndex == 0 && !unsaved
      ensures !Valid()
    {
      layers := [];
      activeIndex := 0;
      unsaved := false;
    }

    /**
     * The constructor the class comment asks for: the layer `addLayer()`
     * would add, so the document starts with "Layer 1" active and has no
     * unsaved changes yet.
     */
    constructor WithFirstLayer(newId: LayerID)
      ensures layers == [DocLayer(newId, NamePrefix + "1", false)] && activeIndex == 0 && !unsaved
      ensures Valid()
    {
      layers := [];
      activeIndex := 0;
      unsaved := false;
      new;
      AddLayer("", newId);
      assert DocNames([]) == [];
      ghost var k :| FirstFree(NamePrefix, [], k) && layers == [DocLayer(newId, Numbered(NamePrefix, k), false)];
      FirstFreeOfNone(k);
      unsaved := false;
    }

    /** `layerExists`: whether some layer has the name. */
    function LayerExists(name: string): (r: bool)
      reads this
      ensures r <==> name in DocNames(layers)
    {
      exists i :: 0 <= i < |layers| && layers[i].name == name
    }

    /** `containsUnsavedChanges`: the document's own flag or any layer's. */
    function ContainsUnsavedChanges(): (r: bool)
      reads this
      ensures r <==> unsaved || exists i :: 0 <= i < |layers| && layers[i].unsaved
    {
      unsaved || AnyUnsaved(layers)
    }

    /**
     * `addLayer`: an empty name is replaced by "Layer k" for the smallest
     * k from 1 whose name is unused; the layer is appended, the active
     * index clamped into range and the document marked unsaved.
     */
    method AddLayer(layerName: string, newId: LayerID)
      modifies this
      ensures layerName != [] ==> layers == old(layers) + [DocLayer(newId, layerName, false)]
      ensures layerName == [] ==> exists k :: (FirstFree(NamePrefix, DocNames(old(layers)), k) &&
                                               layers == old(layers) + [DocLayer(newId, Numbered(NamePrefix, k), false)])
      ensures activeIndex == Clamp(old(activeIndex), |layers|) && unsaved
      ensures Valid()
    {
      var name := layerName;
      if name == [] {
        var names := DocNames(layers);
        var k: nat := 1;
        name := NamePrefix + NatToString(k);
        k := k + 1;
        while LayerExists(name)
          invariant k >= 2 && name == Numbered(NamePrefix, k - 1)
          invariant forall j :: 1 <= j < k - 1 ==> Numbered(NamePrefix, j) in names
          invariant names == DocNames(layers) && layers == old(layers) && activeIndex == old(activeIndex)
          decreases CountFrom(NamePrefix, names, k - 1)
        {
          CountFromDrops(NamePrefix, names, k - 1);
          name := NamePrefix + NatToString(k);
          k := k + 1;
        }
        assert FirstFree(NamePrefix, names, k - 1);
      }
      layers := layers + [DocLayer(newId, name, false)];
      activeIndex := Clamp(activeIndex, |layers|);
      unsaved := true;
    }

    /**
     * `removeLayer(index)`: erases the layer, adds "Layer 1" if none is
     * left, clamps the active index and marks the document unsaved. The
     * index must name a layer, as erasing from a vector demands.
     */
    method RemoveLayerAt(index: nat, newId: LayerID)
      modifies this
      requires index < |layers|
      ensures |old(layers)| >= 2 ==> layers == AllegroLayerList.EraseAt(old(layers), index)
      ensures |old(layers)| == 1 ==> layers == [DocLayer(newId, NamePrefix + "1", false)]
      ensures activeIndex == Clamp(old(activeIndex), |layers|) && unsaved
      ensures Valid()
    {
      layers := AllegroLayerList.EraseAt(layers, index);
      if layers == [] {
        AddLayer("", newId);
        assert DocNames([]) == [];
        ghost var k :| FirstFree(NamePrefix, [], k) && layers == [DocLayer(newId, Numbered(NamePrefix, k), false)];
        FirstFreeOfNone(k);
      }
      activeIndex := Clamp(activeIndex, |layers|);
      unsaved := true;
    }

    /**
     * `removeLayer(id)`, corrected: the layer with the id is removed as by
     * `removeLayer(index)`; an unknown id changes nothing instead of
     * erasing past the end.
     */
    method RemoveLayer(id: LayerID, newId: LayerID)
      modifies this
      ensures LayerIndex(old(layers), id) == |old(layers)| ==>
        layers == old(layers) && activeIndex == old(activeIndex) && unsaved == old(unsaved)
      ensures LayerIndex(old(layers), id) < |old(layers)| && |old(layers)| >= 2 ==>
        layers == AllegroLayerList.EraseAt(old(layers), LayerIndex(old(layers), id))
        && activeIndex == Clamp(old(activeIndex), |layers|) && unsaved
      ensures LayerIndex(old(layers), id) < |old(layers)| ==> Valid()
      ensures old(Valid()) ==> Valid()
    {
      var index := GetLayerIndex(id);
      if index < |layers| {
        RemoveLayerAt(index, newId);
      }
    }

    /** `getLayerIndex`, with the search loop of `std::find_if`. */
    method GetLayerIndex(id: LayerID) returns (r: nat)
      ensures r == LayerIndex(layers, id)
    {
      r := 0;
      while r < |layers| && !SameLayer(layers[r].id, id)
        invariant r <= |layers| && LayerIndex(layers, id) == r + LayerIndex(layers[r..], id)
      {
        assert layers[r..][1..] == layers[r + 1..];
        r := r + 1;
      }
    }

    /** `getLayer`: the layer with the id, which must exist. */
    method GetLayer(id: LayerID) returns (l: DocLayer)
      requires exists i :: 0 <= i < |layers| && layers[i].id == id
      ensures l in layers && l.id == id
    {
      LayerIndexPastEnd(layers, id);
      var i := GetLayerIndex(id);
      l := layers[i];
    }

    /** `getActiveLayer`: the layer at the active index, which must name one. */
    method GetActiveLayer() returns (l: DocLayer)
      requires activeIndex < |layers|
      ensures l == layers[activeIndex]
    {
      l := layers[activeIndex];
    }

    /** `moveLayerFront`: swaps the layer with the next one, if there is a next one. */
    method MoveLayerFront(id: LayerID)
      modifies this
      ensures var i := LayerIndex(old(layers), id);
        layers == if i + 1 < |old(layers)| then AllegroLayerList.Swap(old(layers), i, i + 1) else old(layers)
      ensures activeIndex == old(activeIndex) && unsaved == old(unsaved)
    {
      var i := GetLayerIndex(id);
      if i + 1 < |layers| {
        layers := AllegroLayerList.Swap(layers, i, i + 1);
      }
    }

    /**
     * `moveLayerBack`, corrected: swaps the layer with the previous one, if
     * there is one; an unknown id changes nothing (the version as written is
     * `MoveBackOtherAsWritten`).
     */
    method MoveLayerBack(id: LayerID)
      modifies this
      ensures var i := LayerIndex(old(layers), id);
        layers == if 1 <= i < |old(layers)| then AllegroLayerList.Swap(old(layers), i, i - 1) else old(layers)
      ensures activeIndex == old(activeIndex) && unsaved == old(unsaved)
    {
      var i := GetLayerIndex(id);
      if 1 <= i < |layers| {
        layers := AllegroLayerList.Swap(layers, i, i - 1);
      }
    }
  }

  /** Without layers the first free name is "Layer 1". */
  lemma FirstFreeOfNone(k: nat)
    requires FirstFree(NamePrefix, [], k)
    ensures k == 1 && Numbered(NamePrefix, k) == NamePrefix + "1"
  {
    var j: nat := 1;
    assert j < k ==> Numbered(NamePrefix, j) in [];
    assert NatToString(1) == "1";
  }
}
