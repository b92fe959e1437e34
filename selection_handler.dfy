// The shape selection of the later edition (src/SelectionHandler.cpp): the
// ids of the selected shapes in selection order, and the state of the
// hover cycling (which of the shapes under the mouse comes next, and the
// last one reported).
//
// The shapes of the active layer are passed in, as is the geometric test
// that says whether the mouse is over a shape.

module SelectionModel {
  import opened Wrappers
  import opened TinyString
  import opened SrcLayerState
  import AllegroLayerList

  /** `ShapeID(-1)`: no shape hovered. */
  const NoShape: nat := Npos

  /** Whether a shape of the layer has the id (`ShapeExists`). */
  predicate Exists(shapes: seq<Shape>, id: nat)
  {
    exists i :: 0 <= i < |shapes| && shapes[i].id == id
  }

  /** The ids of the shapes, in layer order. */
  function ShapeIds(shapes: seq<Shape>): (r: seq<nat>)
    ensures |r| == |shapes| && forall i :: 0 <= i < |shapes| ==> r[i] == shapes[i].id
  {
    seq(|shapes|, i requires 0 <= i < |shapes| => shapes[i].id)
  }

  /** The ids of the shapes under the mouse, in layer order. */
  function HoveredIds(shapes: seq<Shape>, hovered: Shape -> bool): (r: seq<nat>)
    ensures forall x :: x in r ==> exists i :: 0 <= i < |shapes| && shapes[i].id == x && hovered(shapes[i])
    ensures forall i :: 0 <= i < |shapes| && hovered(shapes[i]) ==> shapes[i].id in r
  {
    if shapes == [] then []
    else
      var prev := HoveredIds(shapes[..|shapes| - 1], hovered);
      var last := shapes[|shapes| - 1];
      assert forall i :: 0 <= i < |shapes| - 1 ==> shapes[..|shapes| - 1][i] == shapes[i];
      prev + (if hovered(last) then [last.id] else [])
  }

  /** Erasing from a list of distinct ids keeps it distinct and drops exactly the erased id. */
  lemma EraseDistinct(s: seq<nat>, i: nat)
    requires i < |s| && AllegroLayerList.Distinct(s)
    ensures AllegroLayerList.Distinct(AllegroLayerList.EraseAt(s, i))
    ensures forall x :: x in AllegroLayerList.EraseAt(s, i) <==> x in s && x != s[i]
  {
    var r := AllegroLayerList.EraseAt(s, i);
    forall a, b | 0 <= a < b < |r|
      ensures r[a] != r[b]
    {
      var a' := if a < i then a else a + 1;
      var b' := if b < i then b else b + 1;
      assert r[a] == s[a'] && r[b] == s[b'];
    }
    forall x
      ensures x in r <==> x in s && x != s[i]
    {
      if x in r {
        var k :| 0 <= k < |r| && r[k] == x;
        var k' := if k < i then k else k + 1;
        assert s[k'] == x;
      }
      if x in s && x != s[i] {
        var k :| 0 <= k < |s| && s[k] == x;
        if k < i {
          assert r[k] == x;
        } else {
          assert r[k - 1] == x;
        }
      }
    }
  }

  /** The ids of `s` that are not in `rm`, in their order. */
  function Without(s: seq<nat>, rm: seq<nat>): (r: seq<nat>)
    ensures forall x :: x in r <==> x in s && x !in rm
  {
    if s == [] then [] else (if s[0] in rm then [] else [s[0]]) + Without(s[1..], rm)
  }

  /** The ids of `s` whose shapes still exist, in their order. */
  function Kept(s: seq<nat>, shapes: seq<Shape>): (r: seq<nat>)
    ensures forall x :: x in r <==> x in s && Exists(shapes, x)
  {
    if s == [] then [] else (if Exists(shapes, s[0]) then [s[0]] else []) + Kept(s[1..], shapes)
  }

  /** Nothing to remove leaves the list as it is. */
  lemma {:induction false} WithoutAbsent(s: seq<nat>, rm: seq<nat>)
    requires forall x :: x in s ==> x !in rm
    ensures Without(s, rm) == s
  {
    if s != [] {
      WithoutAbsent(s[1..], rm);
    }
  }

  /** In a list of distinct ids, erasing the one at `i` is removing that id. */
  lemma {:induction false} EraseIsWithout(s: seq<nat>, i: nat)
    requires i < |s| && AllegroLayerList.Distinct(s)
    ensures AllegroLayerList.EraseAt(s, i) == Without(s, [s[i]])
  {
    if i == 0 {
      WithoutAbsent(s[1..], [s[0]]);
      assert AllegroLayerList.EraseAt(s, 0) == s[1..];
    } else {
      EraseIsWithout(s[1..], i - 1);
      assert AllegroLayerList.EraseAt(s, i) == [s[0]] + AllegroLayerList.EraseAt(s[1..], i - 1);
    }
  }

  /** Removing `a`, then `b`, is removing both at once. */
  lemma {:induction false} WithoutTwice(s: seq<nat>, a: seq<nat>, b: seq<nat>)
    ensures Without(Without(s, a), b) == Without(s, a + b)
  {
    if s != [] {
      WithoutTwice(s[1..], a, b);
      var t := Without(s, a);
      if s[0] in a {
        assert t == Without(s[1..], a);
        assert s[0] in a + b;
      } else {
        assert t == [s[0]] + Without(s[1..], a);
        assert t[0] == s[0] && t[1..] == Without(s[1..], a);
        assert s[0] in b <==> s[0] in a + b;
      }
    }
  }

  /** Removing exactly the selected ids whose shapes are gone keeps the rest, in order. */
  lemma {:induction false} WithoutGoneIsKept(s: seq<nat>, rm: seq<nat>, shapes: seq<Shape>)
    requires forall x :: x in s ==> (x in rm <==> !Exists(shapes, x))
    ensures Without(s, rm) == Kept(s, shapes)
  {
    if s != [] {
      WithoutGoneIsKept(s[1..], rm, shapes);
    }
  }

  class SelectionHandler {
    var selectedShapes: seq<nat>
    var nextPossibleIndex: nat
    var lastHoveredShape: nat

    /** No shape is selected twice. */
    predicate Valid()
      reads this
    {
      AllegroLayerList.Distinct(selectedShapes)
    }

    constructor ()
      ensures selectedShapes == [] && nextPossibleIndex == 0 && Valid()
    {
      selectedShapes := [];
      nextPossibleIndex := 0;
      lastHoveredShape := NoShape;
    }

    /**
     * `GetSelectedShapes`: first unselects every id whose shape no longer
     * exists, then hands out the selection.
     */
    method GetSelectedShapes(shapes: seq<Shape>) returns (r: seq<nat>)
      modifies this
      ensures r == selectedShapes
      ensures forall x :: x in selectedShapes ==> x in old(selectedShapes)
      ensures old(Valid()) ==> (Valid() &&
        forall x :: x in selectedShapes <==> x in old(selectedShapes) && Exists(shapes, x))
      ensures old(Valid()) ==> selectedShapes == Kept(old(selectedShapes), shapes)
      ensures nextPossibleIndex == old(nextPossibleIndex) && lastHoveredShape == old(lastHoveredShape)
    {
      var removeSelection: seq<nat> := [];
      var sel := selectedShapes;
      for i := 0 to |sel|
        invariant forall x :: x in removeSelection <==> x in sel[..i] && !Exists(shapes, x)
      {
        assert sel[..i + 1] == sel[..i] + [sel[i]];
        if !Exists(shapes, sel[i]) {
          removeSelection := removeSelection + [sel[i]];
        }
      }
      assert sel[..|sel|] == sel;
      WithoutAbsent(sel, []);
      for k := 0 to |removeSelection|
        invariant forall x :: x in selectedShapes ==> x in sel
        invariant old(Valid()) ==> (Valid() &&
          forall x :: x in selectedShapes <==> x in sel && x !in removeSelection[..k])
        invariant old(Valid()) ==> selectedShapes == Without(sel, removeSelection[..k])
        invariant nextPossibleIndex == old(nextPossibleIndex) && lastHoveredShape == old(lastHoveredShape)
      {
        assert removeSelection[..k + 1] == removeSelection[..k] + [removeSelection[k]];
        WithoutTwice(sel, removeSelection[..k], [removeSelection[k]]);
        var _ := UnselectShape(removeSelection[k]);
      }
      assert removeSelection[..|removeSelection|] == removeSelection;
      if old(Valid()) {
        WithoutGoneIsKept(sel, removeSelection, shapes);
      }
      r := selectedShapes;
    }

    /**
     * `GetHoveredShape`: among the shapes under the mouse, the one at the
     * cycle index, which falls back to 0 when out of range; `-1` when the
     * mouse is over none.
     */
    method GetHoveredShape(shapes: seq<Shape>, hovered: Shape -> bool) returns (r: nat)
      modifies this
      ensures var possible := HoveredIds(shapes, hovered);
        nextPossibleIndex == (if old(nextPossibleIndex) >= |possible| then 0 else old(nextPossibleIndex))
        && r == lastHoveredShape
        && r == (if possible == [] then NoShape else possible[nextPossibleIndex])
      ensures r != NoShape ==> exists i :: 0 <= i < |shapes| && shapes[i].id == r && hovered(shapes[i])
      ensures selectedShapes == old(selectedShapes)
    {
      var possible: seq<nat> := [];
      for i := 0 to |shapes|
        invariant possible == HoveredIds(shapes[..i], hovered)
      {
        assert shapes[..i + 1][..i] == shapes[..i];
        if hovered(shapes[i]) {
          possible := possible + [shapes[i].id];
        }
      }
      assert shapes[..|shapes|] == shapes;
      if nextPossibleIndex >= |possible| {
        nextPossibleIndex := 0;
      }
      if |possible| > 0 {
        assert possible[nextPossibleIndex] in possible;
        lastHoveredShape := possible[nextPossibleIndex];
      } else {
        lastHoveredShape := NoShape;
      }
      r := lastHoveredShape;
    }

    /** `GetLastHoveredShape`. */
    method GetLastHoveredShape() returns (r: nat)
      ensures r == lastHoveredShape
    {
      r := lastHoveredShape;
    }

    /** `SelectNextPossibleShape`: the cycle index moves on by one and the hovered shape is looked up again. */
    method SelectNextPossibleShape(shapes: seq<Shape>, hovered: Shape -> bool)
      modifies this
      ensures var possible := HoveredIds(shapes, hovered);
        nextPossibleIndex == (if old(nextPossibleIndex) + 1 >= |possible| then 0 else old(nextPossibleIndex) + 1)
        && lastHoveredShape == (if possible == [] then NoShape else possible[nextPossibleIndex])
      ensures selectedShapes == old(selectedShapes)
    {
      nextPossibleIndex := nextPossibleIndex + 1;
      var _ := GetHoveredShape(shapes, hovered);
    }

    /** `IsShapeSelected`. */
    method IsShapeSelected(id: nat) returns (r: bool)
      ensures r <==> id in selectedShapes
    {
      for i := 0 to |selectedShapes|
        invariant id !in selectedShapes[..i]
      {
        assert selectedShapes[..i + 1] == selectedShapes[..i] + [selectedShapes[i]];
        if selectedShapes[i] == id {
          return true;
        }
      }
      assert selectedShapes[..|selectedShapes|] == selectedShapes;
      return false;
    }

    /**
     * `SelectShape`: true iff the shape exists; it is appended only if it
     * is not selected yet, so no id is selected twice.
     */
    method SelectShape(shapes: seq<Shape>, id: nat) returns (ok: bool)
      modifies this
      ensures ok <==> Exists(shapes, id)
      ensures selectedShapes == if ok && id !in old(selectedShapes) then old(selectedShapes) + [id] else old(selectedShapes)
      ensures old(Valid()) ==> Valid()
      ensures nextPossibleIndex == old(nextPossibleIndex) && lastHoveredShape == old(lastHoveredShape)
    {
      if Exists(shapes, id) {
        var selected := IsShapeSelected(id);
        if !selected {
          selectedShapes := selectedShapes + [id];
        }
        return true;
      }
      return false;
    }

    /** `UnselectShape`: erases the first occurrence of the id; false and no change if it is not selected. */
    method UnselectShape(id: nat) returns (ok: bool)
      modifies this
      ensures ok <==> id in old(selectedShapes)
      ensures ok ==> (selectedShapes ==
        AllegroLayerList.EraseAt(old(selectedShapes), AllegroLayerList.IndexIn(old(selectedShapes), id).value))
      ensures !ok ==> selectedShapes == old(selectedShapes)
      ensures forall x :: x in selectedShapes ==> x in old(selectedShapes)
      ensures old(Valid()) ==> Valid() && forall x :: x in selectedShapes <==> x in old(selectedShapes) && x != id
      ensures old(Valid()) ==> selectedShapes == Without(old(selectedShapes), [id])
      ensures nextPossibleIndex == old(nextPossibleIndex) && lastHoveredShape == old(lastHoveredShape)
    {
      for i := 0 to |selectedShapes|
        invariant forall j :: 0 <= j < i ==> selectedShapes[j] != id
      {
        if selectedShapes[i] == id {
          AllegroLayerList.IndexInIs(selectedShapes, id, i);
          ghost var before := selectedShapes;
          if Valid() {
            EraseDistinct(selectedShapes, i);
            EraseIsWithout(selectedShapes, i);
          }
          selectedShapes := AllegroLayerList.EraseAt(selectedShapes, i);
          assert forall x :: x in selectedShapes ==> x in before by {
            forall x | x in selectedShapes
              ensures x in before
            {
              var k :| 0 <= k < |selectedShapes| && selectedShapes[k] == x;
              assert before[if k < i then k else k + 1] == x;
            }
          }
          return true;
        }
      }
      WithoutAbsent(selectedShapes, [id]);
      return false;
    }

    /**
     * `ToggleSelection`: a selected id is unselected, an unselected one
     * selected if its shape exists; the result says whether that happened.
     */
    method ToggleSelection(shapes: seq<Shape>, id: nat) returns (ok: bool)
      modifies this
      requires Valid()
      ensures Valid()
      ensures id in old(selectedShapes) ==> ok && id !in selectedShapes
      ensures id !in old(selectedShapes) ==> (ok <==> Exists(shapes, id)) && (id in selectedShapes <==> ok)
      ensures forall x :: x != id ==> (x in selectedShapes <==> x in old(selectedShapes))
      ensures selectedShapes ==
        if id in old(selectedShapes) then Without(old(selectedShapes), [id])
        else if Exists(shapes, id) then old(selectedShapes) + [id]
        else old(selectedShapes)
      ensures nextPossibleIndex == old(nextPossibleIndex) && lastHoveredShape == old(lastHoveredShape)
    {
      var selected := IsShapeSelected(id);
      if selected {
        ok := UnselectShape(id);
      } else {
        ok := SelectShape(shapes, id);
      }
    }

    /** `SelectAll`: the selection becomes the ids of all shapes, in layer order. */
    method SelectAll(shapes: seq<Shape>)
      modifies this
      ensures selectedShapes == ShapeIds(shapes)
      ensures nextPossibleIndex == old(nextPossibleIndex) && lastHoveredShape == old(lastHoveredShape)
    {
      selectedShapes := [];
      for i := 0 to |shapes|
        invariant selectedShapes == ShapeIds(shapes[..i])
        invariant nextPossibleIndex == old(nextPossibleIndex) && lastHoveredShape == old(lastHoveredShape)
      {
        selectedShapes := selectedShapes + [shapes[i].id];
      }
      assert shapes[..|shapes|] == shapes;
    }

    /** `ClearSelection`. */
    method ClearSelection()
      modifies this
      ensures selectedShapes == [] && Valid()
      ensures nextPossibleIndex == old(nextPossibleIndex) && lastHoveredShape == old(lastHoveredShape)
    {
      selectedShapes := [];
    }
  }
}
