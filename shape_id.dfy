// `ShapeID` of include/Shape.h: a 32-bit id where -1 means "no shape",
// handed out in sequence by `MakeID` from a static counter. The counter is
// an object here so that its updates are visible in contracts; its
// overflow past 2^31 - 1 is not modelled.

module ShapeIdentity {

  const NoShape: int := -1

  datatype ShapeID = ShapeID(id: int)

  /** `ShapeID()`: the id -1. */
  function DefaultID(): ShapeID
  {
    ShapeID(NoShape)
  }

  /** `IsValid` as written: true exactly for -1. */
  function IsValidAsWritten(s: ShapeID): bool
  {
    s.id == NoShape
  }

  /** `IsValid` as the class comment describes it: every id but -1. */
  function IsValid(s: ShapeID): bool
  {
    s.id != NoShape
  }

  /** The two tests always disagree: the one as written answers the opposite question. */
  lemma IsValidInverted(s: ShapeID)
    ensures IsValidAsWritten(s) <==> !IsValid(s)
  {
  }

  /** A default id is the invalid one, yet `IsValid` as written accepts it. */
  lemma DefaultIsInvalid()
    ensures !IsValid(DefaultID()) && IsValidAsWritten(DefaultID())
  {
  }

  /** `operator==`: two ids are equal iff they hold the same number. */
  function Same(a: ShapeID, b: ShapeID): (r: bool)
    ensures r <==> a == b
  {
    a.id == b.id
  }

  /** The static counter behind `MakeID`. */
  class IdSource {
    var nextID: int

    /** The counter starts at 0 (src/Shape.cpp). */
    constructor ()
      ensures nextID == 0
    {
      nextID := 0;
    }

    /** `MakeID`: the counter's value, and the counter moves on by one. */
    method MakeID() returns (r: ShapeID)
      modifies this
      ensures r.id == old(nextID) && nextID == old(nextID) + 1
      ensures old(nextID) >= 0 ==> IsValid(r)
    {
      r := ShapeID(nextID);
      nextID := nextID + 1;
    }
  }
}
