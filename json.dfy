// The JSON values that layers and files are saved as. An object keeps its
// fields in order (the nlohmann library keeps them sorted by key); a
// lookup finds the first field with the key. Reading a missing key or a
// value of the wrong type throws in the library; here it gives `None`.

module JsonValue {
  import opened Wrappers

  datatype Json =
    | Null
    | Bool(b: bool)
    | Num(n: int)
    | Str(s: string)
    | Arr(items: seq<Json>)
    | Obj(fields: seq<(string, Json)>)

  /** `j[key]` on an object: the first field with that key. */
  function Field(j: Json, key: string): (r: Option<Json>)
    ensures r.Some? ==> j.Obj? && exists i :: 0 <= i < |j.fields| && j.fields[i] == (key, r.value)
    decreases if j.Obj? then |j.fields| else 0
  {
    if !j.Obj? || j.fields == [] then None
    else if j.fields[0].0 == key then Some(j.fields[0].1)
    else
      var r := Field(Obj(j.fields[1..]), key);
      if r.Some? then
        ghost var i :| 0 <= i < |j.fields[1..]| && j.fields[1..][i] == (key, r.value);
        assert j.fields[i + 1] == (key, r.value);
        r
      else r
  }

  /** Conversion to an unsigned integer. */
  function AsNat(j: Option<Json>): Option<nat>
  {
    if j.Some? && j.value.Num? && j.value.n >= 0 then Some(j.value.n) else None
  }

  /** Conversion to a string. */
  function AsString(j: Option<Json>): Option<string>
  {
    if j.Some? && j.value.Str? then Some(j.value.s) else None
  }

  /**
   * The elements a range-`for` visits: the items of an array, the values
   * of an object, nothing for null, and the value itself otherwise.
   */
  function Elements(j: Json): (r: seq<Json>)
    ensures j.Arr? ==> r == j.items
    ensures j.Null? ==> r == []
  {
    match j
    case Arr(items) => items
    case Obj(fields) => seq(|fields|, i requires 0 <= i < |fields| => fields[i].1)
    case Null => []
    case _ => [j]
  }

  /** The first field of a freshly built object is found under its key. */
  lemma FieldOfFirst(key: string, v: Json, rest: seq<(string, Json)>)
    ensures Field(Obj([(key, v)] + rest), key) == Some(v)
  {
  }

  /** A field behind fields with other keys is found under its key. */
  lemma FieldSkips(key: string, first: (string, Json), rest: seq<(string, Json)>)
    requires first.0 != key
    ensures Field(Obj([first] + rest), key) == Field(Obj(rest), key)
  {
    assert ([first] + rest)[1..] == rest;
  }

  /** Adding a field at the end (`j[key] = v` for a new key) changes no earlier lookup. */
  lemma {:induction false} FieldAfter(fields: seq<(string, Json)>, f: (string, Json), key: string)
    ensures Field(Obj(fields + [f]), key) ==
      if Field(Obj(fields), key).Some? then Field(Obj(fields), key)
      else if f.0 == key then Some(f.1) else None
  {
    if fields != [] {
      assert (fields + [f])[0] == fields[0];
      if fields[0].0 != key {
        assert (fields + [f])[1..] == fields[1..] + [f];
        FieldAfter(fields[1..], f, key);
      }
    }
  }
}
