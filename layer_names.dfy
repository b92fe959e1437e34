// Generated layer names such as "Layer #3" or "Layer 3": a fixed prefix
// followed by a decimal number. The searches for an unused name count up
// from 1 until the name is free; `CountFrom` gives them a measure that
// drops at every clash, so they end.

module LayerNames {
  import opened Wrappers
  import opened Decimal

  /** The name with number `k`. */
  function Numbered(prefix: string, k: nat): string
  {
    prefix + NatToString(k)
  }

  /** The number in a generated name, if the name is one. */
  function NumberOf(prefix: string, name: string): Option<nat>
  {
    if |prefix| < |name| && name[..|prefix|] == prefix &&
       forall i :: |prefix| <= i < |name| ==> IsDigitChar(name[i])
    then Some(Value(name[|prefix|..]))
    else None
  }

  /** Every generated name carries its own number. */
  lemma NumberOfNumbered(prefix: string, k: nat)
    ensures NumberOf(prefix, Numbered(prefix, k)) == Some(k)
  {
    var name := Numbered(prefix, k);
    assert name[..|prefix|] == prefix;
    assert name[|prefix|..] == NatToString(k);
    ValueOfNatToString(k);
  }

  /** Distinct numbers give distinct names. */
  lemma NumberedInjective(prefix: string, a: nat, b: nat)
    ensures Numbered(prefix, a) == Numbered(prefix, b) <==> a == b
  {
    NumberOfNumbered(prefix, a);
    NumberOfNumbered(prefix, b);
  }

  /** How many of `names` are generated names with a number of at least `k`. */
  function CountFrom(prefix: string, names: seq<string>, k: nat): (n: nat)
    ensures n <= |names|
  {
    if names == [] then 0
    else
      var m := NumberOf(prefix, names[0]);
      (if m.Some? && m.value >= k then 1 else 0) + CountFrom(prefix, names[1..], k)
  }

  /** A clash at `k` means one name fewer counts from `k + 1`: the measure of the name searches. */
  lemma {:induction false} CountFromDrops(prefix: string, names: seq<string>, k: nat)
    requires Numbered(prefix, k) in names
    ensures CountFrom(prefix, names, k + 1) < CountFrom(prefix, names, k)
  {
    NumberOfNumbered(prefix, k);
    if names[0] != Numbered(prefix, k) {
      CountFromDrops(prefix, names[1..], k);
    } else {
      CountFromNoMore(prefix, names[1..], k);
    }
  }

  /** Counting from a higher number never counts more. */
  lemma {:induction false} CountFromNoMore(prefix: string, names: seq<string>, k: nat)
    ensures CountFrom(prefix, names, k + 1) <= CountFrom(prefix, names, k)
  {
    if names != [] {
      CountFromNoMore(prefix, names[1..], k);
    }
  }

  /** `k` is the smallest number from 1 up whose name is not among `names`. */
  predicate FirstFree(prefix: string, names: seq<string>, k: nat)
  {
    k >= 1 && Numbered(prefix, k) !in names &&
    forall j :: 1 <= j < k ==> Numbered(prefix, j) in names
  }

  /** The first free number is unique. */
  lemma FirstFreeUnique(prefix: string, names: seq<string>, a: nat, b: nat)
    requires FirstFree(prefix, names, a) && FirstFree(prefix, names, b)
    ensures a == b
  {
  }

  /** With `n` names, some number up to `n + 1` is free. */
  lemma {:induction false} FirstFreeBound(prefix: string, names: seq<string>, k: nat)
    requires FirstFree(prefix, names, k)
    ensures k <= |names| + 1
  {
    var j := 1;
    while j < k
      invariant 1 <= j <= k && CountFrom(prefix, names, j) + j <= CountFrom(prefix, names, 1) + 1
    {
      CountFromDrops(prefix, names, j);
      j := j + 1;
    }
  }
}
