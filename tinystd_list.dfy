// TinyStd's singly linked list (`ts::List<T>`): elements in insertion order
// and a separately maintained `length`. The chain of nodes is the sequence
// `items`; `Valid` says that `length` counts it. Node storage comes from an
// arena in the source; which bytes it uses is not modelled here.

module TinyList {
  import opened Wrappers

  /** The elements of `s` that `pred` does not match, in order. */
  function Kept<T>(s: seq<T>, pred: T -> bool): seq<T>
  {
    if s == [] then []
    else Kept(s[..|s| - 1], pred) + (if pred(s[|s| - 1]) then [] else [s[|s| - 1]])
  }

  /** Number of elements of `s` that `pred` matches. */
  function Matching<T>(s: seq<T>, pred: T -> bool): (r: nat)
    ensures r <= |s|
  {
    if s == [] then 0
    else Matching(s[..|s| - 1], pred) + (if pred(s[|s| - 1]) then 1 else 0)
  }

  /**
   * `remove_if` keeps exactly the non-matching elements: x survives iff it
   * was there and does not match, and one element goes per match.
   */
  lemma {:induction false} KeptExactly<T>(s: seq<T>, pred: T -> bool)
    ensures forall x :: x in Kept(s, pred) <==> x in s && !pred(x)
    ensures |Kept(s, pred)| + Matching(s, pred) == |s|
  {
    if s != [] {
      KeptExactly(s[..|s| - 1], pred);
      assert s == s[..|s| - 1] + [s[|s| - 1]];
    }
  }

  /** `idx` embeds `sub` into `s` by strictly increasing indices. */
  ghost predicate EmbeddedBy<T>(idx: seq<nat>, sub: seq<T>, s: seq<T>)
  {
    |idx| == |sub| &&
    (forall k :: 0 <= k < |idx| ==> idx[k] < |s| && s[idx[k]] == sub[k]) &&
    (forall k, l :: 0 <= k < l < |idx| ==> idx[k] < idx[l])
  }

  /** An embedding survives appending to `s`, and extends by the appended element. */
  lemma EmbeddingExtends<T>(idx: seq<nat>, sub: seq<T>, s: seq<T>, x: T)
    requires EmbeddedBy(idx, sub, s)
    ensures EmbeddedBy(idx, sub, s + [x])
    ensures EmbeddedBy(idx + [|s|], sub + [x], s + [x])
  {
  }

  /** `remove_if` keeps the order: the kept elements form a subsequence, embedded by increasing indices. */
  lemma {:induction false} KeptIsSubsequence<T>(s: seq<T>, pred: T -> bool)
    ensures exists idx: seq<nat> :: EmbeddedBy(idx, Kept(s, pred), s)
  {
    if s == [] {
      assert EmbeddedBy([], Kept(s, pred), s);
    } else {
      var init, last := s[..|s| - 1], s[|s| - 1];
      assert s == init + [last];
      KeptIsSubsequence(init, pred);
      var idx: seq<nat> :| EmbeddedBy(idx, Kept(init, pred), init);
      EmbeddingExtends(idx, Kept(init, pred), init, last);
      if pred(last) {
        assert EmbeddedBy(idx, Kept(s, pred), s);
      } else {
        assert EmbeddedBy(idx + [|init|], Kept(s, pred), s);
      }
    }
  }

  /** The elements of `s` from last to first. */
  function Reversed<T>(s: seq<T>): seq<T>
  {
    if s == [] then [] else [s[|s| - 1]] + Reversed(s[..|s| - 1])
  }

  /** Position k of the reversal holds the k-th element from the end. */
  lemma {:induction false} ReversedAt<T>(s: seq<T>)
    ensures |Reversed(s)| == |s|
    ensures forall k :: 0 <= k < |s| ==> Reversed(s)[k] == s[|s| - 1 - k]
  {
    if s != [] {
      ReversedAt(s[..|s| - 1]);
    }
  }

  /** Reversing twice gives the list back. */
  lemma ReversedTwice<T>(s: seq<T>)
    ensures Reversed(Reversed(s)) == s
  {
    ReversedAt(s);
    ReversedAt(Reversed(s));
  }

  class List<T> {
    var items: seq<T>
    var length: nat

    ghost predicate Valid()
      reads this
    {
      length == |items|
    }

    /** `List()`: no elements. */
    constructor ()
      ensures Valid() && items == []
    {
      items := [];
      length := 0;
    }

    /** `List::get`: the element at `index`, or None where the source panics (index out of bounds). */
    function Get(index: nat): (r: Option<T>)
      reads this
      requires Valid()
      ensures r.Some? <==> index < |items|
      ensures r.Some? ==> r.value == items[index]
    {
      if index < length then Some(items[index]) else None
    }

    /** `List::push`: links the element at the tail and counts it. */
    method Push(e: T)
      requires Valid()
      modifies this
      ensures Valid() && items == old(items) + [e] && length == old(length) + 1
      ensures Get(old(length)) == Some(e)
    {
      items := items + [e];
      length := length + 1;
    }

    /**
     * `List::pop`: panics on an empty list (ok false, nothing changed);
     * otherwise unlinks exactly the last element.
     */
    method Pop() returns (ok: bool)
      requires Valid()
      modifies this
      ensures Valid()
      ensures ok <==> old(items) != []
      ensures ok ==> items == old(items)[..|old(items)| - 1] && length == old(length) - 1
      ensures !ok ==> items == old(items)
    {
      if items == [] {
        return false;
      }
      if |items| == 1 {
        items := [];
        length := 0;
        return true;
      }
      items := items[..|items| - 1];
      length := length - 1;
      return true;
    }

    /**
     * `List::remove_if`: unlinks every element `pred` matches, keeping the
     * others in order, and decrements `length` once per unlinked element.
     */
    method RemoveIf(pred: T -> bool)
      requires Valid()
      modifies this
      ensures Valid() && items == Kept(old(items), pred)
      ensures length == old(length) - Matching(old(items), pred)
    {
      var all := items;
      var kept: seq<T> := [];
      var i := 0;
      while i < |all|
        invariant i <= |all| && all == old(items)
        invariant kept == Kept(all[..i], pred)
        invariant length + Matching(all[..i], pred) == |all|
      {
        assert all[..i + 1][..i] == all[..i];
        if pred(all[i]) {
          length := length - 1;
        } else {
          kept := kept + [all[i]];
        }
        i := i + 1;
      }
      assert all[..i] == all;
      items := kept;
      KeptExactly(all, pred);
    }

    /** `List::reverse`: a new list built by pushing each element at the front. */
    method Reverse() returns (res: List<T>)
      requires Valid()
      ensures fresh(res) && res.Valid() && res.items == Reversed(items)
    {
      res := new List();
      var i := 0;
      while i < |items|
        invariant i <= |items|
        invariant res.Valid() && res.items == Reversed(items[..i])
      {
        assert items[..i + 1][..i] == items[..i];
        res.items := [items[i]] + res.items;
        res.length := res.length + 1;
        i := i + 1;
      }
      assert items[..i] == items;
    }
  }
}
