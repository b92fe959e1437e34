// The byte strings of TinyStd (`ts::String`, `ts::StringBuffer`): a view of
// `length` characters. `src/shared/std.cpp` carries the same String
// functions line for line; they are modelled once, here. Sizes are the
// source's 64-bit `size_t`, so the arithmetic that can wrap is written out.

module TinyString {
  import opened Wrappers

  /** 2^64: every `size_t` is below it. */
  const SizeLimit: nat := 0x1_0000_0000_0000_0000

  /** `String::npos`, i.e. `(size_t)-1`. */
  const Npos: nat := SizeLimit - 1

  /** `d` occurs in `s` starting at index `i`. */
  predicate OccursAt(s: string, d: string, i: nat)
  {
    i + |d| <= |s| && s[i..i + |d|] == d
  }

  /**
   * `String::find` as written: the loop runs `i` up to `length -
   * delimiter.length`, computed in `size_t`, so a delimiter longer than the
   * string makes the bound wrap around to a huge value.
   */
  function FindLastStartAsWritten(length: nat, delimLength: nat): (r: nat)
    requires length < SizeLimit && delimLength < SizeLimit
    ensures r < SizeLimit
    ensures delimLength <= length ==> r == length - delimLength
    ensures delimLength > length ==> r > Npos - delimLength
  {
    (length - delimLength) % SizeLimit
  }

  /**
   * With a delimiter longer than the string, the as-written loop still runs
   * its first iteration, and that `memcmp` reads `delimiter.length` bytes
   * starting at `startIndex`: past the end of the string.
   */
  lemma FindAsWrittenReadsPastEnd(length: nat, delimLength: nat, start: nat)
    requires start < length < delimLength < SizeLimit
    ensures start <= FindLastStartAsWritten(length, delimLength)
    ensures start + delimLength > length
  {
  }

  /**
   * `String::find` with the evidently intended bound: the smallest index
   * at or after `start` where `d` occurs; None (`npos`) for an empty
   * delimiter, a start at or past the end, or no occurrence.
   */
  method Find(s: string, d: string, start: nat) returns (r: Option<nat>)
    ensures r.Some? ==> d != [] && start <= r.value && OccursAt(s, d, r.value)
    ensures r.Some? ==> forall j :: start <= j < r.value ==> !OccursAt(s, d, j)
    ensures r.None? <==> d == [] || start >= |s| || forall j :: start <= j ==> !OccursAt(s, d, j)
  {
    if d == [] || start >= |s| {
      return None;
    }
    var i := start;
    while i + |d| <= |s|
      invariant start <= i
      invariant forall j :: start <= j < i ==> !OccursAt(s, d, j)
    {
      if s[i..i + |d|] == d {
        return Some(i);
      }
      i := i + 1;
    }
    assert forall j :: i <= j ==> !OccursAt(s, d, j);
    return None;
  }

  /**
   * `String::substr` as written: the view it returns, as (offset, length).
   * The clamp test `startIndex + count > length` is computed in `size_t`
   * and can wrap around.
   */
  function SubstrAsWritten(s: string, start: nat, count: nat): (r: (nat, nat))
    requires |s| < SizeLimit && start < SizeLimit && count < SizeLimit
    ensures start >= |s| ==> r == (0, 0)
    ensures start < |s| && (count == Npos || start + count > |s|) && start + count < SizeLimit ==>
      r == (start, |s| - start)
  {
    if start >= |s| then (0, 0)
    else if count == Npos || (start + count) % SizeLimit > |s| then (start, |s| - start)
    else (start, count)
  }

  /**
   * A count large enough for the sum to wrap passes the clamp test, and the
   * view then reaches far past the end of the string.
   */
  lemma SubstrAsWrittenOverruns()
    ensures var v := SubstrAsWritten("abcdef", 3, SizeLimit - 2); v.0 + v.1 > |"abcdef"|
  {
  }

  /**
   * `String::substr` with the clamp evaluated without wrap-around: empty
   * when `start` is at or past the end, otherwise the text at `start`, at
   * most `count` characters long, running to the end when `count` is
   * larger than what remains (as `npos` always is).
   */
  function Substr(s: string, start: nat, count: nat): (r: string)
    ensures start >= |s| ==> r == []
    ensures start < |s| ==> start + |r| <= |s| && s[start..start + |r|] == r
    ensures |r| <= count
    ensures start < |s| ==> |r| == count || start + |r| == |s|
  {
    if start >= |s| then []
    else if start + count > |s| then s[start..]
    else s[start..start + count]
  }

  /** `String::startsWith`: `o` is a prefix of `s`. */
  method StartsWith(s: string, o: string) returns (r: bool)
    ensures r <==> |o| <= |s| && s[..|o|] == o
  {
    if |s| < |o| {
      return false;
    }
    var i := 0;
    while i < |o|
      invariant i <= |o|
      invariant s[..i] == o[..i]
    {
      if s[i] != o[i] {
        assert s[..|o|][i] != o[i];
        return false;
      }
      i := i + 1;
    }
    return true;
  }

  /** `String::endsWith`: false when `o` is longer, otherwise `o` is a suffix of `s`. */
  method EndsWith(s: string, o: string) returns (r: bool)
    ensures r <==> |o| <= |s| && s[|s| - |o|..] == o
  {
    if |s| < |o| {
      return false;
    }
    var i := 0;
    while i < |o|
      invariant i <= |o|
      invariant forall k :: 0 <= k < i ==> s[|s| - |o| + k] == o[k]
    {
      if s[|s| - |o| + i] != o[i] {
        assert s[|s| - |o|..][i] != o[i];
        return false;
      }
      i := i + 1;
    }
    assert s[|s| - |o|..] == o;
    return true;
  }

  /** `String::operator==`: equal length, then equal bytes (`memcmp`). */
  function Equals(a: string, b: string): (r: bool)
    ensures r <==> a == b
  {
    |a| == |b| && forall i :: 0 <= i < |a| ==> a[i] == b[i]
  }

  /** `ts::StringBuffer`: a growable character buffer; `chars` is `data[..length]`. */
  class StringBuffer {
    var chars: seq<char>
    var capacity: nat

    ghost predicate Valid()
      reads this
    {
      |chars| <= capacity
    }

    /** The default constructor: no data, nothing reserved. */
    constructor Empty()
      ensures Valid() && chars == [] && capacity == 0
    {
      chars := [];
      capacity := 0;
    }

    /** `StringBuffer::clone`: a copy of `s` with twice its length reserved. */
    constructor Clone(s: string)
      ensures Valid() && chars == s && capacity == 2 * |s|
    {
      chars := s;
      capacity := 2 * |s|;
    }

    /**
     * `StringBuffer::enlarge`: an empty buffer reserves max(8, 2 needed),
     * a used one max(2 capacity, 2 needed); the contents are copied over.
     */
    method Enlarge(needed: nat)
      modifies this
      ensures chars == old(chars)
      ensures capacity >= 2 * needed && capacity >= old(capacity)
      ensures old(capacity) == 0 ==> capacity == if needed * 2 > 8 then needed * 2 else 8
      ensures old(capacity) != 0 ==> capacity == if old(capacity) * 2 > needed * 2 then old(capacity) * 2 else needed * 2
    {
      if capacity == 0 {
        capacity := if needed * 2 > 8 then needed * 2 else 8;
        return;
      }
      capacity := if capacity * 2 > needed * 2 then capacity * 2 else needed * 2;
    }

    /** `StringBuffer::append(char)`: grows first when full. */
    method AppendChar(c: char)
      requires Valid()
      modifies this
      ensures Valid() && chars == old(chars) + [c]
      ensures old(capacity) >= |old(chars)| + 1 ==> capacity == old(capacity)
    {
      if capacity < |chars| + 1 {
        Enlarge(|chars| + 1);
      }
      chars := chars + [c];
    }

    /** `StringBuffer::append(String)`: grows first when the text does not fit. */
    method AppendString(s: string)
      requires Valid()
      modifies this
      ensures Valid() && chars == old(chars) + s
      ensures old(capacity) >= |old(chars)| + |s| ==> capacity == old(capacity)
    {
      if capacity < |chars| + |s| {
        Enlarge(|chars| + |s|);
      }
      chars := chars + s;
    }

    /**
     * `StringBuffer::findUntil`: the text from `skip` up to the first
     * position where the rest starts with `criteria`, or up to the end.
     */
    method FindUntil(criteria: string, skip: nat) returns (r: string)
      requires skip <= |chars|
      ensures skip + |r| <= |chars| && chars[skip..skip + |r|] == r
      ensures forall k :: skip <= k < skip + |r| ==> !OccursAt(chars, criteria, k)
      ensures skip + |r| < |chars| ==> OccursAt(chars, criteria, skip + |r|)
    {
      var k := skip;
      while true
        invariant skip <= k <= |chars|
        invariant forall j :: skip <= j < k ==> !OccursAt(chars, criteria, j)
        decreases |chars| - k
      {
        if k == |chars| {
          return chars[skip..];
        }
        var found := StartsWith(chars[k..], criteria);
        if found {
          assert chars[k..][..|criteria|] == chars[k..k + |criteria|];
          return chars[skip..k];
        }
        if k + |criteria| <= |chars| {
          assert chars[k..][..|criteria|] == chars[k..k + |criteria|];
        }
        k := k + 1;
      }
    }
  }
}
