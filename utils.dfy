// String and integer helpers of the Allegro front end (`utils.cpp`):
// integer range mapping, the three ways of splitting a string at a
// delimiter character, file-extension extraction and character-class
// tests. `std::string` is a `seq<char>`.

module AllegroUtils {
  import opened Wrappers

  // ---------------------------------------------------------------- mapInt

  /** C++ `/` on int: the quotient truncated toward zero. */
  function TruncDiv(a: int, b: int): (q: int)
    requires b != 0
    ensures a >= 0 && b > 0 ==> q == a / b
    ensures (a >= 0) == (b > 0) || a == 0 ==> q >= 0
  {
    var m := (if a < 0 then -a else a) / (if b < 0 then -b else b);
    if (a < 0) == (b < 0) then m else -m
  }

  /** Multiplying by a non-negative factor keeps the order. */
  lemma MulMonotone(x: int, y: int, w: int)
    requires x <= y && w >= 0
    ensures x * w <= y * w
  {
    assert y * w - x * w == (y - x) * w;
  }

  /** A multiple of a positive w that is below w has a factor of at most 0. */
  lemma MultipleBelow(m: int, w: int)
    requires w > 0 && m * w < w
    ensures m <= 0
  {
    if m >= 1 {
      MulMonotone(1, m, w);
    }
  }

  /** A multiple of a positive w divided by w is its factor. */
  lemma DivOfMultiple(x: int, w: int)
    requires w > 0
    ensures (x * w) / w == x
  {
    var q, r := (x * w) / w, (x * w) % w;
    assert x * w == q * w + r && 0 <= r < w;
    assert (x - q) * w == r;
    assert (q - x) * w == -r;
    MultipleBelow(x - q, w);
    MultipleBelow(q - x, w);
  }

  /** An exact multiple divides back to its factor. */
  lemma TruncDivExact(k: int, b: int)
    requires b != 0
    ensures TruncDiv(k * b, b) == k
  {
    var ab := if b < 0 then -b else b;
    var ak := if k < 0 then -k else k;
    assert ak * ab == (if k * b < 0 then -(k * b) else k * b) by {
      if k < 0 && b < 0 {
        assert ak * ab == (-k) * (-b) == k * b;
      } else if k < 0 {
        assert ak * ab == (-k) * b == -(k * b);
        MulMonotone(k, 0, b);
      } else if b < 0 {
        assert ak * ab == k * (-b) == -(k * b);
        MulMonotone(b, 0, k);
      } else {
        MulMonotone(0, k, b);
      }
    }
    DivOfMultiple(ak, ab);
  }

  /**
   * `mapInt`: x scaled linearly from [in_min, in_max] to [out_min,
   * out_max], with C's truncating division. `in_max == in_min` is a
   * division by zero, which the source leaves to its callers.
   */
  function MapInt(x: int, inMin: int, inMax: int, outMin: int, outMax: int): int
    requires inMax != inMin
  {
    TruncDiv((x - inMin) * (outMax - outMin), inMax - inMin) + outMin
  }

  /** The ends of the input range go to the ends of the output range. */
  lemma MapIntEndpoints(inMin: int, inMax: int, outMin: int, outMax: int)
    requires inMax != inMin
    ensures MapInt(inMin, inMin, inMax, outMin, outMax) == outMin
    ensures MapInt(inMax, inMin, inMax, outMin, outMax) == outMax
  {
    TruncDivExact(0, inMax - inMin);
    assert (inMin - inMin) * (outMax - outMin) == 0 * (inMax - inMin);
    TruncDivExact(outMax - outMin, inMax - inMin);
    assert (inMax - inMin) * (outMax - outMin) == (outMax - outMin) * (inMax - inMin);
  }

  /** On increasing ranges, a value inside the input range lands inside the output range. */
  lemma MapIntInRange(x: int, inMin: int, inMax: int, outMin: int, outMax: int)
    requires inMin < inMax && inMin <= x <= inMax && outMin <= outMax
    ensures outMin <= MapInt(x, inMin, inMax, outMin, outMax) <= outMax
  {
    var w, h := inMax - inMin, outMax - outMin;
    var p := (x - inMin) * h;
    MulMonotone(0, x - inMin, h);
    MulMonotone(x - inMin, w, h);
    assert 0 <= p <= h * w;
    DivMonotone(p, h * w, w);
    DivOfMultiple(h, w);
    assert TruncDiv(p, w) == p / w;
  }

  /** Dividing by a positive w keeps the order. */
  lemma DivMonotone(a: int, b: int, w: int)
    requires 0 <= a <= b && w > 0
    ensures a / w <= b / w
  {
    var qa, qb := a / w, b / w;
    assert a == qa * w + a % w && b == qb * w + b % w;
    assert (qa - qb) * w == a - b + b % w - a % w;
    MultipleBelow(qa - qb, w);
  }

  // ------------------------------------------------------------ splitString

  /** Length of the leading run of `s` that holds no `d`. */
  function RunEnd(s: string, d: char): (e: nat)
    ensures e <= |s|
    ensures forall k :: 0 <= k < e ==> s[k] != d
    ensures e < |s| ==> s[e] == d
  {
    if s == [] || s[0] == d then 0 else 1 + RunEnd(s[1..], d)
  }

  /** The maximal runs of non-`d` characters of `s`, left to right. */
  function Tokens(s: string, d: char): seq<string>
    decreases |s|
  {
    if s == [] then []
    else if s[0] == d then Tokens(s[1..], d)
    else var e := RunEnd(s, d); [s[..e]] + Tokens(s[e..], d)
  }

  /** Any index with the properties of `RunEnd` is `RunEnd`. */
  lemma RunEndIs(s: string, d: char, e: nat)
    requires e <= |s| && (forall k :: 0 <= k < e ==> s[k] != d) && (e < |s| ==> s[e] == d)
    ensures RunEnd(s, d) == e
  {
  }

  /** Every token is non-empty and holds no delimiter. */
  lemma {:induction false} TokensWellFormed(s: string, d: char)
    ensures forall t :: t in Tokens(s, d) ==> t != [] && d !in t
    decreases |s|
  {
    if s != [] {
      if s[0] == d {
        TokensWellFormed(s[1..], d);
      } else {
        var e := RunEnd(s, d);
        TokensWellFormed(s[e..], d);
        assert forall k :: 0 <= k < e ==> s[..e][k] != d;
      }
    }
  }

  /** `ts` joined with one `d` between neighbours. */
  function Join(ts: seq<string>, d: char): string
  {
    if ts == [] then []
    else if |ts| == 1 then ts[0]
    else ts[0] + [d] + Join(ts[1..], d)
  }

  /** Round trip: splitting the join of well-formed tokens gives the tokens back. */
  lemma {:induction false} TokensOfJoin(ts: seq<string>, d: char)
    requires forall t :: t in ts ==> t != [] && d !in t
    ensures Tokens(Join(ts, d), d) == ts
  {
    if ts != [] {
      var t := ts[0];
      var s := Join(ts, d);
      assert t in ts;
      if |ts| == 1 {
        RunEndIs(s, d, |t|);
        assert s[..|t|] == t && s[|t|..] == [];
      } else {
        var rest := Join(ts[1..], d);
        assert s == t + [d] + rest;
        assert forall k :: 0 <= k < |t| ==> s[k] == t[k];
        RunEndIs(s, d, |t|);
        assert s[..|t|] == t;
        assert s[|t|..] == [d] + rest;
        assert ([d] + rest)[1..] == rest;
        assert forall u :: u in ts[1..] ==> u in ts;
        TokensOfJoin(ts[1..], d);
        assert ts == [t] + ts[1..];
      }
    }
  }

  /** Skipping a stretch of delimiters does not change the tokens. */
  lemma {:induction false} TokensSkip(s: string, d: char, b: nat, i: nat)
    requires b <= i <= |s| && forall k :: b <= k < i ==> s[k] == d
    ensures Tokens(s[b..], d) == Tokens(s[i..], d)
    decreases i - b
  {
    if b < i {
      assert s[b..][1..] == s[b + 1..];
      TokensSkip(s, d, b + 1, i);
    }
  }

  /** A run from `i` to the next delimiter `e` is the next token. */
  lemma TokensRun(s: string, d: char, i: nat, e: nat)
    requires i < e <= |s| && forall k :: i <= k < e ==> s[k] != d
    requires e < |s| ==> s[e] == d
    ensures Tokens(s[i..], d) == [s[i..e]] + Tokens(s[e..], d)
  {
    var t := s[i..];
    RunEndIs(t, d, e - i);
    assert t[..e - i] == s[i..e];
    assert t[e - i..] == s[e..];
  }

  /** `std::string::find_first_not_of(d, from)`, with |s| for npos. */
  method FindFirstNotOf(s: string, d: char, from: nat) returns (i: nat)
    requires from <= |s|
    ensures from <= i <= |s| && (forall k :: from <= k < i ==> s[k] == d) && (i < |s| ==> s[i] != d)
  {
    i := from;
    while i < |s| && s[i] == d
      invariant from <= i <= |s| && forall k :: from <= k < i ==> s[k] == d
    {
      i := i + 1;
    }
  }

  /** `std::string::find_first_of(d, from)`, with |s| for npos. */
  method FindFirstOf(s: string, d: char, from: nat) returns (e: nat)
    requires from <= |s|
    ensures from <= e <= |s| && (forall k :: from <= k < e ==> s[k] != d) && (e < |s| ==> s[e] == d)
  {
    e := from;
    while e < |s| && s[e] != d
      invariant from <= e <= |s| && forall k :: from <= k < e ==> s[k] != d
    {
      e := e + 1;
    }
  }

  /**
   * `splitString`: the non-empty pieces between delimiters, in order; runs
   * of delimiters and delimiters at either end produce no empty piece.
   */
  method SplitString(s: string, d: char) returns (r: seq<string>)
    ensures r == Tokens(s, d)
  {
    var b := 0;
    r := [];
    while true
      invariant b <= |s| && r + Tokens(s[b..], d) == Tokens(s, d)
      decreases |s| - b
    {
      var i := FindFirstNotOf(s, d, b);
      TokensSkip(s, d, b, i);
      if i == |s| {
        assert r + [] == r;
        return;
      }
      var e := FindFirstOf(s, d, i);
      TokensRun(s, d, i, e);
      r := r + [s[i..e]];
      b := e;
    }
  }

  // ------------------------------------------------ split at one occurrence

  /** `parts` without its empty strings. */
  function NonEmpty(parts: seq<string>): (r: seq<string>)
    ensures forall t :: t in r ==> t != [] && t in parts
  {
    if parts == [] then []
    else (if parts[0] == [] then [] else [parts[0]]) + NonEmpty(parts[1..])
  }

  /** Dropping the empty strings of a pair keeps the non-empty ones in order. */
  lemma NonEmptyPair(a: string, b: string)
    ensures NonEmpty([a, b]) == (if a == [] then [] else [a]) + (if b == [] then [] else [b])
  {
    assert [a, b][1..] == [b];
    assert [b][1..] == [];
    assert NonEmpty([b]) == (if b == [] then [] else [b]) + NonEmpty([]);
  }

  /** Index of the first `d` in `s`. */
  function FirstIndex(s: string, d: char): (i: nat)
    requires d in s
    ensures i < |s| && s[i] == d && d !in s[..i]
  {
    if s[0] == d then 0 else 1 + FirstIndex(s[1..], d)
  }

  /** The first `d` is at `at` when `s[at]` is `d` and none comes before it. */
  lemma {:induction false} FirstIndexIs(s: string, d: char, at: nat)
    requires at < |s| && s[at] == d && d !in s[..at]
    ensures FirstIndex(s, d) == at
  {
    if at > 0 {
      assert s[..at][0] == s[0];
      assert s[1..][at - 1] == d;
      assert s[1..][..at - 1] == s[..at][1..];
      FirstIndexIs(s[1..], d, at - 1);
    }
  }

  /** The last `d` is at `at` when `s[at]` is `d` and none comes after it. */
  lemma {:induction false} LastIndexIs(s: string, d: char, at: nat)
    requires at < |s| && s[at] == d && d !in s[at + 1..]
    ensures LastIndex(s, d) == at
  {
    if at < |s| - 1 {
      assert s[at + 1..][|s| - at - 2] == s[|s| - 1];
      var init := s[..|s| - 1];
      assert init[at] == d;
      assert init[at + 1..] == s[at + 1..][..|s| - at - 2];
      LastIndexIs(init, d, at);
    }
  }

  /** Index of the last `d` in `s`. */
  function LastIndex(s: string, d: char): (i: nat)
    requires d in s
    ensures i < |s| && s[i] == d && d !in s[i + 1..]
  {
    if s[|s| - 1] == d then |s| - 1
    else
      assert d in s[..|s| - 1] by {
        var k :| 0 <= k < |s| && s[k] == d;
        assert s[..|s| - 1][k] == d;
      }
      LastIndex(s[..|s| - 1], d)
  }

  /**
   * `splitStringAtFirstOccurence`: [s] when `d` does not occur; otherwise
   * the text before the first `d` and the text after it, each dropped when
   * empty.
   */
  method SplitAtFirst(s: string, d: char) returns (r: seq<string>)
    ensures d !in s ==> r == [s]
    ensures d in s ==> r == NonEmpty([s[..FirstIndex(s, d)], s[FirstIndex(s, d) + 1..]])
  {
    var first: string := [];
    var last: string := [];
    var found := false;
    var at := 0;
    for i := 0 to |s|
      invariant !found ==> first == s[..i] && last == [] && d !in s[..i]
      invariant found ==> at < i && s[at] == d && d !in s[..at] && first == s[..at] && last == s[at + 1..i]
    {
      if !found {
        if s[i] == d {
          found := true;
          at := i;
        } else {
          first := first + [s[i]];
        }
      } else {
        last := last + [s[i]];
      }
    }
    assert s[..|s|] == s;
    if found {
      assert d in s;
      assert FirstIndex(s, d) == at by {
        FirstIndexIs(s, d, at);
      }
      NonEmptyPair(first, last);
      r := [];
      if |first| > 0 {
        r := r + [first];
      }
      if |last| > 0 {
        r := r + [last];
      }
    } else {
      r := [s];
    }
  }

  /**
   * `splitStringAtLastOccurence`: [s] when `d` does not occur; otherwise
   * the text before the last `d` and the text after it, each dropped when
   * empty. The source scans from the end, prepending characters.
   */
  method SplitAtLast(s: string, d: char) returns (r: seq<string>)
    ensures d !in s ==> r == [s]
    ensures d in s ==> r == NonEmpty([s[..LastIndex(s, d)], s[LastIndex(s, d) + 1..]])
  {
    var first: string := [];
    var last: string := [];
    var found := false;
    var at := 0;
    var i := |s|;
    while i > 0
      invariant 0 <= i <= |s|
      invariant !found ==> last == s[i..] && first == [] && d !in s[i..]
      invariant found ==> i <= at < |s| && s[at] == d && d !in s[at + 1..] && last == s[at + 1..] && first == s[i..at]
    {
      i := i - 1;
      if !found {
        if s[i] == d {
          found := true;
          at := i;
        } else {
          last := [s[i]] + last;
        }
      } else {
        first := [s[i]] + first;
      }
    }
    assert s[0..] == s;
    if found {
      assert d in s;
      assert LastIndex(s, d) == at by {
        LastIndexIs(s, d, at);
      }
      NonEmptyPair(first, last);
      r := [];
      if |first| > 0 {
        r := r + [first];
      }
      if |last| > 0 {
        r := r + [last];
      }
    } else {
      r := [s];
    }
  }

  /**
   * Whenever both pieces of a split at the first occurrence survive, they
   * rebuild the string around the delimiter, and the first holds no delimiter.
   */
  lemma SplitAtFirstRebuilds(s: string, d: char)
    requires d in s
    ensures var i := FirstIndex(s, d);
      s == s[..i] + [d] + s[i + 1..] && d !in s[..i] &&
      (|NonEmpty([s[..i], s[i + 1..]])| == 2 ==> Join(NonEmpty([s[..i], s[i + 1..]]), d) == s)
  {
    var i := FirstIndex(s, d);
    var parts := [s[..i], s[i + 1..]];
    assert s == s[..i] + [d] + s[i + 1..];
    if |NonEmpty(parts)| == 2 {
      assert NonEmpty(parts[1..][1..]) == [];
      assert NonEmpty(parts[1..]) == [s[i + 1..]];
      assert NonEmpty(parts) == parts;
      assert Join(parts[1..], d) == s[i + 1..];
    }
  }

  // ------------------------------------------------------- getFileExtension

  /** Index of the last '.' or '/' in `s`, if any. */
  function LastSeparator(s: string): (r: Option<nat>)
    ensures r.Some? ==> r.value < |s| && (s[r.value] == '.' || s[r.value] == '/')
    ensures r.Some? ==> forall k :: r.value < k < |s| ==> s[k] != '.' && s[k] != '/'
    ensures r.None? ==> forall k :: 0 <= k < |s| ==> s[k] != '.' && s[k] != '/'
  {
    if s == [] then None
    else if s[|s| - 1] == '.' || s[|s| - 1] == '/' then Some(|s| - 1)
    else LastSeparator(s[..|s| - 1])
  }

  /**
   * What `getFileExtension` returns: the text after the last '.', or ""
   * when a '/' comes after every '.'; with neither character the whole
   * string comes back.
   */
  function ExtensionAsWritten(s: string): string
  {
    match LastSeparator(s)
    case None => s
    case Some(j) => if s[j] == '/' then [] else s[j + 1..]
  }

  /** `getFileExtension` as written: a scan from the end collecting characters. */
  method GetFileExtensionAsWritten(s: string) returns (r: string)
    ensures r == ExtensionAsWritten(s)
  {
    r := [];
    var i := |s|;
    while i > 0
      invariant 0 <= i <= |s| && r == s[i..]
      invariant forall k :: i <= k < |s| ==> s[k] != '.' && s[k] != '/'
    {
      if s[i - 1] == '.' {
        ExtensionAt(s, i - 1);
        return;
      }
      if s[i - 1] == '/' {
        ExtensionAt(s, i - 1);
        return [];
      }
      r := [s[i - 1]] + r;
      i := i - 1;
    }
    assert s[0..] == s;
    NoSeparator(s);
  }

  /** A separator after which no separator follows is the last one. */
  lemma {:induction false} ExtensionAt(s: string, j: nat)
    requires j < |s| && (s[j] == '.' || s[j] == '/')
    requires forall k :: j < k < |s| ==> s[k] != '.' && s[k] != '/'
    ensures LastSeparator(s) == Some(j)
  {
    if j < |s| - 1 {
      var init := s[..|s| - 1];
      assert init[j] == s[j];
      assert forall k :: j < k < |init| ==> init[k] == s[k];
      ExtensionAt(init, j);
    }
  }

  /** A string without '.' or '/' has no last separator. */
  lemma {:induction false} NoSeparator(s: string)
    requires forall k :: 0 <= k < |s| ==> s[k] != '.' && s[k] != '/'
    ensures LastSeparator(s) == None
  {
    if s != [] {
      var init := s[..|s| - 1];
      assert forall k :: 0 <= k < |init| ==> init[k] == s[k];
      NoSeparator(init);
    }
  }

  /** A name without any '.' or '/' comes back whole, as if it were an extension. */
  lemma ExtensionAsWrittenOfPlainName()
    ensures ExtensionAsWritten("Makefile") == "Makefile"
  {
    PlainName();
  }

  lemma PlainName()
    ensures LastSeparator("Makefile") == None
  {
    var s := "Makefile";
    assert s[0] == 'M' && s[1] == 'a' && s[2] == 'k' && s[3] == 'e' && s[4] == 'f' && s[5] == 'i' && s[6] == 'l' && s[7] == 'e';
    NoSeparator(s);
  }

  /** The extension as evidently intended: "" when there is no '.' after the last '/'. */
  function Extension(s: string): string
  {
    match LastSeparator(s)
    case None => []
    case Some(j) => if s[j] == '/' then [] else s[j + 1..]
  }

  /** `getFileExtension` with the no-dot case returning "". */
  method GetFileExtension(s: string) returns (r: string)
    ensures r == Extension(s)
  {
    r := [];
    var i := |s|;
    while i > 0
      invariant 0 <= i <= |s| && r == s[i..]
      invariant forall k :: i <= k < |s| ==> s[k] != '.' && s[k] != '/'
    {
      if s[i - 1] == '.' {
        ExtensionAt(s, i - 1);
        return;
      }
      if s[i - 1] == '/' {
        ExtensionAt(s, i - 1);
        return [];
      }
      r := [s[i - 1]] + r;
      i := i - 1;
    }
    NoSeparator(s);
    return [];
  }

  /**
   * The corrected extension holds no '.' or '/', and a non-empty one is
   * exactly what follows the last '.' of the name, with no '/' after it.
   */
  lemma ExtensionMeaning(s: string)
    ensures '.' !in Extension(s) && '/' !in Extension(s)
    ensures Extension(s) != [] ==>
      |Extension(s)| < |s| && s[|s| - |Extension(s)| - 1] == '.' && s[|s| - |Extension(s)|..] == Extension(s)
  {
  }

  /** The extension of a path with a directory, of a plain name, and of a dotted directory. */
  lemma ExtensionExamples()
    ensures Extension("dir/example.txt") == "txt"
    ensures Extension("Makefile") == []
    ensures Extension("a.b/c") == []
  {
    PlainName();
    ExtensionAt("dir/example.txt", 11);
    assert "dir/example.txt"[12..] == "txt";
    ExtensionAt("a.b/c", 3);
  }

  // ----------------------------------------------------- character classes

  /** `isDigit`: '0' through '9'. */
  predicate IsDigit(c: char)
  {
    '0' <= c <= '9'
  }

  /** `isPrintable(char)`: codes 32 to 126, line feed and carriage return. */
  predicate IsPrintableChar(c: char)
  {
    (32 <= c as int < 127) || c as int == 10 || c as int == 13
  }

  /**
   * `isNumber`: `str.at(0)` throws on an empty string (None); otherwise
   * the first character is a digit or '-' and every other one a digit.
   */
  method IsNumber(s: string) returns (r: Option<bool>)
    ensures r.None? <==> s == []
    ensures r.Some? ==> (r.value <==> (IsDigit(s[0]) || s[0] == '-') && forall k :: 1 <= k < |s| ==> IsDigit(s[k]))
  {
    if s == [] {
      return None;
    }
    var number := true;
    if !IsDigit(s[0]) && s[0] != '-' {
      number := false;
    }
    var i := 1;
    while i < |s|
      invariant 1 <= i <= |s|
      invariant number <==> (IsDigit(s[0]) || s[0] == '-') && forall k :: 1 <= k < i ==> IsDigit(s[k])
    {
      if !IsDigit(s[i]) {
        number := false;
      }
      i := i + 1;
    }
    return Some(number);
  }

  /** `isPrintable(std::string)`: every character is printable. */
  method IsPrintable(s: string) returns (r: bool)
    ensures r <==> forall k :: 0 <= k < |s| ==> IsPrintableChar(s[k])
  {
    r := true;
    for i := 0 to |s|
      invariant r <==> forall k :: 0 <= k < i ==> IsPrintableChar(s[k])
    {
      if !IsPrintableChar(s[i]) {
        r := false;
      }
    }
  }
}
