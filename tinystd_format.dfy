// TinyStd's `format<MaxSize>(arena, fmt, args...)`: copies `fmt` into a
// buffer of MaxSize characters, turning `{{` into `{` and `}}` into `}`, and
// replacing the n-th `{...}` by the n-th argument. An argument is modelled
// by the text its formatter produces; what matters is how that text reaches
// the buffer. `ts::String` and `ts::StringBuffer` are copied byte by byte
// (`Copied`); every other type goes through `vsnprintf`, which keeps one
// byte for the terminating NUL (`Printed`).

module TinyFormat {

  datatype Arg = Copied(text: string) | Printed(text: string)

  /** The text of the k-th argument; a placeholder without an argument adds nothing. */
  function ArgText(args: seq<Arg>, k: nat): string
  {
    if k < |args| then args[k].text else []
  }

  /**
   * What the rest of the template, from index i, expands to with an
   * unbounded buffer. `parsing` is "inside a `{...}` placeholder" and k is
   * the index of the next argument.
   */
  function Rest(fmt: string, i: nat, parsing: bool, k: nat, args: seq<Arg>): string
    decreases |fmt| - i
  {
    if i >= |fmt| then []
    else if !parsing then
      if fmt[i] == '{' && !(i + 1 < |fmt| && fmt[i + 1] == '{') then Rest(fmt, i + 1, true, k, args)
      else if fmt[i] == '{' then "{" + Rest(fmt, i + 2, false, k, args)
      else if fmt[i] == '}' && i + 1 < |fmt| && fmt[i + 1] == '}' then "}" + Rest(fmt, i + 2, false, k, args)
      else [fmt[i]] + Rest(fmt, i + 1, false, k, args)
    else if fmt[i] == '}' then ArgText(args, k) + Rest(fmt, i + 1, false, k + 1, args)
    else Rest(fmt, i + 1, true, k, args)
  }

  /** The expansion of a whole template when nothing is cut off. */
  function Expand(fmt: string, args: seq<Arg>): string
  {
    Rest(fmt, 0, false, 0, args)
  }

  /** Text written so that it comes out literally: every brace doubled. */
  function Escape(s: string): (r: string)
    ensures |r| >= |s|
  {
    if s == [] then []
    else (if s[0] == '{' || s[0] == '}' then [s[0], s[0]] else [s[0]]) + Escape(s[1..])
  }

  /** An escaped text, followed by anything, expands to itself followed by the expansion of what follows. */
  lemma {:induction false} EscapedPrefix(s: string, t: string, k: nat, args: seq<Arg>)
    ensures Rest(Escape(s) + t, 0, false, k, args) == s + Rest(t, 0, false, k, args)
  {
    if s != [] {
      EscapedPrefix(s[1..], t, k, args);
      var fmt := Escape(s) + t;
      var tail := Escape(s[1..]) + t;
      var brace := s[0] == '{' || s[0] == '}';
      var n := if brace then 2 else 1;
      var head := if brace then [s[0], s[0]] else [s[0]];
      assert Escape(s) == head + Escape(s[1..]);
      assert fmt == head + tail;
      assert fmt[n..] == tail;
      assert fmt[0] == s[0];
      assert brace ==> fmt[1] == s[0];
      RestShift(fmt, n, k, args);
      assert Rest(fmt, 0, false, k, args) == [s[0]] + Rest(fmt, n, false, k, args);
      assert s == [s[0]] + s[1..];
    } else {
      assert Escape(s) + t == t;
    }
  }

  /** Expanding from index n is expanding the template with its first n characters dropped. */
  lemma {:induction false} RestShift(fmt: string, n: nat, k: nat, args: seq<Arg>)
    requires n <= |fmt|
    ensures Rest(fmt, n, false, k, args) == Rest(fmt[n..], 0, false, k, args)
  {
    RestShiftFrom(fmt, n, 0, false, k, args);
  }

  lemma {:induction false} RestShiftFrom(fmt: string, n: nat, i: nat, parsing: bool, k: nat, args: seq<Arg>)
    requires n <= |fmt|
    ensures Rest(fmt, n + i, parsing, k, args) == Rest(fmt[n..], i, parsing, k, args)
    decreases |fmt| - n - i
  {
    if n + i < |fmt| {
      var g := fmt[n..];
      assert g[i] == fmt[n + i];
      assert i + 1 < |g| ==> g[i + 1] == fmt[n + i + 1];
      RestShiftFrom(fmt, n, i + 1, true, k, args);
      RestShiftFrom(fmt, n, i + 1, false, k, args);
      RestShiftFrom(fmt, n, i + 1, false, k + 1, args);
      RestShiftFrom(fmt, n, i + 2, false, k, args);
    }
  }

  /** Round trip: a template made by escaping a text expands back to that text. */
  lemma EscapeRoundTrip(s: string, args: seq<Arg>)
    ensures Expand(Escape(s), args) == s
  {
    EscapedPrefix(s, [], 0, args);
    assert Escape(s) + [] == Escape(s);
    assert s + [] == s;
  }

  /** An empty placeholder between two escaped texts is replaced by the first argument. */
  lemma {:induction false} PlaceholderFilled(p: string, q: string, a: Arg)
    ensures Expand(Escape(p) + "{}" + Escape(q), [a]) == p + a.text + q
  {
    var args := [a];
    var t := "{}" + Escape(q);
    EscapedPrefix(p, t, 0, args);
    assert t[0] == '{' && t[1] == '}';
    assert Rest(t, 0, false, 0, args) == Rest(t, 1, true, 0, args);
    assert Rest(t, 1, true, 0, args) == a.text + Rest(t, 2, false, 1, args);
    RestShift(t, 2, 1, args);
    assert t[2..] == Escape(q) + [];
    EscapedPrefix(q, [], 1, args);
    assert Rest(t, 0, false, 0, args) == a.text + q;
    assert Escape(p) + "{}" + Escape(q) == Escape(p) + t;
  }

  /**
   * `formatter<String>::format` as written: copies at most the remaining
   * room but returns the full length of the text, which `format_impl` adds
   * to the buffer length.
   */
  function CopiedLengthAsWritten(text: string, remaining: nat): (n: nat)
    ensures n == |text|
  {
    |text|
  }

  /**
   * A `String` argument longer than the buffer pushes the buffer length past
   * MaxSize: with MaxSize 4, `format("{}", "hello")` ends with a length of
   * 5, and `String::clone` then copies 5 bytes out of a 4-byte buffer.
   */
  lemma CopiedLengthOverrunsBuffer()
    ensures var maxSize, buflen := 4, 0;
      buflen + CopiedLengthAsWritten("hello", maxSize - buflen) > maxSize
  {
  }

  /** The length `formatter<String>` evidently means to report: what it copied. */
  function CopiedLength(text: string, remaining: nat): (n: nat)
    ensures n <= remaining && n <= |text|
    ensures n == |text| || n == remaining
  {
    if |text| <= remaining then |text| else remaining
  }

  /**
   * What `vsnprintf(buffer, remaining, ...)` leaves in the buffer: at most
   * remaining - 1 characters, then the NUL that `strlen` stops at. With no
   * room left at all the call writes nothing.
   */
  function PrintedLength(text: string, remaining: nat): (n: nat)
    ensures n <= |text|
    ensures remaining > 0 ==> n < remaining && (n == |text| || n == remaining - 1)
    ensures remaining == 0 ==> n == 0
  {
    if remaining == 0 then 0
    else if |text| < remaining then |text|
    else remaining - 1
  }

  /** How many characters of an argument reach the buffer, given the room left. */
  function ArgLength(a: Arg, remaining: nat): (n: nat)
    ensures n <= remaining && n <= |a.text|
    ensures |a.text| < remaining ==> n == |a.text|
  {
    match a
    case Copied(text) => CopiedLength(text, remaining)
    case Printed(text) => PrintedLength(text, remaining)
  }

  /** `__format_concat` of one character: dropped once the buffer is full. */
  function Put(buf: string, c: char, maxSize: nat): (r: string)
    ensures |buf| < maxSize ==> r == buf + [c]
    ensures |buf| >= maxSize ==> r == buf
  {
    if |buf| < maxSize then buf + [c] else buf
  }

  /**
   * One pass of the `format` loop at index i: the next index, the buffer
   * and the parser state after it. While the rest of the expansion fits,
   * the buffer followed by what the remaining template expands to is
   * unchanged.
   */
  method FormatStep(fmt: string, args: seq<Arg>, maxSize: nat, buf: string, parsing: bool, argIndex: nat, i: nat)
    returns (buf': string, parsing': bool, argIndex': nat, i': nat)
    requires i < |fmt| && |buf| <= maxSize
    ensures i < i' <= |fmt| && |buf'| <= maxSize
    ensures |buf + Rest(fmt, i, parsing, argIndex, args)| < maxSize ==>
      buf' + Rest(fmt, i', parsing', argIndex', args) == buf + Rest(fmt, i, parsing, argIndex, args)
  {
    buf', parsing', argIndex', i' := buf, parsing, argIndex, i;
    var c := fmt[i];
    var cnext := if i != |fmt| - 1 then fmt[i + 1] else '\0';
    if !parsing {
      if c == '{' && cnext != '{' {
        parsing' := true;
      } else if c == '{' && cnext == '{' {
        buf' := Put(buf, c, maxSize);
        i' := i + 1;
      } else if c == '}' && cnext == '}' {
        buf' := Put(buf, c, maxSize);
        i' := i + 1;
      } else {
        buf' := Put(buf, c, maxSize);
      }
    } else {
      if c == '}' {
        parsing' := false;
        if argIndex < |args| {
          var n := ArgLength(args[argIndex], maxSize - |buf|);
          buf' := buf + args[argIndex].text[..n];
        }
        argIndex' := argIndex + 1;
      }
    }
    i' := i' + 1;
  }

  /**
   * `format<MaxSize>` (with the argument lengths corrected as above): the
   * result never exceeds MaxSize characters, and when the full expansion
   * is shorter than MaxSize the result is exactly that expansion.
   */
  method Format(fmt: string, args: seq<Arg>, maxSize: nat) returns (out: string)
    ensures |out| <= maxSize
    ensures |Expand(fmt, args)| < maxSize ==> out == Expand(fmt, args)
  {
    var buf: string := [];
    var parsing := false;
    var argIndex: nat := 0;
    var i: nat := 0;
    ghost var fits := |Expand(fmt, args)| < maxSize;
    while i < |fmt|
      invariant |buf| <= maxSize
      invariant fits ==> buf + Rest(fmt, i, parsing, argIndex, args) == Expand(fmt, args)
      decreases |fmt| - i
    {
      buf, parsing, argIndex, i := FormatStep(fmt, args, maxSize, buf, parsing, argIndex, i);
    }
    out := buf;
  }
}
