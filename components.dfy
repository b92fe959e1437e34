// The class-string UI components of the SDL front end (`components.cpp`):
// `split`, `parseClass`, `parseBgClass`, and the colour and font-size
// stacks that `div` and `text` push while they lay out one element.
// Strings are `std::string`; `split` uses `std::string::find`, which for a
// non-empty needle agrees with the `find` of TinyString.

module Components {
  import opened Wrappers
  import opened TinyString
  import opened HexColor

  // ------------------------------------------------------------------ split

  /** The first occurrence of `d` in `s` at or after `pos` (`std::string::find`). */
  function NextOccurrence(s: string, d: string, pos: nat): (r: Option<nat>)
    requires d != []
    ensures r.Some? ==> pos <= r.value && OccursAt(s, d, r.value)
    ensures r.Some? ==> forall j :: pos <= j < r.value ==> !OccursAt(s, d, j)
    ensures r.None? ==> forall j :: pos <= j ==> !OccursAt(s, d, j)
    decreases |s| - pos
  {
    if pos + |d| > |s| then None
    else if s[pos..pos + |d|] == d then Some(pos)
    else NextOccurrence(s, d, pos + 1)
  }

  /** The pieces of `s[pos..]` between occurrences of `d`, empty pieces included. */
  function Pieces(s: string, d: string, pos: nat): (r: seq<string>)
    requires d != [] && pos <= |s|
    ensures r != []
    decreases |s| - pos
  {
    match NextOccurrence(s, d, pos)
    case None => [s[pos..]]
    case Some(i) => [s[pos..i]] + Pieces(s, d, i + |d|)
  }

  /** `ps` joined with `d` between neighbours. */
  function JoinWith(ps: seq<string>, d: string): string
  {
    if ps == [] then []
    else if |ps| == 1 then ps[0]
    else ps[0] + d + JoinWith(ps[1..], d)
  }

  /** Round trip: joining the pieces with the delimiter rebuilds the string. */
  lemma {:induction false} JoinPieces(s: string, d: string, pos: nat)
    requires d != [] && pos <= |s|
    ensures JoinWith(Pieces(s, d, pos), d) == s[pos..]
    decreases |s| - pos
  {
    match NextOccurrence(s, d, pos)
    case None =>
    case Some(i) =>
      JoinPieces(s, d, i + |d|);
      var rest := Pieces(s, d, i + |d|);
      assert Pieces(s, d, pos)[1..] == rest;
      assert s[pos..] == s[pos..i] + d + s[i + |d|..];
  }

  /** A stretch with no occurrence of a one-character delimiter does not hold that character. */
  lemma NoCharBetween(s: string, c: char, lo: nat, hi: nat)
    requires lo <= hi <= |s|
    requires forall j :: lo <= j < hi ==> !OccursAt(s, [c], j)
    ensures c !in s[lo..hi] && multiset(s[lo..hi])[c] == 0
  {
    forall k | lo <= k < hi
      ensures s[k] != c
    {
      assert !OccursAt(s, [c], k);
      assert s[k..k + 1] == [s[k]];
    }
  }

  /** Occurrences inside a slice are occurrences in the whole string. */
  lemma OccursInSlice(s: string, d: string, lo: nat, hi: nat, j: nat)
    requires lo <= hi <= |s|
    ensures OccursAt(s[lo..hi], d, j) ==> OccursAt(s, d, lo + j)
  {
    if OccursAt(s[lo..hi], d, j) {
      forall k | 0 <= k < |d|
        ensures s[lo + j..lo + j + |d|][k] == d[k]
      {
        assert s[lo..hi][j..j + |d|][k] == d[k];
      }
    }
  }

  /** No piece holds the delimiter. */
  lemma {:induction false} PiecesFree(s: string, d: string, pos: nat)
    requires d != [] && pos <= |s|
    ensures forall p, j: nat :: p in Pieces(s, d, pos) ==> !OccursAt(p, d, j)
    decreases |s| - pos
  {
    match NextOccurrence(s, d, pos)
    case None =>
      assert s[pos..] == s[pos..|s|];
      forall j: nat
        ensures !OccursAt(s[pos..|s|], d, j)
      {
        OccursInSlice(s, d, pos, |s|, j);
      }
    case Some(i) =>
      PiecesFree(s, d, i + |d|);
      forall j: nat
        ensures !OccursAt(s[pos..i], d, j)
      {
        OccursInSlice(s, d, pos, i, j);
      }
  }

  /** With a one-character delimiter there is one piece more than there are delimiters. */
  lemma {:induction false} PiecesCount(s: string, c: char, pos: nat)
    requires pos <= |s|
    ensures |Pieces(s, [c], pos)| == multiset(s[pos..])[c] + 1
    decreases |s| - pos
  {
    match NextOccurrence(s, [c], pos)
    case None =>
      CountWithout(s, c, pos);
    case Some(i) =>
      PiecesCount(s, c, i + 1);
      CountToOccurrence(s, c, pos, i);
  }

  /** No occurrence from `pos` on: no `c` in the rest of the string. */
  lemma CountWithout(s: string, c: char, pos: nat)
    requires pos <= |s| && forall j :: pos <= j ==> !OccursAt(s, [c], j)
    ensures multiset(s[pos..])[c] == 0
  {
    NoCharBetween(s, c, pos, |s|);
    assert s[pos..] == s[pos..|s|];
  }

  /** The first occurrence from `pos` on is the first `c`: one `c` up to it and past it. */
  lemma CountToOccurrence(s: string, c: char, pos: nat, i: nat)
    requires pos <= i && OccursAt(s, [c], i)
    requires forall j :: pos <= j < i ==> !OccursAt(s, [c], j)
    ensures multiset(s[pos..])[c] == multiset(s[i + 1..])[c] + 1
  {
    NoCharBetween(s, c, pos, i);
    assert s[i..i + 1] == [c];
    CountAround(s, c, pos, i);
  }

  /** Splitting at a `c`: the count of `c` is the counts on either side, plus one. */
  lemma CountAround(s: string, c: char, pos: nat, i: nat)
    requires pos <= i < |s| && s[i] == c
    ensures multiset(s[pos..])[c] == multiset(s[pos..i])[c] + 1 + multiset(s[i + 1..])[c]
  {
    assert s[pos..] == s[pos..i] + [c] + s[i + 1..];
    assert multiset(s[pos..]) == multiset(s[pos..i]) + multiset([c]) + multiset(s[i + 1..]);
  }

  /** Any occurrence-free stretch ending at an occurrence is where `NextOccurrence` stops. */
  lemma NextOccurrenceIs(s: string, d: string, pos: nat, r: Option<nat>)
    requires d != []
    requires r.Some? ==> pos <= r.value && OccursAt(s, d, r.value)
    requires r.Some? ==> forall j :: pos <= j < r.value ==> !OccursAt(s, d, j)
    requires r.None? ==> forall j :: pos <= j ==> !OccursAt(s, d, j)
    ensures NextOccurrence(s, d, pos) == r
  {
    var n := NextOccurrence(s, d, pos);
    if n.Some? && r.Some? {
      assert !(n.value < r.value) && !(r.value < n.value);
    }
  }

  /** `s.find(d, pos)` for a non-empty delimiter is the next occurrence. */
  method FindNext(s: string, d: string, pos: nat) returns (f: Option<nat>)
    requires d != []
    ensures f == NextOccurrence(s, d, pos)
  {
    f := Find(s, d, pos);
    NextOccurrenceIs(s, d, pos, f);
  }

  /** One round of `split`: the next piece moves from the pieces still to come to the result. */
  lemma SplitStep(s: string, d: string, pos: nat, res: seq<string>, i: nat)
    requires d != [] && pos <= |s| && res + Pieces(s, d, pos) == Pieces(s, d, 0)
    requires NextOccurrence(s, d, pos) == Some(i)
    ensures pos <= i && i + |d| <= |s|
    ensures (res + [s[pos..i]]) + Pieces(s, d, i + |d|) == Pieces(s, d, 0)
  {
    assert res + ([s[pos..i]] + Pieces(s, d, i + |d|)) == (res + [s[pos..i]]) + Pieces(s, d, i + |d|);
  }

  /** The last round of `split`: with no occurrence left, the rest of the string is the last piece. */
  lemma SplitFinal(s: string, d: string, pos: nat, res: seq<string>)
    requires d != [] && pos <= |s| && res + Pieces(s, d, pos) == Pieces(s, d, 0)
    requires NextOccurrence(s, d, pos).None?
    ensures res + [s[pos..]] == Pieces(s, d, 0)
  {
  }

  /** One round of `split`'s loop: the piece up to the next occurrence is appended, and the search moves past it. */
  method SplitRound(s: string, d: string, pos: nat, res: seq<string>, f: Option<nat>)
    returns (res': seq<string>, pos': nat, f': Option<nat>)
    requires d != [] && pos <= |s| && f.Some? && f == NextOccurrence(s, d, pos)
    requires res + Pieces(s, d, pos) == Pieces(s, d, 0)
    ensures pos < pos' <= |s| && f' == NextOccurrence(s, d, pos')
    ensures res' + Pieces(s, d, pos') == Pieces(s, d, 0)
  {
    var i := f.value;
    SplitStep(s, d, pos, res, i);
    res' := res + [s[pos..i]];
    pos' := i + |d|;
    f' := FindNext(s, d, pos');
  }

  /**
   * `split`: the pieces between occurrences of the delimiter, keeping
   * empty pieces. An empty delimiter makes the source loop forever, so
   * callers must not pass one.
   */
  method Split(s: string, d: string) returns (res: seq<string>)
    requires d != []
    ensures res == Pieces(s, d, 0)
  {
    var pos := 0;
    res := [];
    var f := FindNext(s, d, pos);
    while f.Some?
      invariant pos <= |s| && f == NextOccurrence(s, d, pos)
      invariant res + Pieces(s, d, pos) == Pieces(s, d, 0)
      decreases |s| - pos
    {
      res, pos, f := SplitRound(s, d, pos, res, f);
    }
    SplitFinal(s, d, pos, res);
    res := res + [s[pos..]];
  }

  // ------------------------------------------------------------- parseClass

  /**
   * `parseClass`: the (modifier, command) of a class such as `hover:bg-red`.
   * One piece is a bare command; two are modifier and command; more give
   * two empty strings.
   */
  function ParseClass(s: string): (string, string)
  {
    var e := Pieces(s, ":", 0);
    if |e| == 1 then ([], e[0])
    else if |e| == 2 then (e[0], e[1])
    else ([], [])
  }

  /**
   * No ':' gives ("", s); one ':' splits the class around it; two or more
   * give ("", "").
   */
  lemma ParseClassMeaning(s: string)
    ensures multiset(s)[':'] == 0 ==> ParseClass(s) == ([], s)
    ensures multiset(s)[':'] == 1 ==>
      ParseClass(s).0 + ":" + ParseClass(s).1 == s && ':' !in ParseClass(s).0 && ':' !in ParseClass(s).1
    ensures multiset(s)[':'] >= 2 ==> ParseClass(s) == ([], [])
  {
    var e := Pieces(s, ":", 0);
    PiecesCount(s, ':', 0);
    JoinPieces(s, ":", 0);
    PiecesFree(s, ":", 0);
    assert s[0..] == s;
    if |e| == 2 {
      assert e[1..] == [e[1]];
      assert e[0] in e && e[1] in e;
      NoCharIn(e[0], ':');
      NoCharIn(e[1], ':');
    }
  }

  /** A string with no occurrence of a one-character delimiter does not hold that character. */
  lemma NoCharIn(p: string, c: char)
    requires forall j: nat :: !OccursAt(p, [c], j)
    ensures c !in p
  {
    NoCharBetween(p, c, 0, |p|);
    assert p[0..|p|] == p;
  }

  // ----------------------------------------------------------- parseBgClass

  /** `std::string::starts_with`. */
  predicate StartsWithText(s: string, prefix: string)
  {
    |prefix| <= |s| && s[..|prefix|] == prefix
  }

  /**
   * `parseBgClass`: `bg-[...]` parses the text between the brackets as a
   * hex colour (`substr(4, length - 5)`, all of the rest when that count
   * wraps); `bg-name` looks the name up in the colour table; anything else
   * is not a background class.
   */
  function ParseBgClass(cls: string, colors: map<string, Color>): (r: Option<Color>)
    ensures !StartsWithText(cls, "bg-") ==> r.None?
    ensures StartsWithText(cls, "bg-[") ==> r.Some?
    ensures StartsWithText(cls, "bg-") && !StartsWithText(cls, "bg-[") ==>
      (r.Some? <==> cls[3..] in colors) && (r.Some? ==> r.value == colors[cls[3..]])
  {
    if StartsWithText(cls, "bg-[") then
      Some(HexToColor(if |cls| == 4 then [] else cls[4..|cls| - 1]))
    else if StartsWithText(cls, "bg-") then
      var value := cls[3..];
      if value in colors then Some(colors[value]) else None
    else None
  }

  /** Round trip: the class `bg-[#RRGGBBAA]` made from a colour parses back to that colour. */
  lemma BgClassOfHex(c: Color, colors: map<string, Color>)
    ensures ParseBgClass("bg-[" + ColorToHex(c) + "]", colors) == Some(c)
  {
    var cls := "bg-[" + ColorToHex(c) + "]";
    assert cls[..4] == "bg-[";
    assert cls[4..|cls| - 1] == ColorToHex(c);
    ColorRoundTrip(c);
  }

  // ------------------------------------------------------ div and text styles

  /** The commands of a class string: each space-separated class through `parseClass`. */
  function Commands(classString: string): seq<string>
  {
    var classes := Pieces(classString, " ", 0);
    seq(|classes|, i requires 0 <= i < |classes| => ParseClass(classes[i]).1)
  }

  /** The colours the `text-<colour>` commands push, in order. */
  function PushedColors(cmds: seq<string>, colors: map<string, Color>): seq<Color>
  {
    if cmds == [] then []
    else
      var c := cmds[|cmds| - 1];
      PushedColors(cmds[..|cmds| - 1], colors) +
      (if StartsWithText(c, "text-") && c[5..] in colors then [colors[c[5..]]] else [])
  }

  /** The sizes the `text-<size>` commands push (a name that is also a colour pushes a colour). */
  function PushedSizes(cmds: seq<string>, colors: map<string, Color>, sizes: map<string, int>): seq<int>
  {
    if cmds == [] then []
    else
      var c := cmds[|cmds| - 1];
      PushedSizes(cmds[..|cmds| - 1], colors, sizes) +
      (if StartsWithText(c, "text-") && c[5..] !in colors && c[5..] in sizes then [sizes[c[5..]]] else [])
  }

  /** `COLORS["black"]` / `FONT_SIZES["base"]`: a missing key reads as the default value. */
  function ColorOr(colors: map<string, Color>, key: string): Color
  {
    if key in colors then colors[key] else Color(0, 0, 0, 0)
  }

  function SizeOr(sizes: map<string, int>, key: string): int
  {
    if key in sizes then sizes[key] else 0
  }

  /** The text style in force: the top of each stack, or the defaults when a stack is empty. */
  function TextColor(stack: seq<Color>, colors: map<string, Color>): Color
  {
    if stack == [] then ColorOr(colors, "black") else stack[|stack| - 1]
  }

  function TextSize(stack: seq<int>, sizes: map<string, int>): int
  {
    if stack == [] then SizeOr(sizes, "base") else stack[|stack| - 1]
  }

  /** The background of a `div`: what the last command that `parseBgClass` accepts gives, else `none`. */
  function DivBackground(cmds: seq<string>, colors: map<string, Color>, none: Color): Color
  {
    if cmds == [] then none
    else match ParseBgClass(cmds[|cmds| - 1], colors)
      case Some(c) => c
      case None => DivBackground(cmds[..|cmds| - 1], colors, none)
  }

  /** A colour pushed by the element itself wins over any inherited colour. */
  lemma OwnColorWins(stack: seq<Color>, cmds: seq<string>, colors: map<string, Color>, name: string)
    requires name in colors
    ensures TextColor(stack + PushedColors(cmds + ["text-" + name], colors), colors) == colors[name]
  {
    var c := "text-" + name;
    assert (cmds + [c])[..|cmds + [c]| - 1] == cmds;
    assert c[..5] == "text-" && c[5..] == name;
  }

  /** Without `text-` commands the inherited colour stays in force. */
  lemma {:induction false} InheritedColor(stack: seq<Color>, cmds: seq<string>, colors: map<string, Color>)
    requires forall i :: 0 <= i < |cmds| ==> !StartsWithText(cmds[i], "text-")
    ensures PushedColors(cmds, colors) == []
    ensures TextColor(stack + PushedColors(cmds, colors), colors) == TextColor(stack, colors)
  {
    if cmds != [] {
      InheritedColor(stack, cmds[..|cmds| - 1], colors);
    }
    assert stack + [] == stack;
  }

  /** What `div` hands to the layout: background, column direction, and the text style in force. */
  datatype Style = Style(background: Color, column: bool, textColor: Color, textSize: int)

  /** The colour and font-size stacks of `UICache`. */
  class UiCache {
    var textColorStack: seq<Color>
    var textSizeStack: seq<int>

    constructor ()
      ensures textColorStack == [] && textSizeStack == []
    {
      textColorStack := [];
      textSizeStack := [];
    }

    /** The `text-` branch of `div` and `text`: a colour name pushes a colour, else a size name pushes a size. */
    method ApplyTextCommand(cmd: string, colors: map<string, Color>, sizes: map<string, int>)
      returns (pushedColor: nat, pushedSize: nat)
      modifies this
      ensures textColorStack == old(textColorStack) + PushedColors([cmd], colors)
      ensures textSizeStack == old(textSizeStack) + PushedSizes([cmd], colors, sizes)
      ensures pushedColor == |PushedColors([cmd], colors)| && pushedSize == |PushedSizes([cmd], colors, sizes)|
    {
      assert [cmd][..0] == [];
      pushedColor, pushedSize := 0, 0;
      if StartsWithText(cmd, "text-") {
        var value := cmd[5..];
        if value in colors {
          textColorStack := textColorStack + [colors[value]];
          pushedColor := 1;
        } else if value in sizes {
          textSizeStack := textSizeStack + [sizes[value]];
          pushedSize := 1;
        }
      }
    }

    /** The closing loops of `div` and `text`: pop as many entries as were pushed. */
    method PopStyles(colorsPushed: nat, sizesPushed: nat)
      requires colorsPushed <= |textColorStack| && sizesPushed <= |textSizeStack|
      modifies this
      ensures textColorStack == old(textColorStack)[..|old(textColorStack)| - colorsPushed]
      ensures textSizeStack == old(textSizeStack)[..|old(textSizeStack)| - sizesPushed]
    {
      var i := 0;
      while i < colorsPushed
        invariant i <= colorsPushed && textColorStack == old(textColorStack)[..|old(textColorStack)| - i]
        invariant textSizeStack == old(textSizeStack)
      {
        textColorStack := textColorStack[..|textColorStack| - 1];
        i := i + 1;
      }
      i := 0;
      while i < sizesPushed
        invariant i <= sizesPushed && textSizeStack == old(textSizeStack)[..|old(textSizeStack)| - i]
        invariant textColorStack == old(textColorStack)[..|old(textColorStack)| - colorsPushed]
      {
        textSizeStack := textSizeStack[..|textSizeStack| - 1];
        i := i + 1;
      }
    }

    /** One pass of `div`'s loop: `col`, else a background class, else the `text-` branch. */
    method DivStep(ghost baseColors: seq<Color>, ghost baseSizes: seq<int>, ghost done: seq<string>, cmd: string,
                   colors: map<string, Color>, sizes: map<string, int>,
                   background: Color, column: bool, colorsPushed: nat, sizesPushed: nat)
      returns (background': Color, column': bool, colorsPushed': nat, sizesPushed': nat)
      requires background == DivBackground(done, colors, Color(0, 0, 0, 0))
      requires column <==> "col" in done
      requires textColorStack == baseColors + PushedColors(done, colors)
      requires textSizeStack == baseSizes + PushedSizes(done, colors, sizes)
      requires colorsPushed == |PushedColors(done, colors)| && sizesPushed == |PushedSizes(done, colors, sizes)|
      modifies this
      ensures background' == DivBackground(done + [cmd], colors, Color(0, 0, 0, 0))
      ensures column' <==> "col" in done + [cmd]
      ensures textColorStack == baseColors + PushedColors(done + [cmd], colors)
      ensures textSizeStack == baseSizes + PushedSizes(done + [cmd], colors, sizes)
      ensures colorsPushed' == |PushedColors(done + [cmd], colors)|
      ensures sizesPushed' == |PushedSizes(done + [cmd], colors, sizes)|
    {
      CommandCases(done, cmd, colors, sizes);
      background', column', colorsPushed', sizesPushed' := background, column, colorsPushed, sizesPushed;
      var bg := ParseBgClass(cmd, colors);
      if cmd == "col" {
        column' := true;
      } else if bg.Some? {
        background' := bg.value;
      } else {
        var c, s := ApplyTextCommand(cmd, colors, sizes);
        colorsPushed', sizesPushed' := colorsPushed + c, sizesPushed + s;
      }
    }

    /** The loop of `div`: walks the commands once, pushing text styles as it goes. */
    method DivWalk(cmds: seq<string>, colors: map<string, Color>, sizes: map<string, int>)
      returns (background: Color, column: bool, colorsPushed: nat, sizesPushed: nat)
      modifies this
      ensures background == DivBackground(cmds, colors, Color(0, 0, 0, 0))
      ensures column <==> "col" in cmds
      ensures textColorStack == old(textColorStack) + PushedColors(cmds, colors)
      ensures textSizeStack == old(textSizeStack) + PushedSizes(cmds, colors, sizes)
      ensures colorsPushed == |PushedColors(cmds, colors)| && sizesPushed == |PushedSizes(cmds, colors, sizes)|
    {
      background, column := Color(0, 0, 0, 0), false;
      colorsPushed, sizesPushed := 0, 0;
      for k := 0 to |cmds|
        invariant background == DivBackground(cmds[..k], colors, Color(0, 0, 0, 0))
        invariant column <==> "col" in cmds[..k]
        invariant textColorStack == old(textColorStack) + PushedColors(cmds[..k], colors)
        invariant textSizeStack == old(textSizeStack) + PushedSizes(cmds[..k], colors, sizes)
        invariant colorsPushed == |PushedColors(cmds[..k], colors)|
        invariant sizesPushed == |PushedSizes(cmds[..k], colors, sizes)|
      {
        assert cmds[..k + 1] == cmds[..k] + [cmds[k]];
        background, column, colorsPushed, sizesPushed :=
          DivStep(old(textColorStack), old(textSizeStack), cmds[..k], cmds[k], colors, sizes,
            background, column, colorsPushed, sizesPushed);
      }
      assert cmds[..|cmds|] == cmds;
    }

    /**
     * `div`: walks the commands of the class string once, taking `col` as
     * the column direction, a background class as the background (the last
     * one wins), and pushing the text styles of `text-` commands; lays the
     * element out with the text style then in force (the stack tops, or
     * `COLORS["black"]` and `FONT_SIZES["base"]`); then pops what it pushed,
     * so both stacks end as they began. The child callback runs between the
     * two and is taken to leave the stacks as it found them, as every `div`
     * and `text` does.
     */
    method Div(classString: string, colors: map<string, Color>, sizes: map<string, int>) returns (style: Style)
      modifies this
      ensures textColorStack == old(textColorStack) && textSizeStack == old(textSizeStack)
      ensures var cmds := Commands(classString);
        style == Style(DivBackground(cmds, colors, Color(0, 0, 0, 0)), "col" in cmds,
          TextColor(old(textColorStack) + PushedColors(cmds, colors), colors),
          TextSize(old(textSizeStack) + PushedSizes(cmds, colors, sizes), sizes))
    {
      var cmds := Commands(classString);
      var background, column, colorsPushed, sizesPushed := DivWalk(cmds, colors, sizes);
      style := Style(background, column, TextColor(textColorStack, colors), TextSize(textSizeStack, sizes));
      PopStyles(colorsPushed, sizesPushed);
    }

    /** One pass of `text`'s loop: a `bg-` class sets the unused background, else the `text-` branch. */
    method TextStep(ghost baseColors: seq<Color>, ghost baseSizes: seq<int>, ghost done: seq<string>, cmd: string,
                    colors: map<string, Color>, sizes: map<string, int>, colorsPushed: nat, sizesPushed: nat)
      returns (colorsPushed': nat, sizesPushed': nat)
      requires textColorStack == baseColors + PushedColors(done, colors)
      requires textSizeStack == baseSizes + PushedSizes(done, colors, sizes)
      requires colorsPushed == |PushedColors(done, colors)| && sizesPushed == |PushedSizes(done, colors, sizes)|
      modifies this
      ensures textColorStack == baseColors + PushedColors(done + [cmd], colors)
      ensures textSizeStack == baseSizes + PushedSizes(done + [cmd], colors, sizes)
      ensures colorsPushed' == |PushedColors(done + [cmd], colors)|
      ensures sizesPushed' == |PushedSizes(done + [cmd], colors, sizes)|
    {
      CommandCases(done, cmd, colors, sizes);
      colorsPushed', sizesPushed' := colorsPushed, sizesPushed;
      if !StartsWithText(cmd, "bg-") {
        var c, s := ApplyTextCommand(cmd, colors, sizes);
        colorsPushed', sizesPushed' := colorsPushed + c, sizesPushed + s;
      }
    }

    /** The loop of `text`: walks the commands once, pushing text styles as it goes. */
    method TextWalk(cmds: seq<string>, colors: map<string, Color>, sizes: map<string, int>)
      returns (colorsPushed: nat, sizesPushed: nat)
      modifies this
      ensures textColorStack == old(textColorStack) + PushedColors(cmds, colors)
      ensures textSizeStack == old(textSizeStack) + PushedSizes(cmds, colors, sizes)
      ensures colorsPushed == |PushedColors(cmds, colors)| && sizesPushed == |PushedSizes(cmds, colors, sizes)|
    {
      colorsPushed, sizesPushed := 0, 0;
      for k := 0 to |cmds|
        invariant textColorStack == old(textColorStack) + PushedColors(cmds[..k], colors)
        invariant textSizeStack == old(textSizeStack) + PushedSizes(cmds[..k], colors, sizes)
        invariant colorsPushed == |PushedColors(cmds[..k], colors)|
        invariant sizesPushed == |PushedSizes(cmds[..k], colors, sizes)|
      {
        assert cmds[..k + 1] == cmds[..k] + [cmds[k]];
        colorsPushed, sizesPushed :=
          TextStep(old(textColorStack), old(textSizeStack), cmds[..k], cmds[k], colors, sizes, colorsPushed, sizesPushed);
      }
      assert cmds[..|cmds|] == cmds;
    }

    /**
     * `text`: the same walk without layout direction; its background
     * branches (written twice, name lookup only) set a colour that is never
     * used, so only the text style reaches the output. Returns the colour
     * and size the text is drawn with; both stacks end as they began.
     */
    method Text(classString: string, colors: map<string, Color>, sizes: map<string, int>)
      returns (textColor: Color, textSize: int)
      modifies this
      ensures textColorStack == old(textColorStack) && textSizeStack == old(textSizeStack)
      ensures var cmds := Commands(classString);
        textColor == TextColor(old(textColorStack) + PushedColors(cmds, colors), colors) &&
        textSize == TextSize(old(textSizeStack) + PushedSizes(cmds, colors, sizes), sizes)
    {
      var cmds := Commands(classString);
      var colorsPushed, sizesPushed := TextWalk(cmds, colors, sizes);
      textColor := TextColor(textColorStack, colors);
      textSize := TextSize(textSizeStack, sizes);
      PopStyles(colorsPushed, sizesPushed);
    }
  }

  /** Neither `col` nor a `bg-` class is a `text-` command. */
  lemma NotText(cmd: string)
    requires cmd == "col" || StartsWithText(cmd, "bg-")
    ensures !StartsWithText(cmd, "text-")
  {
    if cmd != "col" {
      assert cmd[0] == cmd[..3][0];
    }
    assert |cmd| >= 5 ==> cmd[..5][0] == cmd[0];
  }

  /**
   * One more command: a background class replaces the background, and
   * neither `col` nor a `bg-` class pushes a text style.
   */
  lemma CommandCases(done: seq<string>, cmd: string, colors: map<string, Color>, sizes: map<string, int>)
    ensures DivBackground(done + [cmd], colors, Color(0, 0, 0, 0)) ==
      (if ParseBgClass(cmd, colors).Some? then ParseBgClass(cmd, colors).value
       else DivBackground(done, colors, Color(0, 0, 0, 0)))
    ensures cmd == "col" ==> ParseBgClass(cmd, colors).None?
    ensures PushedColors(done + [cmd], colors) == PushedColors(done, colors) + PushedColors([cmd], colors)
    ensures PushedSizes(done + [cmd], colors, sizes) == PushedSizes(done, colors, sizes) + PushedSizes([cmd], colors, sizes)
    ensures cmd == "col" || StartsWithText(cmd, "bg-") || ParseBgClass(cmd, colors).Some? ==>
      PushedColors([cmd], colors) == [] && PushedSizes([cmd], colors, sizes) == []
  {
    PushedAppend(done, cmd, colors, sizes);
    assert [cmd][..0] == [];
    if cmd == "col" {
      NotText(cmd);
      assert cmd[..3][0] == 'c';
    } else if StartsWithText(cmd, "bg-") || ParseBgClass(cmd, colors).Some? {
      NotText(cmd);
    }
  }

  /** What one more command pushes comes after what the earlier ones pushed. */
  lemma PushedAppend(cmds: seq<string>, cmd: string, colors: map<string, Color>, sizes: map<string, int>)
    ensures forall none ::
      DivBackground(cmds + [cmd], colors, none) == DivBackground([cmd], colors, DivBackground(cmds, colors, none))
    ensures PushedColors(cmds + [cmd], colors) == PushedColors(cmds, colors) + PushedColors([cmd], colors)
    ensures PushedSizes(cmds + [cmd], colors, sizes) == PushedSizes(cmds, colors, sizes) + PushedSizes([cmd], colors, sizes)
  {
    assert (cmds + [cmd])[..|cmds|] == cmds;
    assert [cmd][..0] == [];
  }
}
