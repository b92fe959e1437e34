// Colour parsing and printing shared by TinyStd (`hexToDigit`, `hexToColor`,
// `colorToHex`) and the UI components (`hexToDigit`, `parseHexcolor`, the
// same code under other names). A colour is four 8-bit channels; the text
// form is `#` followed by hex digits, in one of four lengths.

module HexColor {

  /** An 8-bit channel (`uint8_t`). */
  type Byte = x: nat | x < 256

  datatype Color = Color(r: Byte, g: Byte, b: Byte, a: Byte)

  predicate IsHexDigit(c: char)
  {
    ('0' <= c <= '9') || ('a' <= c <= 'f') || ('A' <= c <= 'F')
  }

  /** `hexToDigit`: the value of a hex digit in either case; any other character reads as 0. */
  function HexDigit(c: char): (d: nat)
    ensures d < 16
    ensures !IsHexDigit(c) ==> d == 0
  {
    if '0' <= c <= '9' then c as nat - '0' as nat
    else if 'a' <= c <= 'f' then c as nat - 'a' as nat + 10
    else if 'A' <= c <= 'F' then c as nat - 'A' as nat + 10
    else 0
  }

  /** The digit `%X` prints for a value below 16. */
  function HexChar(d: nat): (c: char)
    requires d < 16
    ensures IsHexDigit(c)
  {
    "0123456789ABCDEF"[d]
  }

  /** Every value below 16 is read back from the digit printed for it. */
  lemma HexDigitOfHexChar(d: nat)
    requires d < 16
    ensures HexDigit(HexChar(d)) == d
  {
    var s := "0123456789ABCDEF";
    assert s[0] == '0' && s[9] == '9' && s[10] == 'A' && s[15] == 'F';
    if d < 10 {
      assert d == 0 || d == 1 || d == 2 || d == 3 || d == 4 || d == 5 || d == 6 || d == 7 || d == 8 || d == 9;
    } else {
      assert d == 10 || d == 11 || d == 12 || d == 13 || d == 14 || d == 15;
    }
  }

  /** Every hex digit is printed back as itself, folded to upper case. */
  lemma HexCharOfHexDigit(c: char)
    requires IsHexDigit(c)
    ensures HexChar(HexDigit(c)) == if 'a' <= c <= 'f' then (c as nat - 'a' as nat + 'A' as nat) as char else c
  {
    var s := "0123456789ABCDEF";
    assert s[0] == '0' && s[1] == '1' && s[2] == '2' && s[3] == '3' && s[4] == '4' && s[5] == '5';
    assert s[6] == '6' && s[7] == '7' && s[8] == '8' && s[9] == '9' && s[10] == 'A' && s[11] == 'B';
    assert s[12] == 'C' && s[13] == 'D' && s[14] == 'E' && s[15] == 'F';
  }

  /** Two digits, most significant first, as one byte. */
  function Pair(hi: char, lo: char): (v: Byte)
    ensures v == 16 * HexDigit(hi) + HexDigit(lo)
  {
    HexDigit(lo) + 16 * HexDigit(hi)
  }

  /**
   * `hexToColor` / `parseHexcolor`: `#rgb` and `#rgba` repeat each digit,
   * `#rrggbb` and `#rrggbbaa` read pairs; alpha is 255 when it is not
   * given. The first character is not looked at, and every other length
   * gives a fully transparent black.
   */
  function HexToColor(hex: string): (c: Color)
    ensures |hex| != 4 && |hex| != 5 && |hex| != 7 && |hex| != 9 ==> c == Color(0, 0, 0, 0)
    ensures |hex| == 4 || |hex| == 7 ==> c.a == 255
  {
    if |hex| == 4 then Color(Pair(hex[1], hex[1]), Pair(hex[2], hex[2]), Pair(hex[3], hex[3]), 255)
    else if |hex| == 5 then Color(Pair(hex[1], hex[1]), Pair(hex[2], hex[2]), Pair(hex[3], hex[3]), Pair(hex[4], hex[4]))
    else if |hex| == 7 then Color(Pair(hex[1], hex[2]), Pair(hex[3], hex[4]), Pair(hex[5], hex[6]), 255)
    else if |hex| == 9 then Color(Pair(hex[1], hex[2]), Pair(hex[3], hex[4]), Pair(hex[5], hex[6]), Pair(hex[7], hex[8]))
    else Color(0, 0, 0, 0)
  }

  /** `{:02X}` of a byte: two upper-case digits. */
  function Hex2(v: Byte): (s: string)
    ensures |s| == 2 && IsHexDigit(s[0]) && IsHexDigit(s[1])
  {
    [HexChar(v / 16), HexChar(v % 16)]
  }

  /** `colorToHex`: `#RRGGBBAA`, each channel as two upper-case hex digits. */
  function ColorToHex(c: Color): (s: string)
    ensures |s| == 9 && s[0] == '#'
    ensures forall i :: 1 <= i < 9 ==> IsHexDigit(s[i])
  {
    "#" + Hex2(c.r) + Hex2(c.g) + Hex2(c.b) + Hex2(c.a)
  }

  /** Reading the two digits printed for a byte gives the byte back. */
  lemma PairOfHex2(v: Byte)
    ensures Pair(Hex2(v)[0], Hex2(v)[1]) == v
  {
    HexDigitOfHexChar(v / 16);
    HexDigitOfHexChar(v % 16);
  }

  /** Round trip: parsing the text `colorToHex` prints gives the colour back. */
  lemma ColorRoundTrip(c: Color)
    ensures HexToColor(ColorToHex(c)) == c
  {
    var s := ColorToHex(c);
    assert s[1..3] == Hex2(c.r) && s[3..5] == Hex2(c.g) && s[5..7] == Hex2(c.b) && s[7..9] == Hex2(c.a);
    PairOfHex2(c.r);
    PairOfHex2(c.g);
    PairOfHex2(c.b);
    PairOfHex2(c.a);
  }

  /** The short forms mean their long forms with every digit doubled: `#abc` is `#aabbcc`. */
  lemma ShortFormDoubles(hex: string)
    requires |hex| == 4 || |hex| == 5
    ensures |hex| == 4 ==> HexToColor(hex) == HexToColor([hex[0], hex[1], hex[1], hex[2], hex[2], hex[3], hex[3]])
    ensures |hex| == 5 ==>
      HexToColor(hex) == HexToColor([hex[0], hex[1], hex[1], hex[2], hex[2], hex[3], hex[3], hex[4], hex[4]])
  {
  }

  /**
   * In a seven-character code each channel is the value of its pair of hex
   * digits, most significant digit first.
   */
  lemma LongFormReadsPairs(hex: string)
    requires |hex| == 7
    ensures HexToColor(hex).r == 16 * HexDigit(hex[1]) + HexDigit(hex[2])
    ensures HexToColor(hex).g == 16 * HexDigit(hex[3]) + HexDigit(hex[4])
    ensures HexToColor(hex).b == 16 * HexDigit(hex[5]) + HexDigit(hex[6])
    ensures HexToColor(hex).a == 255
  {
  }
}
