/**
 * Colours of in-app messages are persisted as hexadecimal strings such as
 * "#1a2b3c". Reading one trims surrounding white space, skips a leading '#'
 * and any white space after it, scans a hexadecimal number (an optional "0x"
 * prefix is accepted) and takes
 * red, green and blue from bits 16-23, 8-15 and 0-7 of that number.
 */
module HexColor {
  import opened Wrappers

  /** A colour as 8-bit red, green and blue components. */
  datatype Color = Color(red: int, green: int, blue: int)

  predicate ValidColor(c: Color)
  {
    0 <= c.red < 256 && 0 <= c.green < 256 && 0 <= c.blue < 256
  }

  /** A colour whose components fit in 8 bits, as `UIColor` components in 0...1 scale to. */
  type Rgb = c: Color | ValidColor(c) witness Color(0, 0, 0)

  /** Values above this bound do not fit the `UInt32` the scanned number is converted to. */
  const UInt32Limit: nat := 0x1_0000_0000

  /**
   * `CharacterSet.whitespacesAndNewlines`: the Unicode space separators, tab,
   * the line and paragraph separators and the control characters U+000A to
   * U+000D and U+0085.
   */
  predicate IsWhitespace(c: char)
  {
    c == '\t' || ('\n' <= c <= '\r') || c == ' ' || c == '\U{0085}' || c == '\U{00A0}' ||
    c == '\U{1680}' || ('\U{2000}' <= c <= '\U{200A}') || c == '\U{2028}' || c == '\U{2029}' ||
    c == '\U{202F}' || c == '\U{205F}' || c == '\U{3000}'
  }

  predicate IsHexDigit(c: char)
  {
    ('0' <= c <= '9') || ('a' <= c <= 'f') || ('A' <= c <= 'F')
  }

  function HexDigitValue(c: char): (d: nat)
    requires IsHexDigit(c)
    ensures d < 16
  {
    if '0' <= c <= '9' then (c - '0') as nat
    else if 'a' <= c <= 'f' then (c - 'a') as nat + 10
    else (c - 'A') as nat + 10
  }

  function TrimStart(s: string): string
  {
    if |s| > 0 && IsWhitespace(s[0]) then TrimStart(s[1..]) else s
  }

  function TrimEnd(s: string): string
  {
    if |s| > 0 && IsWhitespace(s[|s| - 1]) then TrimEnd(s[..|s| - 1]) else s
  }

  /** `trimmingCharacters(in: .whitespacesAndNewlines)` */
  function Trim(s: string): string
  {
    TrimEnd(TrimStart(s))
  }

  /** Consumes the leading hexadecimal digits of `s`, accumulating their value onto `acc`. */
  function ScanHex(s: string, acc: nat): nat
  {
    if |s| > 0 && IsHexDigit(s[0]) then ScanHex(s[1..], acc * 16 + HexDigitValue(s[0])) else acc
  }

  /**
   * The number the scanner reads from a colour string; 0 when it finds no
   * digit. The scanner skips white space before the number, so white space
   * after the '#' is skipped too.
   */
  function ScannedValue(hex: string): nat
  {
    var trimmed := Trim(hex);
    var body := TrimStart(if |trimmed| > 0 && trimmed[0] == '#' then trimmed[1..] else trimmed);
    var digits := if |body| >= 2 && body[0] == '0' && (body[1] == 'x' || body[1] == 'X') then body[2..] else body;
    ScanHex(digits, 0)
  }

  /** Bits 16-23, 8-15 and 0-7 of `v`. */
  function ColorFromValue(v: nat): Color
  {
    Color((v / 0x1_0000) % 0x100, (v / 0x100) % 0x100, v % 0x100)
  }

  /** The 24-bit number `0xRRGGBB` of a colour. */
  function ColorValue(c: Color): int
  {
    c.red * 0x1_0000 + c.green * 0x100 + c.blue
  }

  /**
   * `UIColor(hexString:)`. `None` stands for the run-time trap of converting a
   * scanned number of 2^32 or more to `UInt32`.
   */
  function ColorFromHex(hex: string): (r: Option<Color>)
    ensures r.None? <==> ScannedValue(hex) >= UInt32Limit
    ensures r.Some? ==> r.value == ColorFromValue(ScannedValue(hex)) && ValidColor(r.value)
  {
    var v := ScannedValue(hex);
    if v >= UInt32Limit then None else Some(ColorFromValue(v))
  }

  lemma DivModUnique(v: int, d: int, q: int, x: int)
    requires d > 0 && 0 <= x < d && v == q * d + x
    ensures v / d == q && v % d == x
  {
    var q', x' := v / d, v % d;
    assert (q - q') * d == x' - x;
    if q > q' {
      MulAtLeast(q - q', d);
    } else if q < q' {
      MulAtLeast(q' - q, d);
    }
  }

  lemma MulAtLeast(k: int, d: int)
    requires k >= 1 && d > 0
    ensures k * d >= d
  {
  }

  lemma ColorValueRoundTrip(c: Color)
    requires ValidColor(c)
    ensures ColorFromValue(ColorValue(c) as nat) == c
  {
    var v := ColorValue(c);
    DivModUnique(v, 0x1_0000, c.red, c.green * 0x100 + c.blue);
    DivModUnique(c.red, 0x100, 0, c.red);
    DivModUnique(v, 0x100, c.red * 0x100 + c.green, c.blue);
    DivModUnique(c.red * 0x100 + c.green, 0x100, c.red, c.green);
  }

  /** The lower-case hexadecimal digit `%x` writes for `d`. */
  function HexChar(d: nat): (c: char)
    requires d < 16
    ensures IsHexDigit(c) && HexDigitValue(c) == d
    ensures !IsWhitespace(c) && c != '#' && c != 'x' && c != 'X'
  {
    if d < 10 then ('0' as int + d) as char else ('a' as int + d - 10) as char
  }

  /** The two hexadecimal digits of a byte. */
  function HexByte(b: int): (s: string)
    requires 0 <= b < 256
    ensures |s| == 2
  {
    [HexChar(b / 16), HexChar(b % 16)]
  }

  /**
   * `toHexString()`: `String(format: "#%06x", rgb)`. For 8-bit components the
   * six digits of `0xRRGGBB` are the two digits of each component in turn.
   */
  function HexString(c: Color): (s: string)
    requires ValidColor(c)
    ensures |s| == 7 && s[0] == '#'
  {
    "#" + HexByte(c.red) + HexByte(c.green) + HexByte(c.blue)
  }

  /** Scanning the two digits of a byte shifts the accumulator by eight bits and adds the byte. */
  lemma ScanByte(b: int, rest: string, acc: nat)
    requires 0 <= b < 256
    ensures ScanHex(HexByte(b) + rest, acc) == ScanHex(rest, acc * 256 + b)
  {
    var s := HexByte(b) + rest;
    assert s[1..] == [HexChar(b % 16)] + rest;
    assert s[1..][1..] == rest;
    assert (acc * 16 + b / 16) * 16 + b % 16 == acc * 256 + b;
  }

  lemma TrimNoWhitespace(s: string)
    requires |s| > 0 && !IsWhitespace(s[0]) && !IsWhitespace(s[|s| - 1])
    ensures Trim(s) == s
  {
  }

  /** The scanner reads back the number `0xRRGGBB` of the colour written. */
  lemma ScanHexString(c: Color)
    requires ValidColor(c)
    ensures ScannedValue(HexString(c)) == ColorValue(c)
  {
    var s := HexString(c);
    var r, g, b := HexByte(c.red), HexByte(c.green), HexByte(c.blue);
    assert s[|s| - 1] == HexChar(c.blue % 16);
    TrimNoWhitespace(s);
    var digits := s[1..];
    assert digits == r + (g + b);
    assert digits[1] == HexChar(c.red % 16);
    assert ScannedValue(s) == ScanHex(digits, 0);
    ScanByte(c.red, g + b, 0);
    ScanByte(c.green, b, c.red);
    ScanByte(c.blue, [], c.red * 256 + c.green);
    assert b + [] == b;
  }

  /** The six digits of pure red scan as `0xff0000`. */
  lemma ScanRed()
    ensures ScanHex("ff0000", 0) == 0xff0000
  {
    var digits := HexByte(255) + (HexByte(0) + HexByte(0));
    assert digits == "ff0000";
    ScanByte(255, HexByte(0) + HexByte(0), 0);
    ScanByte(0, HexByte(0), 255);
    ScanByte(0, [], 255 * 256);
    assert HexByte(0) + [] == HexByte(0);
    assert ScanHex([], 255 * 256 * 256) == 0xff0000;
  }

  /** The scanner skips white space between the '#' and the digits. */
  lemma SpaceAfterHashScans()
    ensures ColorFromHex("# ff0000") == Some(Color(255, 0, 0))
  {
    var a := "# ff0000";
    TrimNoWhitespace(a);
    assert a[1..] == " " + "ff0000";
    assert (" " + "ff0000")[1..] == "ff0000";
    assert TrimStart(a[1..]) == "ff0000";
    ScanRed();
    assert ScannedValue(a) == 0xff0000;
  }

  /** Unicode white space is trimmed and skipped, and a "0x" prefix is accepted. */
  lemma UnicodeSpaceScans()
    ensures ColorFromHex("#\U{00A0}0xff0000\U{2028}") == Some(Color(255, 0, 0))
  {
    var b := "#\U{00A0}0xff0000\U{2028}";
    var t := "#\U{00A0}0xff0000";
    assert TrimStart(b) == b;
    assert b[..|b| - 1] == t;
    assert TrimEnd(t) == t;
    assert Trim(b) == t;
    assert t[1..] == "\U{00A0}" + "0xff0000";
    assert ("\U{00A0}" + "0xff0000")[1..] == "0xff0000";
    assert TrimStart(t[1..]) == "0xff0000";
    assert "0xff0000"[2..] == "ff0000";
    ScanRed();
    assert ScannedValue(b) == 0xff0000;
  }

  /** Reading back the string written for a colour gives the colour. */
  lemma HexStringRoundTrip(c: Color)
    requires ValidColor(c)
    ensures ColorFromHex(HexString(c)) == Some(c)
  {
    ScanHexString(c);
    ColorValueRoundTrip(c);
  }
}
