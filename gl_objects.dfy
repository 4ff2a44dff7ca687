/** The shape objects of the drawing surface: a common base holding a type tag,
    a 3x3 transform and a colour string, and the square and line variants that
    extend it. The base's colour string is decoded to normalised RGBA on demand. */
module GLObjects {
  import opened GLModel
  import opened MatrixUtils

  datatype Option<T> = None | Some(value: T)

  /** The colour every shape starts with. */
  const DefaultColor: string := "#000000"

  /** Opaque white: the decoding of any string that is not a hexadecimal colour. */
  const White: seq<real> := [1.0, 1.0, 1.0, 1.0]

  // Colour decoding

  /** A character of the class `[a-f\d]` under the case-insensitive flag: the
      class holds ASCII digits only, and no non-ASCII character folds onto a-f. */
  predicate IsHexDigit(c: char) {
    '0' <= c <= '9' || 'a' <= c <= 'f' || 'A' <= c <= 'F'
  }

  predicate AllHexDigits(s: string) {
    forall i :: 0 <= i < |s| ==> IsHexDigit(s[i])
  }

  /** The value of one base-16 digit, either case. */
  function HexDigitValue(c: char): (v: int)
    requires IsHexDigit(c)
    ensures 0 <= v < 16
  {
    if '0' <= c <= '9' then c as int - '0' as int
    else if 'a' <= c <= 'f' then c as int - 'a' as int + 10
    else c as int - 'A' as int + 10
  }

  /** The text after the optional leading `#` of both patterns. */
  function StripHash(s: string): string {
    if |s| > 0 && s[0] == '#' then s[1..] else s
  }

  /** The whole string matches `#?` followed by three hex digits. */
  predicate IsShorthand(s: string) {
    |StripHash(s)| == 3 && AllHexDigits(StripHash(s))
  }

  /** The whole string matches `#?` followed by six hex digits. */
  predicate IsFullHex(s: string) {
    |StripHash(s)| == 6 && AllHexDigits(StripHash(s))
  }

  /** Three digits, each written twice. */
  function Doubled(d: string): string
    requires |d| == 3
  {
    [d[0], d[0], d[1], d[1], d[2], d[2]]
  }

  /** The shorthand replacement: a string that is wholly a 3-digit shorthand is
      replaced by its doubled digits, without the `#`; any other string is kept. */
  function ExpandShorthand(s: string): (hex: string)
    ensures IsShorthand(s) ==> |hex| == 6 && forall i :: 0 <= i < 6 ==> hex[i] == StripHash(s)[i / 2]
    ensures IsShorthand(s) ==> IsFullHex(hex) && StripHash(hex) == hex
    ensures !IsShorthand(s) ==> hex == s
  {
    if IsShorthand(s) then Doubled(StripHash(s)) else s
  }

  /** The three capture groups of a successful match of the six-digit pattern. */
  datatype HexMatch = HexMatch(red: string, green: string, blue: string)

  /** Matching the six-digit pattern: no match exactly when the string is not a
      full hex colour; on a match the groups are digits 0-1, 2-3 and 4-5 after
      the optional `#`, each a two-digit hex pair. */
  function ExecFullHex(hex: string): (m: Option<HexMatch>)
    ensures m.Some? <==> IsFullHex(hex)
    ensures m.Some? ==>
      && |m.value.red| == 2 && AllHexDigits(m.value.red)
      && |m.value.green| == 2 && AllHexDigits(m.value.green)
      && |m.value.blue| == 2 && AllHexDigits(m.value.blue)
      && m.value.red == StripHash(hex)[0..2]
      && m.value.green == StripHash(hex)[2..4]
      && m.value.blue == StripHash(hex)[4..6]
  {
    var d := StripHash(hex);
    if |d| == 6 && AllHexDigits(d) then
      Some(HexMatch(d[0..2], d[2..4], d[4..6]))
    else
      None
  }

  /** A two-digit group read in base 16: one byte. */
  function ParseHexPair(p: string): (v: int)
    requires |p| == 2 && AllHexDigits(p)
    ensures 0 <= v <= 255
  {
    16 * HexDigitValue(p[0]) + HexDigitValue(p[1])
  }

  /** The normalised RGBA colour of a colour string: each byte over 255 and alpha
      1 on a hex colour (after shorthand expansion), opaque white otherwise.
      Decoding is total: four components, each in [0, 1], alpha always 1. */
  function DecodeColor(color: string): (rgba: seq<real>)
    ensures |rgba| == 4 && rgba[3] == 1.0
    ensures forall i :: 0 <= i < 4 ==> 0.0 <= rgba[i] <= 1.0
  {
    match ExecFullHex(ExpandShorthand(color))
    case Some(m) =>
      [ParseHexPair(m.red) as real / 255.0,
       ParseHexPair(m.green) as real / 255.0,
       ParseHexPair(m.blue) as real / 255.0,
       1.0]
    case None => White
  }

  /** On a six-digit colour, with or without `#`, each channel is its digit pair
      read in base 16 and divided by 255. */
  lemma DecodeFullHex(s: string)
    requires IsFullHex(s)
    ensures var d := StripHash(s);
      DecodeColor(s) == [ParseHexPair(d[0..2]) as real / 255.0,
                         ParseHexPair(d[2..4]) as real / 255.0,
                         ParseHexPair(d[4..6]) as real / 255.0,
                         1.0]
  {
    assert !IsShorthand(s);
  }

  /** A 3-digit shorthand decodes like its doubled six-digit form, with or without `#`. */
  lemma DecodeShorthand(s: string)
    requires IsShorthand(s)
    ensures DecodeColor(s) == DecodeColor(Doubled(StripHash(s)))
    ensures DecodeColor(s) == DecodeColor("#" + Doubled(StripHash(s)))
  {
    var e := Doubled(StripHash(s));
    assert StripHash(e) == e;
    assert !IsShorthand(e);
    assert StripHash("#" + e) == e;
    assert !IsShorthand("#" + e);
  }

  /** The white fallback is taken exactly when the string is neither a 3-digit
      nor a 6-digit hex colour. */
  lemma DecodeFallback(s: string)
    ensures ExecFullHex(ExpandShorthand(s)).None? <==> !IsShorthand(s) && !IsFullHex(s)
    ensures !IsShorthand(s) && !IsFullHex(s) ==> DecodeColor(s) == White
  {
  }

  /** The leading `#` is optional. */
  lemma DecodeHashOptional(s: string)
    requires |s| == 0 || s[0] != '#'
    ensures DecodeColor("#" + s) == DecodeColor(s)
  {
    assert StripHash("#" + s) == s;
    assert StripHash(s) == s;
  }

  /** ASCII lower-casing of one character. */
  function ToLowerAscii(c: char): char {
    if 'A' <= c <= 'Z' then (c as int + 32) as char else c
  }

  /** ASCII lower-casing of a string. */
  function Lowercase(s: string): string {
    seq(|s|, i requires 0 <= i < |s| => ToLowerAscii(s[i]))
  }

  lemma LowercaseHexDigit(c: char)
    ensures IsHexDigit(ToLowerAscii(c)) <==> IsHexDigit(c)
    ensures IsHexDigit(c) ==> HexDigitValue(ToLowerAscii(c)) == HexDigitValue(c)
  {
  }

  lemma {:induction false} LowercaseAllHexDigits(s: string)
    ensures AllHexDigits(Lowercase(s)) <==> AllHexDigits(s)
  {
    forall i | 0 <= i < |s|
      ensures IsHexDigit(Lowercase(s)[i]) <==> IsHexDigit(s[i])
    {
      LowercaseHexDigit(s[i]);
    }
  }

  lemma LowercaseStripHash(s: string)
    ensures StripHash(Lowercase(s)) == Lowercase(StripHash(s))
  {
  }

  lemma {:induction false} LowercaseParseHexPair(p: string)
    requires |p| == 2 && AllHexDigits(p)
    ensures |Lowercase(p)| == 2 && AllHexDigits(Lowercase(p))
    ensures ParseHexPair(Lowercase(p)) == ParseHexPair(p)
  {
    LowercaseAllHexDigits(p);
    LowercaseHexDigit(p[0]);
    LowercaseHexDigit(p[1]);
  }

  lemma {:induction false} LowercaseExpandShorthand(s: string)
    ensures IsShorthand(Lowercase(s)) <==> IsShorthand(s)
    ensures ExpandShorthand(Lowercase(s)) == Lowercase(ExpandShorthand(s))
  {
    LowercaseStripHash(s);
    LowercaseAllHexDigits(StripHash(s));
    if IsShorthand(s) {
      var d := StripHash(s);
      assert Doubled(Lowercase(d)) == Lowercase(Doubled(d));
    }
  }

  lemma {:induction false} LowercaseDecodeExpanded(e: string)
    ensures ExecFullHex(Lowercase(e)).Some? <==> ExecFullHex(e).Some?
    ensures IsFullHex(e) ==>
      var m, n := ExecFullHex(e).value, ExecFullHex(Lowercase(e)).value;
      ParseHexPair(n.red) == ParseHexPair(m.red)
      && ParseHexPair(n.green) == ParseHexPair(m.green)
      && ParseHexPair(n.blue) == ParseHexPair(m.blue)
  {
    LowercaseStripHash(e);
    LowercaseAllHexDigits(StripHash(e));
    if IsFullHex(e) {
      var m, n := ExecFullHex(e).value, ExecFullHex(Lowercase(e)).value;
      assert n.red == Lowercase(m.red) && n.green == Lowercase(m.green) && n.blue == Lowercase(m.blue);
      LowercaseParseHexPair(m.red);
      LowercaseParseHexPair(m.green);
      LowercaseParseHexPair(m.blue);
    }
  }

  /** Matching is case-insensitive: lower-casing a colour string does not change its decoding. */
  lemma {:induction false} DecodeIgnoresCase(s: string)
    ensures DecodeColor(Lowercase(s)) == DecodeColor(s)
  {
    LowercaseExpandShorthand(s);
    LowercaseDecodeExpanded(ExpandShorthand(s));
  }

  /** The lower-case hex digit of a value below 16. */
  function HexDigitChar(v: int): (c: char)
    requires 0 <= v < 16
    ensures IsHexDigit(c) && HexDigitValue(c) == v
  {
    if v < 10 then ('0' as int + v) as char else ('a' as int + v - 10) as char
  }

  /** A byte as two hex digits. */
  function FormatByte(n: int): (p: string)
    requires 0 <= n <= 255
    ensures |p| == 2 && AllHexDigits(p) && ParseHexPair(p) == n
  {
    [HexDigitChar(n / 16), HexDigitChar(n % 16)]
  }

  /** Every byte triple is reachable: the `#RRGGBB` spelling of (r, g, b)
      decodes to r/255, g/255, b/255 with alpha 1. */
  lemma DecodeFormatted(r: int, g: int, b: int)
    requires 0 <= r <= 255 && 0 <= g <= 255 && 0 <= b <= 255
    ensures DecodeColor("#" + FormatByte(r) + FormatByte(g) + FormatByte(b))
         == [r as real / 255.0, g as real / 255.0, b as real / 255.0, 1.0]
  {
    var d := FormatByte(r) + FormatByte(g) + FormatByte(b);
    var s := "#" + d;
    assert s == "#" + FormatByte(r) + FormatByte(g) + FormatByte(b);
    assert StripHash(s) == d;
    assert IsFullHex(s);
    DecodeFullHex(s);
    assert d[0..2] == FormatByte(r) && d[2..4] == FormatByte(g) && d[4..6] == FormatByte(b);
  }

  lemma DecodeWhiteUpper()
    ensures DecodeColor("#FFFFFF") == White
  {
    assert StripHash("#FFFFFF") == "FFFFFF";
    DecodeFullHex("#FFFFFF");
  }

  lemma DecodeWhiteLower()
    ensures DecodeColor("ffffff") == White
  {
    DecodeFullHex("ffffff");
  }

  lemma DecodeWhiteShort()
    ensures DecodeColor("#fff") == White
  {
    DecodeShorthand("#fff");
    assert StripHash("#fff") == "fff";
    assert Doubled("fff") == "ffffff";
    DecodeWhiteLower();
  }

  /** Upper or lower case, with or without `#`, shorthand or full: white is white. */
  lemma DecodeWhiteSpellings()
    ensures DecodeColor("#FFFFFF") == White
    ensures DecodeColor("ffffff") == White
    ensures DecodeColor("#fff") == White
  {
    DecodeWhiteUpper();
    DecodeWhiteLower();
    DecodeWhiteShort();
  }

  /** A shorthand and its doubled form agree. */
  lemma DecodeShorthandExample()
    ensures DecodeColor("#03F") == DecodeColor("0033FF")
  {
    DecodeShorthand("#03F");
    assert StripHash("#03F") == "03F";
    assert Doubled("03F") == "0033FF";
  }

  /** The default colour is opaque black. */
  lemma DecodeDefaultColor()
    ensures DecodeColor(DefaultColor) == [0.0, 0.0, 0.0, 1.0]
  {
    DecodeFullHex(DefaultColor);
    assert StripHash(DefaultColor) == "000000";
  }

  /** A string that is not a colour falls back to white. */
  lemma DecodeNotAColor()
    ensures DecodeColor("not-a-color") == White
  {
    assert StripHash("not-a-color") == "not-a-color";
    DecodeFallback("not-a-color");
  }

  // Shape state objects

  /** The state every shape shares. The type tag is set once, at construction;
      the transform starts as the identity and the colour as `#000000`. */
  class BaseGeometry {
    const geometryType: Option<GeometryType>
    var projectionMatrix: seq<real>
    var color: string

    /** The transform is always a 3x3 matrix. */
    ghost predicate Valid()
      reads this
    {
      |projectionMatrix| == 9
    }

    /** A bare base object: its type tag is left undefined. */
    constructor ()
      ensures Valid()
      ensures geometryType == None
      ensures projectionMatrix == CreateIdentityMatrix() && color == DefaultColor
    {
      geometryType := None;
      projectionMatrix := CreateIdentityMatrix();
      color := DefaultColor;
    }

    /** The base constructor followed by a variant's assignment of its type tag. */
    constructor Tagged(tag: GeometryType)
      ensures Valid()
      ensures geometryType == Some(tag)
      ensures projectionMatrix == CreateIdentityMatrix() && color == DefaultColor
    {
      geometryType := Some(tag);
      projectionMatrix := CreateIdentityMatrix();
      color := DefaultColor;
    }

    /** The current transform, a 3x3 row-major matrix. */
    function GetProjectionMatrix(): (m: seq<real>)
      requires Valid()
      reads this
      ensures |m| == 9 && m == projectionMatrix
    {
      projectionMatrix
    }

    /** The type tag fixed at construction. */
    function GetType(): (t: Option<GeometryType>)
      ensures t == geometryType
    {
      geometryType
    }

    /** The current colour string decoded: four components in [0, 1], alpha 1. */
    function GetColor(): (rgba: seq<real>)
      reads this
      ensures rgba == DecodeColor(color)
      ensures |rgba| == 4 && rgba[3] == 1.0
      ensures forall i :: 0 <= i < 4 ==> 0.0 <= rgba[i] <= 1.0
    {
      DecodeColor(color)
    }

    /** Stores the colour string verbatim; nothing else changes. */
    method SetColor(color: string)
      modifies this
      ensures this.color == color && projectionMatrix == old(projectionMatrix)
      ensures GetColor() == DecodeColor(color)
      ensures Valid() == old(Valid())
    {
      this.color := color;
    }
  }

  /** A square: the shared state plus a centre and a side length. */
  class SquareGeometry {
    const base: BaseGeometry
    var center: Vertex2D
    var size: real

    ghost predicate Valid()
      reads this, base
    {
      base.Valid() && base.geometryType == Some(Square)
    }

    /** A square centred at (x, y), of the given colour and size; colour
        `#000000` and size 0 unless given. */
    constructor (x: real, y: real, color: string := DefaultColor, size: real := 0.0)
      ensures Valid() && fresh(base)
      ensures base.GetType() == Some(Square)
      ensures base.projectionMatrix == CreateIdentityMatrix() && base.color == color
      ensures center == Vertex2D(x, y) && this.size == size
    {
      var b := new BaseGeometry.Tagged(Square);
      b.color := color;
      base := b;
      center := Vertex2D(x, y);
      this.size := size;
    }

    function GetCenter(): (c: Vertex2D)
      reads this
      ensures c == center
    {
      center
    }

    /** Replaces the centre only. */
    method SetCenter(center: Vertex2D)
      modifies this
      ensures this.center == center && size == old(size)
      ensures unchanged(base)
      ensures Valid() == old(Valid())
    {
      this.center := center;
    }

    function GetSize(): (s: real)
      reads this
      ensures s == size
    {
      size
    }

    /** Replaces the size only. */
    method SetSize(size: real)
      modifies this
      ensures this.size == size && center == old(center)
      ensures unchanged(base)
      ensures Valid() == old(Valid())
    {
      this.size := size;
    }
  }

  /** A line segment: the shared state plus two endpoints. */
  class LineGeometry {
    const base: BaseGeometry
    var point1: Vertex2D
    var point2: Vertex2D

    ghost predicate Valid()
      reads this, base
    {
      base.Valid() && base.geometryType == Some(Line)
    }

    /** The segment from (x1, y1) to (x2, y2) in the given colour. */
    constructor (x1: real, y1: real, x2: real, y2: real, color: string)
      ensures Valid() && fresh(base)
      ensures base.GetType() == Some(Line)
      ensures base.projectionMatrix == CreateIdentityMatrix() && base.color == color
      ensures point1 == Vertex2D(x1, y1) && point2 == Vertex2D(x2, y2)
    {
      var b := new BaseGeometry.Tagged(Line);
      b.color := color;
      base := b;
      point1 := Vertex2D(x1, y1);
      point2 := Vertex2D(x2, y2);
    }

    function GetPoint1(): (p: Vertex2D)
      reads this
      ensures p == point1
    {
      point1
    }

    function GetPoint2(): (p: Vertex2D)
      reads this
      ensures p == point2
    {
      point2
    }

    /** Replaces the first endpoint only. */
    method SetPoint1(point: Vertex2D)
      modifies this
      ensures point1 == point && point2 == old(point2)
      ensures unchanged(base)
      ensures Valid() == old(Valid())
    {
      point1 := point;
    }

    /** Replaces the second endpoint only. */
    method SetPoint2(point: Vertex2D)
      modifies this
      ensures point2 == point && point1 == old(point1)
      ensures unchanged(base)
      ensures Valid() == old(Valid())
    {
      point2 := point;
    }
  }
}
