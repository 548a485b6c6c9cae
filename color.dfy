/** Colour strings (src/utils/color.ts): recognising hex and rgb notation, reading hex and rgb
    components, composing a CSS `rgba(...)` text with an opacity, and writing an rgb colour in
    hex notation. */
module Color {

  import opened Wrappers
  import opened Strings

  // ---------------------------------------------------------------------------------------
  // Recognisers

  /** `isRgbOrRgba`: the text mentions "rgb" or "rgba". */
  function IsRgbOrRgba(color: string): (r: bool)
    ensures r <==> Occurs(color, "rgb") || Occurs(color, "rgba")
  {
    IndexOfFindsOccurrence(color, "rgb");
    IndexOfFindsOccurrence(color, "rgba");
    IndexOf(color, "rgb") > -1 || IndexOf(color, "rgba") > -1
  }

  /** `isHex`: the text contains a `#` anywhere. */
  function IsHex(color: string): (r: bool)
    ensures r <==> Occurs(color, "#")
  {
    IndexOfFindsOccurrence(color, "#");
    IndexOf(color, "#") > -1
  }

  lemma IsHexIffSharp(color: string)
    ensures IsHex(color) <==> '#' in color
  {
    if '#' in color {
      var j :| 0 <= j < |color| && color[j] == '#';
      assert OccursAt(color, "#", j);
    }
    if Occurs(color, "#") {
      var j :| OccursAt(color, "#", j);
      assert color[j] == color[j..j + 1][0];
    }
  }

  /** The second test of `isRgbOrRgba` adds nothing: every "rgba" starts with "rgb". */
  lemma IsRgbOrRgbaIffRgb(color: string)
    ensures IsRgbOrRgba(color) <==> Occurs(color, "rgb")
  {
    if Occurs(color, "rgba") {
      var j :| OccursAt(color, "rgba", j);
      assert color[j..j + 3] == color[j..j + 4][..3];
      assert OccursAt(color, "rgb", j);
    }
  }

  // ---------------------------------------------------------------------------------------
  // parseInt

  /** One digit of base `radix` (10 or 16). */
  function RadixDigit(c: char, radix: nat): Option<nat>
  {
    match HexDigitValue(c)
    case Some(d) => if d < radix then Some(d) else None
    case None => None
  }

  /** The longest prefix made of digits of base `radix`. */
  function DigitPrefix(s: string, radix: nat): (d: string)
    ensures |d| <= |s| && d == s[..|d|]
    ensures forall i :: 0 <= i < |d| ==> RadixDigit(d[i], radix).Some?
    ensures |d| < |s| ==> RadixDigit(s[|d|], radix).None?
  {
    if s != [] && RadixDigit(s[0], radix).Some? then [s[0]] + DigitPrefix(s[1..], radix) else []
  }

  /** The value of a digit of base `radix`, 0 for any other character. */
  function DigitOrZero(c: char, radix: nat): nat
  {
    match RadixDigit(c, radix)
    case Some(v) => v
    case None => 0
  }

  /** The value of a run of digits of base `radix`, most significant first. */
  function DigitsValue(d: string, radix: nat): int
  {
    if d == [] then 0 else DigitsValue(d[..|d| - 1], radix) * radix + DigitOrZero(d[|d| - 1], radix)
  }

  /** The leading white space `parseInt` skips. */
  function TrimStart(s: string): (r: string)
    ensures |r| <= |s| && r == s[|s| - |r|..]
    ensures forall i :: 0 <= i < |s| - |r| ==> IsJsWhitespace(s[i])
    ensures r != [] ==> !IsJsWhitespace(r[0])
    ensures s != [] && !IsJsWhitespace(s[0]) ==> r == s
  {
    if s != [] && IsJsWhitespace(s[0]) then
      var r := TrimStart(s[1..]);
      assert s[1..][|s| - 1 - |r|..] == s[|s| - |r|..];
      assert forall i :: 1 <= i < |s| - |r| ==> s[i] == s[1..][i - 1];
      r
    else s
  }

  /** `parseInt(s, radix)` for radix 10 or 16: skip leading white space, read an optional sign,
      for radix 16 an optional `0x`, then the longest run of digits; `None` stands for NaN when
      there is no digit. */
  function ParseInt(s: string, radix: nat): (r: Option<int>)
    requires radix == 10 || radix == 16
    ensures TrimStart(s) == [] ==> r.None?
    ensures s != [] && AllRadixDigits(s, radix) ==> r == Some(DigitsValue(s, radix))
  {
    PlainDigits(s, radix);
    ParseSigned(TrimStart(s), radix)
  }

  /** What `parseInt` reads once the white space is skipped: an optional sign, for radix 16
      an optional `0x`, then the longest run of digits. */
  function ParseSigned(t: string, radix: nat): (r: Option<int>)
    requires radix == 10 || radix == 16
    ensures t == [] ==> r.None?
    ensures t != [] && AllRadixDigits(t, radix) ==> r == Some(DigitsValue(t, radix))
  {
    PlainDigits(t, radix);
    var sign := if |t| > 0 && t[0] == '-' then -1 else 1;
    var u := if |t| > 0 && (t[0] == '-' || t[0] == '+') then t[1..] else t;
    var v := if radix == 16 && |u| >= 2 && u[0] == '0' && (u[1] == 'x' || u[1] == 'X') then u[2..] else u;
    var digits := DigitPrefix(v, radix);
    if digits == [] then None else Some(sign * DigitsValue(digits, radix))
  }

  /** Every character is a digit of base `radix`. */
  predicate AllRadixDigits(s: string, radix: nat)
  {
    forall i :: 0 <= i < |s| ==> RadixDigit(s[i], radix).Some?
  }

  /** A run of digits has no white space, sign or `0x` in front, and is its own digit prefix. */
  lemma PlainDigits(s: string, radix: nat)
    ensures s != [] && AllRadixDigits(s, radix) ==>
      TrimStart(s) == s && s[0] != '-' && s[0] != '+'
      && (|s| >= 2 ==> s[1] != 'x' && s[1] != 'X')
      && DigitPrefix(s, radix) == s
  {
    if s != [] && AllRadixDigits(s, radix) {
      DigitIsPlain(s[0], radix);
      if |s| >= 2 {
        DigitIsPlain(s[1], radix);
      }
      DigitPrefixOfDigits(s, radix);
    }
  }

  /** A digit is neither white space, nor a sign, nor the `x` of `0x`. */
  lemma DigitIsPlain(c: char, radix: nat)
    requires RadixDigit(c, radix).Some?
    ensures !IsJsWhitespace(c) && c != '-' && c != '+' && c != 'x' && c != 'X'
  {
    assert '0' <= c <= '9' || 'a' <= c <= 'f' || 'A' <= c <= 'F';
  }

  lemma {:induction false} DigitPrefixOfDigits(s: string, radix: nat)
    requires AllRadixDigits(s, radix)
    ensures DigitPrefix(s, radix) == s
  {
    if s != [] {
      assert RadixDigit(s[0], radix).Some?;
      assert AllRadixDigits(s[1..], radix) by {
        assert forall i :: 0 <= i < |s| - 1 ==> s[1..][i] == s[i + 1];
      }
      DigitPrefixOfDigits(s[1..], radix);
    }
  }

  /** `String.prototype.slice(from, to)` for `0 <= from <= to`: positions clamped to the length. */
  function Slice(s: string, from: nat, to: nat): (r: string)
    requires from <= to
    ensures to <= |s| ==> r == s[from..to]
  {
    if from >= |s| then "" else if to >= |s| then s[from..] else s[from..to]
  }

  // ---------------------------------------------------------------------------------------
  // hexToRgba, rgbToRgba, rgba

  /** Three components read as numbers: `None` is NaN. */
  datatype Rgb = Rgb(r: Option<int>, g: Option<int>, b: Option<int>)

  /** `hexToRgba`: characters 1-2, 3-4 and 5-6 read in base 16. */
  function HexToRgba(hex: string): (c: Rgb)
    ensures |hex| <= 1 ==> c.r.None?
    ensures |hex| <= 3 ==> c.g.None?
    ensures |hex| <= 5 ==> c.b.None?
  {
    Rgb(ParseInt(Slice(hex, 1, 3), 16), ParseInt(Slice(hex, 3, 5), 16), ParseInt(Slice(hex, 5, 7), 16))
  }

  /** Three components kept as text: `None` is `undefined`. */
  datatype RgbText = RgbText(r: Option<string>, g: Option<string>, b: Option<string>)

  function At(parts: seq<string>, i: nat): Option<string>
  {
    if i < |parts| then Some(parts[i]) else None
  }

  /** `rgbToRgba`: the text between the first `(` and the following `)`, split on commas. With no
      `(` the source reads a property of `undefined` and throws. */
  function RgbToRgba(rgb: string): (r: Result<RgbText>)
    ensures r.Err? <==> '(' !in rgb
    ensures r.Err? ==> r.error == "TypeError"
  {
    JoinSplit(rgb, '(');
    var open := Split(rgb, '(');
    if |open| < 2 then Err("TypeError")
    else
      var rgbArr := Split(Split(open[1], ')')[0], ',');
      Ok(RgbText(At(rgbArr, 0), At(rgbArr, 1), At(rgbArr, 2)))
  }

  /** The four values `rgba` writes into its template: the component texts and the opacity. */
  datatype RgbaValue = RgbaValue(r: string, g: string, b: string, opacity: real)

  /** A number as a template string writes it; NaN for a failed `parseInt`. */
  function NumberText(n: Option<int>): string
  {
    match n
    case Some(v) => IntToDecimal(v)
    case None => "NaN"
  }

  /** A possibly missing string as a template string writes it. */
  function OptionalText(s: Option<string>): string
  {
    match s
    case Some(v) => v
    case None => "undefined"
  }

  /** `rgba(color, opacity)`: the falsy opacity 0 becomes 1; hex colours are read with
      `hexToRgba`, anything else with `rgbToRgba`. */
  function Rgba(color: string, opacity: real): (r: Result<RgbaValue>)
    ensures r.Err? <==> !IsHex(color) && '(' !in color
    ensures r.Ok? ==> r.value.opacity == if opacity == 0.0 then 1.0 else opacity
  {
    var alpha := if opacity == 0.0 then 1.0 else opacity;
    if IsHex(color) then
      var c := HexToRgba(color);
      Ok(RgbaValue(NumberText(c.r), NumberText(c.g), NumberText(c.b), alpha))
    else
      match RgbToRgba(color)
      case Err(e) => Err(e)
      case Ok(t) => Ok(RgbaValue(OptionalText(t.r), OptionalText(t.g), OptionalText(t.b), alpha))
  }

  /** The text `rgba(r,g,b,o)`, given the text `opacityText` that JavaScript writes for the
      opacity. */
  function RgbaCss(v: RgbaValue, opacityText: string): string
  {
    "rgba(" + v.r + "," + v.g + "," + v.b + "," + opacityText + ")"
  }

  // ---------------------------------------------------------------------------------------
  // rgbToHex

  /** The captures of `/^rgba?\((\d+),(\d+),(\d+),?(\d*\.?\d+)?\)$/i`. */
  datatype RgbMatch = RgbMatch(r: string, g: string, b: string, alpha: Option<string>)

  /** The leading decimal digits of `s` and what follows them. */
  function SpanDigits(s: string): (r: (string, string))
    ensures r.0 + r.1 == s && AllDigits(r.0)
    ensures r.1 != [] ==> !IsDigit(r.1[0])
  {
    if s != [] && IsDigit(s[0]) then
      var rest := SpanDigits(s[1..]);
      ([s[0]] + rest.0, rest.1)
    else ([], s)
  }

  /** `\d*\.?\d+`: digits, or digits, a dot and at least one digit. */
  predicate IsAlphaNumber(a: string)
  {
    var rest := SpanDigits(a).1;
    a != [] && (rest == [] || (rest[0] == '.' && |rest| >= 2 && AllDigits(rest[1..])))
  }

  function LowerAscii(c: char): char
  {
    if 'A' <= c <= 'Z' then ((c as int) - ('A' as int) + ('a' as int)) as char else c
  }

  /** The regular expression of `rgbToHex`, read left to right: `rgb` in either case, an
      optional `a`, `(`, then the groups. */
  function MatchRgb(s: string): Option<RgbMatch>
  {
    if |s| < 3 || LowerAscii(s[0]) != 'r' || LowerAscii(s[1]) != 'g' || LowerAscii(s[2]) != 'b' then None
    else
      var afterRgb := s[3..];
      var afterA := if afterRgb != [] && LowerAscii(afterRgb[0]) == 'a' then afterRgb[1..] else afterRgb;
      if afterA == [] || afterA[0] != '(' then None else MatchGroups(afterA[1..])
  }

  /** `(\d+),(\d+),` and the rest of the pattern. */
  function MatchGroups(t: string): Option<RgbMatch>
  {
    var p1 := SpanDigits(t);
    if p1.0 == [] || p1.1 == [] || p1.1[0] != ',' then None
    else
      var p2 := SpanDigits(p1.1[1..]);
      if p2.0 == [] || p2.1 == [] || p2.1[0] != ',' then None
      else MatchTail(p1.0, p2.0, p2.1[1..])
  }

  /** `(\d+),?(\d*\.?\d+)?\)$`. The third group is greedy and giving digits back never helps:
      what follows it must be `,`, a dot or `)`. */
  function MatchTail(r: string, g: string, t: string): Option<RgbMatch>
  {
    var p3 := SpanDigits(t);
    var t4 := if p3.1 != [] && p3.1[0] == ',' then p3.1[1..] else p3.1;
    if p3.0 == [] || t4 == [] || t4[|t4| - 1] != ')' then None
    else
      var alpha := t4[..|t4| - 1];
      if alpha == [] then Some(RgbMatch(r, g, p3.0, None))
      else if IsAlphaNumber(alpha) then Some(RgbMatch(r, g, p3.0, Some(alpha)))
      else None
  }

  const TWO_32 := 0x1_0000_0000
  const TWO_31 := 0x8000_0000

  /** ECMAScript ToInt32 of an integer: wrap to 32 bits, read as two's complement. */
  function ToInt32(x: int): (r: int)
    ensures -TWO_31 <= r < TWO_31
    ensures -TWO_31 <= x < TWO_31 ==> r == x
  {
    var m := x % TWO_32;
    if m >= TWO_31 then m - TWO_32 else m
  }

  /** `x << k` on 32-bit integers, written with the factor `2^k` (256 or 65536 here). */
  function ShiftLeft32(x: int, factor: nat): int
  {
    ToInt32(ToInt32(x) * factor)
  }

  /** `(1 << 24) + (r << 16) + (g << 8) + b` on JavaScript numbers. */
  function PackedValue(r: int, g: int, b: int): int
  {
    0x100_0000 + ShiftLeft32(r, 0x1_0000) + ShiftLeft32(g, 0x100) + b
  }

  /** `#` followed by upper-case hex digits only. */
  predicate UpperHexText(h: string)
  {
    |h| >= 1 && h[0] == '#' && forall i :: 1 <= i < |h| ==> IsHexDigit(h[i]) && !('a' <= h[i] <= 'z')
  }

  /** `"#" + value.toString(16).slice(1).toUpperCase()`: whatever the value, `#` and upper-case
      hex digits (the sign or the leading digit is the character `slice(1)` drops). */
  function HexText(value: int): (h: string)
    ensures UpperHexText(h)
  {
    var digits := IntToHex(value);
    assert forall i :: 1 <= i < |digits| ==> IsHexDigit(digits[i]) by {
      if value < 0 {
        assert forall i :: 1 <= i < |digits| ==> digits[i] == NatToHex(-value)[i - 1];
      }
    }
    "#" + ToUpper(digits[1..])
  }

  /** The result of `rgbToHex`: `#` and the hex digits of the red, green and blue part. When the
      input had an alpha part its text is kept; the source then appends `Math.round(a * 255)` in
      hex, which is floating point and not modelled. */
  datatype HexColor = HexColor(rgb: string, alpha: Option<string>)

  /** `rgbToHex`: drop white space, match the rgb/rgba pattern (throwing "Invalid color format"
      when it does not match), and write the three components in hex. */
  function RgbToHex(color: string): (r: Result<HexColor>)
    ensures r.Err? <==> MatchRgb(RemoveWhitespace(color)).None?
    ensures r.Err? ==> r.error == "Invalid color format"
    ensures r.Ok? ==> UpperHexText(r.value.rgb)
  {
    match MatchRgb(RemoveWhitespace(color))
    case None => Err("Invalid color format")
    case Some(m) => Ok(HexColor(HexText(PackedValue(DecimalValue(m.r), DecimalValue(m.g), DecimalValue(m.b))), m.alpha))
  }

  // ---------------------------------------------------------------------------------------
  // Properties

  function UpperHexDigit(d: nat): char
    requires d < 16
  {
    UpperChar(LowerHexDigit(d))
  }

  /** The two upper-case hex digits of a component. */
  function Hex2(x: nat): string
    requires x < 256
  {
    [UpperHexDigit(x / 16), UpperHexDigit(x % 16)]
  }

  /** The text `rgb(r,g,b)`. */
  function RgbCss(r: nat, g: nat, b: nat): string
  {
    "rgb(" + NatToDecimal(r) + "," + NatToDecimal(g) + "," + NatToDecimal(b) + ")"
  }

  /** `#` followed by six hex digits, either case. */
  predicate IsHexColor(hex: string)
  {
    |hex| >= 7 && hex[0] == '#' && IsHexDigit(hex[1]) && IsHexDigit(hex[2]) && IsHexDigit(hex[3])
    && IsHexDigit(hex[4]) && IsHexDigit(hex[5]) && IsHexDigit(hex[6])
  }

  /** The number two hex digits denote. */
  function PairValue(hi: char, lo: char): nat
    requires IsHexDigit(hi) && IsHexDigit(lo)
  {
    HexDigitValue(hi).value * 16 + HexDigitValue(lo).value
  }

  /** Reading two hex digits in base 16 gives the number they denote, which is at most 255. */
  lemma {:induction false} ParseHexPair(c1: char, c2: char)
    requires IsHexDigit(c1) && IsHexDigit(c2)
    ensures ParseInt([c1, c2], 16) == Some(PairValue(c1, c2))
    ensures PairValue(c1, c2) <= 255
  {
    var s := [c1, c2];
    assert AllRadixDigits(s, 16);
    assert ParseInt(s, 16) == Some(DigitsValue(s, 16));
    PairDigitsValue(c1, c2);
  }

  lemma {:induction false} PairDigitsValue(c1: char, c2: char)
    requires IsHexDigit(c1) && IsHexDigit(c2)
    ensures DigitsValue([c1, c2], 16) == PairValue(c1, c2) <= 255
  {
    var s := [c1, c2];
    assert s[..1] == [c1] && [c1][..0] == [];
    assert DigitsValue(s[..1], 16) == HexDigitValue(c1).value;
  }

  /** For a well-formed `#RRGGBB`, each component is the number its two digits denote. */
  lemma {:induction false} HexToRgbaComponents(hex: string)
    requires IsHexColor(hex)
    ensures HexToRgba(hex) == Rgb(Some(PairValue(hex[1], hex[2])), Some(PairValue(hex[3], hex[4])),
                                  Some(PairValue(hex[5], hex[6])))
  {
    ParseSlicedPair(hex, 1);
    ParseSlicedPair(hex, 3);
    ParseSlicedPair(hex, 5);
  }

  lemma ParseSlicedPair(hex: string, i: nat)
    requires i + 2 <= |hex| && IsHexDigit(hex[i]) && IsHexDigit(hex[i + 1])
    ensures ParseInt(Slice(hex, i, i + 2), 16) == Some(PairValue(hex[i], hex[i + 1]))
  {
    assert Slice(hex, i, i + 2) == [hex[i], hex[i + 1]];
    ParseHexPair(hex[i], hex[i + 1]);
  }

  /** `rgba` on a well-formed `#RRGGBB` writes the three decimal components and the opacity,
      with 0 replaced by 1. */
  lemma {:induction false} RgbaOfHex(hex: string, opacity: real)
    requires IsHexColor(hex)
    ensures Rgba(hex, opacity) == Ok(RgbaValue(NatToDecimal(PairValue(hex[1], hex[2])),
                                               NatToDecimal(PairValue(hex[3], hex[4])),
                                               NatToDecimal(PairValue(hex[5], hex[6])),
                                               if opacity == 0.0 then 1.0 else opacity))
  {
    var c := HexToRgba(hex);
    assert c == Rgb(Some(PairValue(hex[1], hex[2])), Some(PairValue(hex[3], hex[4])),
                    Some(PairValue(hex[5], hex[6]))) by {
      HexToRgbaComponents(hex);
    }
    assert IsHex(hex) by {
      IsHexIffSharp(hex);
      assert hex[0] == '#';
    }
    RgbaOfHexText(hex, opacity);
  }

  /** On a text with `#`, `rgba` writes the numbers `hexToRgba` reads. */
  lemma RgbaOfHexText(color: string, opacity: real)
    requires IsHex(color)
    ensures var c := HexToRgba(color);
      Rgba(color, opacity) == Ok(RgbaValue(NumberText(c.r), NumberText(c.g), NumberText(c.b),
                                           if opacity == 0.0 then 1.0 else opacity))
  {
  }

  /** A component text that `rgbToRgba` passes through unchanged. */
  predicate PlainComponent(s: string)
  {
    ',' !in s && '(' !in s && ')' !in s && '#' !in s
  }

  /** Splitting `r,g,b` on commas gives the three texts. */
  lemma {:induction false} SplitThree(r: string, g: string, b: string)
    requires ',' !in r && ',' !in g && ',' !in b
    ensures Split(r + "," + g + "," + b, ',') == [r, g, b]
  {
    assert r + "," + g + "," + b == r + [','] + (g + [','] + b);
    assert g + [','] + b == g + "," + b;
    SplitAt(r, ',', g + [','] + b);
    SplitAt(g, ',', b);
  }

  /** `rgbToRgba` on `prefix(r,g,b)` reads the three component texts. */
  lemma {:induction false} RgbToRgbaOfText(prefix: string, r: string, g: string, b: string)
    requires '(' !in prefix
    requires PlainComponent(r) && PlainComponent(g) && PlainComponent(b)
    ensures RgbToRgba(prefix + "(" + r + "," + g + "," + b + ")") == Ok(RgbText(Some(r), Some(g), Some(b)))
  {
    var body := r + "," + g + "," + b;
    var inner := body + ")";
    var color := prefix + "(" + r + "," + g + "," + b + ")";
    assert color == prefix + ['('] + inner;
    assert '(' !in inner;
    SplitAt(prefix, '(', inner);
    assert Split(color, '(') == [prefix] + [inner];
    InnerText(r, g, b);
    SplitThree(r, g, b);
    var open := Split(color, '(');
    assert open[1] == inner;
    var rgbArr := Split(Split(open[1], ')')[0], ',');
    assert rgbArr == [r, g, b];
  }

  lemma {:induction false} InnerText(r: string, g: string, b: string)
    requires PlainComponent(r) && PlainComponent(g) && PlainComponent(b)
    ensures Split(r + "," + g + "," + b + ")", ')')[0] == r + "," + g + "," + b
  {
    var body := r + "," + g + "," + b;
    assert ')' !in body;
    assert body + ")" == body + [')'] + [];
    SplitAt(body, ')', []);
  }

  /** `rgba` on `prefix(r,g,b)` with no `#` and plain component texts writes those texts. */
  lemma {:induction false} RgbaOfRgbText(prefix: string, r: string, g: string, b: string, opacity: real)
    requires '(' !in prefix && '#' !in prefix
    requires PlainComponent(r) && PlainComponent(g) && PlainComponent(b)
    ensures Rgba(prefix + "(" + r + "," + g + "," + b + ")", opacity)
         == Ok(RgbaValue(r, g, b, if opacity == 0.0 then 1.0 else opacity))
  {
    var color := prefix + "(" + r + "," + g + "," + b + ")";
    IsHexIffSharp(color);
    assert '#' !in color;
    RgbToRgbaOfText(prefix, r, g, b);
  }

  /** Splitting `a + [c] + t` where `c` does not occur in `a`. */
  lemma {:induction false} SplitAt(a: string, c: char, t: string)
    requires c !in a
    ensures Split(a + [c] + t, c) == [a] + Split(t, c)
  {
    var s := a + [c] + t;
    if a != [] {
      assert s[1..] == a[1..] + [c] + t;
      SplitAt(a[1..], c, t);
      assert [a[0]] + a[1..] == a;
    } else {
      assert s == [c] + t;
      assert s[1..] == t;
    }
  }

  /** The leading digits of `d + t` are `d` when `t` does not start with a digit. */
  lemma {:induction false} SpanDigitsOf(d: string, t: string)
    requires AllDigits(d) && (t == [] || !IsDigit(t[0]))
    ensures SpanDigits(d + t) == (d, t)
  {
    if d != [] {
      assert (d + t)[1..] == d[1..] + t;
      assert (d + t)[0] == d[0];
      SpanDigitsOf(d[1..], t);
      assert [d[0]] + d[1..] == d;
    } else {
      assert d + t == t;
    }
  }

  /** The groups of `r,g,b)` with decimal texts and no alpha part. */
  lemma {:induction false} MatchGroupsOf(dr: string, dg: string, db: string)
    requires AllDigits(dr) && AllDigits(dg) && AllDigits(db) && dr != [] && dg != [] && db != []
    ensures MatchGroups(dr + "," + dg + "," + db + ")") == Some(RgbMatch(dr, dg, db, None))
  {
    var t2 := "," + db + ")";
    var t1 := "," + dg + t2;
    assert dr + "," + dg + "," + db + ")" == dr + t1;
    SpanDigitsOf(dr, t1);
    assert t1[1..] == dg + t2;
    SpanDigitsOf(dg, t2);
    assert t2[1..] == db + ")";
    MatchTailOf(dr, dg, db);
  }

  /** The third group of `b)` with no alpha part. */
  lemma MatchTailOf(dr: string, dg: string, db: string)
    requires AllDigits(db) && db != []
    ensures MatchTail(dr, dg, db + ")") == Some(RgbMatch(dr, dg, db, None))
  {
    SpanDigitsOf(db, ")");
    assert ")"[..0] == [];
  }

  /** The pattern's `rgb(` prefix. */
  lemma MatchRgbPrefix(groups: string)
    ensures MatchRgb("rgb(" + groups) == MatchGroups(groups)
  {
    var s := "rgb(" + groups;
    assert s[0] == 'r' && s[1] == 'g' && s[2] == 'b' && s[3] == '(';
    assert s[3..][1..] == groups;
  }

  /** The text `rgb(r,g,b)` matches the pattern with the decimal texts as captures and no alpha. */
  lemma {:induction false} MatchRgbCss(r: nat, g: nat, b: nat)
    ensures MatchRgb(RgbCss(r, g, b)) == Some(RgbMatch(NatToDecimal(r), NatToDecimal(g), NatToDecimal(b), None))
  {
    var dr, dg, db := NatToDecimal(r), NatToDecimal(g), NatToDecimal(b);
    var groups := dr + "," + dg + "," + db + ")";
    assert RgbCss(r, g, b) == "rgb(" + groups;
    MatchRgbPrefix(groups);
    MatchGroupsOf(dr, dg, db);
  }

  /** Digits, letters and punctuation are not white space, so `rgb(r,g,b)` has none. */
  lemma RgbCssHasNoWhitespace(r: nat, g: nat, b: nat)
    ensures RemoveWhitespace(RgbCss(r, g, b)) == RgbCss(r, g, b)
  {
    var s := RgbCss(r, g, b);
    var dr, dg, db := NatToDecimal(r), NatToDecimal(g), NatToDecimal(b);
    assert s == "rgb(" + dr + "," + dg + "," + db + ")";
    forall i | 0 <= i < |s| ensures !IsJsWhitespace(s[i]) {
      if i < 4 {
      } else if i < 4 + |dr| {
        assert s[i] == dr[i - 4];
      } else if i < 5 + |dr| {
      } else if i < 5 + |dr| + |dg| {
        assert s[i] == dg[i - 5 - |dr|];
      } else if i < 6 + |dr| + |dg| {
      } else if i < 6 + |dr| + |dg| + |db| {
        assert s[i] == db[i - 6 - |dr| - |dg|];
      }
    }
  }

  /** The value of a sequence of base-16 digits, most significant first. */
  function HexValue(ds: seq<nat>): nat
    requires forall i :: 0 <= i < |ds| ==> ds[i] < 16
  {
    if ds == [] then 0 else HexValue(ds[..|ds| - 1]) * 16 + ds[|ds| - 1]
  }

  lemma {:induction false} HexValuePositive(ds: seq<nat>)
    requires forall i :: 0 <= i < |ds| ==> ds[i] < 16
    requires ds != [] && ds[0] >= 1
    ensures HexValue(ds) >= 1
  {
    if |ds| > 1 {
      HexValuePositive(ds[..|ds| - 1]);
    }
  }

  function LowerDigits(ds: seq<nat>): (s: string)
    requires forall i :: 0 <= i < |ds| ==> ds[i] < 16
    ensures |s| == |ds| && forall i :: 0 <= i < |ds| ==> s[i] == LowerHexDigit(ds[i])
  {
    if ds == [] then [] else LowerDigits(ds[..|ds| - 1]) + [LowerHexDigit(ds[|ds| - 1])]
  }

  /** `toString(16)` writes exactly the digits of a number, given without leading zero. */
  lemma {:induction false} NatToHexOfDigits(ds: seq<nat>)
    requires forall i :: 0 <= i < |ds| ==> ds[i] < 16
    requires ds != [] && ds[0] >= 1
    ensures NatToHex(HexValue(ds)) == LowerDigits(ds)
  {
    var n := |ds|;
    var last := ds[n - 1];
    var front := ds[..n - 1];
    assert HexValue(ds) == HexValue(front) * 16 + last;
    assert LowerDigits(ds) == LowerDigits(front) + [LowerHexDigit(last)];
    if n > 1 {
      HexValuePositive(front);
      NatToHexOfDigits(front);
      var q := HexValue(front);
      DivMod16(q, last);
      assert q * 16 + last >= 16;
      assert NatToHex(q * 16 + last) == NatToHex(q) + [LowerHexDigit(last)];
    } else {
      assert front == [];
      assert HexValue(ds) == last;
    }
  }

  lemma DivMod16(q: nat, d: nat)
    requires d < 16
    ensures (q * 16 + d) / 16 == q && (q * 16 + d) % 16 == d
  {
  }

  /** The seven hex digits of `(1 << 24) + (r << 16) + (g << 8) + b`. */
  lemma {:induction false} ComponentDigits(r: nat, g: nat, b: nat)
    requires r <= 255 && g <= 255 && b <= 255
    ensures var ds: seq<nat> := [1, r / 16, r % 16, g / 16, g % 16, b / 16, b % 16];
      HexValue(ds) == PackedValue(r, g, b)
  {
    assert ShiftLeft32(r, 0x1_0000) == r * 0x1_0000;
    assert ShiftLeft32(g, 0x100) == g * 0x100;
    var s1: seq<nat> := [1];
    var s2 := s1 + [r / 16];
    var s3 := s2 + [r % 16];
    var s4 := s3 + [g / 16];
    var s5 := s4 + [g % 16];
    var s6 := s5 + [b / 16];
    var s7 := s6 + [b % 16];
    assert s1[..0] == [];
    assert s2[..1] == s1 && s3[..2] == s2 && s4[..3] == s3;
    assert s5[..4] == s4 && s6[..5] == s5 && s7[..6] == s6;
    assert HexValue(s1) == 1;
    assert HexValue(s2) == 16 + r / 16;
    assert HexValue(s3) == 256 + r;
    assert HexValue(s4) == 4096 + r * 16 + g / 16;
    assert HexValue(s5) == 65536 + r * 256 + g;
    assert HexValue(s6) == 1048576 + r * 4096 + g * 16 + b / 16;
    assert HexValue(s7) == 16777216 + r * 65536 + g * 256 + b;
    assert s7 == [1, r / 16, r % 16, g / 16, g % 16, b / 16, b % 16];
  }

  /** The hex text of a number whose digits are 1 and six more is `#` and the six upper-case. */
  lemma {:induction false} HexTextOfDigits(ds: seq<nat>)
    requires |ds| == 7 && ds[0] == 1
    requires forall i :: 0 <= i < |ds| ==> ds[i] < 16
    ensures HexText(HexValue(ds)) == "#" + [UpperHexDigit(ds[1]), UpperHexDigit(ds[2]), UpperHexDigit(ds[3]),
                                            UpperHexDigit(ds[4]), UpperHexDigit(ds[5]), UpperHexDigit(ds[6])]
  {
    NatToHexOfDigits(ds);
    var text := LowerDigits(ds);
    assert IntToHex(HexValue(ds)) == text;
    UpperOfDigits(text[1..], ds[1..]);
  }

  /** For components 0..255 the hex text is `#` and six upper-case digits, two per component. */
  lemma {:induction false} HexTextSixDigits(r: nat, g: nat, b: nat)
    requires r <= 255 && g <= 255 && b <= 255
    ensures HexText(PackedValue(r, g, b)) == "#" + Hex2(r) + Hex2(g) + Hex2(b)
  {
    var ds: seq<nat> := [1, r / 16, r % 16, g / 16, g % 16, b / 16, b % 16];
    ComponentDigits(r, g, b);
    HexTextOfDigits(ds);
    assert Hex2(r) + Hex2(g) + Hex2(b) == [UpperHexDigit(ds[1]), UpperHexDigit(ds[2]), UpperHexDigit(ds[3]),
                                           UpperHexDigit(ds[4]), UpperHexDigit(ds[5]), UpperHexDigit(ds[6])];
  }

  lemma UpperOfDigits(text: string, ds: seq<nat>)
    requires forall i :: 0 <= i < |ds| ==> ds[i] < 16
    requires |text| == |ds| && forall i :: 0 <= i < |ds| ==> text[i] == LowerHexDigit(ds[i])
    ensures |ToUpper(text)| == |ds| && forall i :: 0 <= i < |ds| ==> ToUpper(text)[i] == UpperHexDigit(ds[i])
  {
  }

  /** `rgbToHex("rgb(r,g,b)")` for components 0..255 is `#` and exactly six upper-case hex
      digits, two per component, with no alpha part. */
  lemma {:induction false} RgbToHexSixDigits(r: nat, g: nat, b: nat)
    requires r <= 255 && g <= 255 && b <= 255
    ensures RgbToHex(RgbCss(r, g, b)) == Ok(HexColor("#" + Hex2(r) + Hex2(g) + Hex2(b), None))
  {
    RgbCssHasNoWhitespace(r, g, b);
    MatchRgbCss(r, g, b);
    DecimalRoundTrip(r);
    DecimalRoundTrip(g);
    DecimalRoundTrip(b);
    HexTextSixDigits(r, g, b);
  }

  lemma UpperHexDigitIsDigit(d: nat)
    requires d < 16
    ensures IsHexDigit(UpperHexDigit(d)) && HexDigitValue(UpperHexDigit(d)) == Some(d)
  {
    if d < 10 {
      assert UpperHexDigit(d) == (('0' as int) + d) as char;
    } else {
      var c := LowerHexDigit(d);
      assert c == (('a' as int) + d - 10) as char;
      assert c as int == ('a' as int) + d - 10;
      assert 'a' <= c <= 'z';
      assert UpperChar(c) as int == ('A' as int) + d - 10;
    }
  }

  /** The two digits `Hex2` writes denote the component again. */
  lemma Hex2Value(x: nat)
    requires x <= 255
    ensures IsHexDigit(Hex2(x)[0]) && IsHexDigit(Hex2(x)[1])
    ensures PairValue(Hex2(x)[0], Hex2(x)[1]) == x
  {
    UpperHexDigitIsDigit(x / 16);
    UpperHexDigitIsDigit(x % 16);
  }

  /** Reading back `#RRGGBB` written by `Hex2` gives the three components. */
  lemma {:induction false} HexToRgbaOfHex2(r: nat, g: nat, b: nat)
    requires r <= 255 && g <= 255 && b <= 255
    ensures HexToRgba("#" + Hex2(r) + Hex2(g) + Hex2(b)) == Rgb(Some(r), Some(g), Some(b))
  {
    var hr, hg, hb := Hex2(r), Hex2(g), Hex2(b);
    Hex2Value(r);
    Hex2Value(g);
    Hex2Value(b);
    var hex := "#" + hr + hg + hb;
    assert hex == ['#', hr[0], hr[1], hg[0], hg[1], hb[0], hb[1]];
    HexToRgbaComponents(hex);
  }

  /** Round trip: reading back the hex text that `rgbToHex` writes for `rgb(r,g,b)` gives
      `r`, `g` and `b`. */
  lemma {:induction false} HexRoundTrip(r: nat, g: nat, b: nat)
    requires r <= 255 && g <= 255 && b <= 255
    ensures RgbToHex(RgbCss(r, g, b)).Ok?
    ensures HexToRgba(RgbToHex(RgbCss(r, g, b)).value.rgb) == Rgb(Some(r), Some(g), Some(b))
  {
    RgbToHexSixDigits(r, g, b);
    HexToRgbaOfHex2(r, g, b);
  }
}
