/** The style manager's colour helpers (js/styler.js:196-232): hex colours to
    channels and back, and lightening or darkening by a percentage. Channels
    and percentages are integers; `Math.round(c * ((100 ± p) / 100))`, with
    the factor computed first, is computed exactly, with halves rounded up
    as JavaScript does. */
module Colors {
  import opened Common

  /** `{ r, g, b }` */
  datatype Rgb = Rgb(r: int, g: int, b: int)

  predicate InChannelRange(c: Rgb) {
    0 <= c.r < 256 && 0 <= c.g < 256 && 0 <= c.b < 256
  }

  /** The class `[a-f\d]` under the `i` flag. */
  predicate IsHexDigit(c: char) {
    '0' <= c <= '9' || 'a' <= c <= 'f' || 'A' <= c <= 'F'
  }

  predicate AllHexDigits(s: string) {
    forall i :: 0 <= i < |s| ==> IsHexDigit(s[i])
  }

  function HexDigitValue(c: char): (v: nat)
    requires IsHexDigit(c)
    ensures v < 16
  {
    if c <= '9' then c as int - '0' as int
    else if c <= 'F' then c as int - 'A' as int + 10
    else c as int - 'a' as int + 10
  }

  /** `parseInt(pair, 16)` for two hex digits. */
  function ParseHexPair(hi: char, lo: char): (v: nat)
    requires IsHexDigit(hi) && IsHexDigit(lo)
    ensures v < 256
  {
    16 * HexDigitValue(hi) + HexDigitValue(lo)
  }

  /** What the pattern `^#?(..)(..)(..)$` tries to read as digits: the text
      after a leading `#`, or the whole text when there is none. */
  function DigitsOf(hex: string): (d: string)
    ensures |hex| > 0 && hex[0] == '#' ==> d == hex[1..]
    ensures |hex| == 0 || hex[0] != '#' ==> d == hex
  {
    if |hex| > 0 && hex[0] == '#' then hex[1..] else hex
  }

  /** `hexToRgb`: an optional `#` and exactly six hex digits in either case
      give the three channels; anything else gives `null`. */
  function HexToRgb(hex: string): (r: Option<Rgb>)
    ensures r.Some? <==> |DigitsOf(hex)| == 6 && AllHexDigits(DigitsOf(hex))
    ensures r.Some? ==> InChannelRange(r.value)
  {
    var d := DigitsOf(hex);
    if |d| == 6 && AllHexDigits(d) then
      Some(Rgb(ParseHexPair(d[0], d[1]), ParseHexPair(d[2], d[3]), ParseHexPair(d[4], d[5])))
    else None
  }

  // ---------------------------------------------------------------------
  // rgbToHex: `"#" + ((1 << 24) + (r << 16) + (g << 8) + b).toString(16).slice(1)`

  const TwoTo31: int := 0x8000_0000
  const TwoTo32: int := 0x1_0000_0000

  /** ToInt32 of an integer: the value wrapped into the signed 32-bit range,
      as the operands and the result of `<<` are. */
  function ToInt32(x: int): (r: int)
    ensures -TwoTo31 <= r < TwoTo31
    ensures -TwoTo31 <= x < TwoTo31 ==> r == x
  {
    var m := x % TwoTo32;
    if m >= TwoTo31 then m - TwoTo32 else m
  }

  /** `x << n` for a shift count `n`, given here as the factor `2^n`. */
  function ShiftLeft(x: int, factor: nat): int {
    ToInt32(ToInt32(x) * factor)
  }

  /** The lower-case digit `toString(16)` writes for `d`. */
  function HexChar(d: int): (c: char)
    requires 0 <= d < 16
    ensures IsHexDigit(c) && !IsUpper(c)
  {
    if d < 10 then ('0' as int + d) as char else ('a' as int + d - 10) as char
  }

  lemma HexCharValue(d: int)
    requires 0 <= d < 16
    ensures HexDigitValue(HexChar(d)) == d
  {
  }

  /** `n.toString(16)` for a non-negative integer. */
  function ToHex(n: nat): (s: string)
    ensures |s| >= 1
  {
    if n < 16 then [HexChar(n)] else ToHex(n / 16) + [HexChar(n % 16)]
  }

  /** `n.toString(16)` for any integer: a minus sign before the digits of
      the magnitude when negative. */
  function NumberToHex(n: int): (s: string)
    ensures |s| >= 1
    ensures n < 0 ==> s[0] == '-'
  {
    if n < 0 then "-" + ToHex(-n) else ToHex(n)
  }

  /** `rgbToHex(r, g, b)`, with JavaScript's 32-bit shifts and its
      `slice(1)` that drops the first character of the digits, whatever it is. */
  function RgbToHex(r: int, g: int, b: int): (s: string)
    ensures |s| >= 1 && s[0] == '#'
  {
    "#" + NumberToHex(ShiftLeft(1, 0x100_0000) + ShiftLeft(r, 0x1_0000) + ShiftLeft(g, 0x100) + b)[1..]
  }

  /** The two lower-case digits of a channel. */
  function Hex2(x: int): (s: string)
    requires 0 <= x < 256
    ensures |s| == 2 && AllHexDigits(s)
  {
    [HexChar(x / 16), HexChar(x % 16)]
  }

  /** `parseInt` reads a channel's two digits back. */
  lemma Hex2Parse(x: int)
    requires 0 <= x < 256
    ensures ParseHexPair(Hex2(x)[0], Hex2(x)[1]) == x
  {
    HexCharValue(x / 16);
    HexCharValue(x % 16);
  }

  lemma ToHexStep(m: nat, d: int)
    requires m >= 1 && 0 <= d < 16
    ensures ToHex(16 * m + d) == ToHex(m) + [HexChar(d)]
  {
  }

  /** Appending a channel's two digits. */
  lemma ToHexByte(m: nat, x: int)
    requires m >= 1 && 0 <= x < 256
    ensures ToHex(256 * m + x) == ToHex(m) + Hex2(x)
  {
    ToHexStep(m, x / 16);
    ToHexStep(16 * m + x / 16, x % 16);
  }

  /** With the leading `1` that `1 << 24` contributes, the channels always
      come out as six digits, two per channel. */
  lemma ToHexOfChannels(r: int, g: int, b: int)
    requires 0 <= r < 256 && 0 <= g < 256 && 0 <= b < 256
    ensures ToHex(256 * (256 * (256 + r) + g) + b) == "1" + Hex2(r) + Hex2(g) + Hex2(b)
  {
    ToHexOfTwoChannels(r, g);
    ToHexByte(256 * (256 + r) + g, b);
  }

  lemma ToHexOfTwoChannels(r: int, g: int)
    requires 0 <= r < 256 && 0 <= g < 256
    ensures ToHex(256 * (256 + r) + g) == "1" + Hex2(r) + Hex2(g)
  {
    ToHexOfOneChannel(r);
    ToHexByte(256 + r, g);
  }

  lemma ToHexOfOneChannel(r: int)
    requires 0 <= r < 256
    ensures ToHex(256 + r) == "1" + Hex2(r)
  {
    ToHexByte(1, r);
  }

  /** For channels in range `rgbToHex` writes `#` and six lower-case digits,
      two per channel. */
  lemma RgbToHexOfChannels(r: int, g: int, b: int)
    requires InChannelRange(Rgb(r, g, b))
    ensures RgbToHex(r, g, b) == "#" + Hex2(r) + Hex2(g) + Hex2(b)
    ensures |RgbToHex(r, g, b)| == 7 && AllHexDigits(RgbToHex(r, g, b)[1..])
  {
    var n := 256 * (256 * (256 + r) + g) + b;
    assert ShiftLeft(1, 0x100_0000) + ShiftLeft(r, 0x1_0000) + ShiftLeft(g, 0x100) + b == n;
    ToHexOfChannels(r, g, b);
    assert NumberToHex(n)[1..] == Hex2(r) + Hex2(g) + Hex2(b);
  }

  /** Channels written by `rgbToHex` read back unchanged. */
  lemma RgbToHexToRgb(r: int, g: int, b: int)
    requires InChannelRange(Rgb(r, g, b))
    ensures HexToRgb(RgbToHex(r, g, b)) == Some(Rgb(r, g, b))
  {
    RgbToHexOfChannels(r, g, b);
    Hex2Parse(r);
    Hex2Parse(g);
    Hex2Parse(b);
    var s := RgbToHex(r, g, b);
    var d := DigitsOf(s);
    assert d == Hex2(r) + Hex2(g) + Hex2(b);
    assert d[0..2] == Hex2(r) && d[2..4] == Hex2(g) && d[4..6] == Hex2(b);
  }

  /** The lower-case form of every digit. */
  function LowerDigits(s: string): (r: string)
    ensures |r| == |s|
    ensures forall i :: 0 <= i < |s| ==> r[i] == ToLowerChar(s[i])
  {
    seq(|s|, i requires 0 <= i < |s| => ToLowerChar(s[i]))
  }

  lemma Hex2OfPair(hi: char, lo: char)
    requires IsHexDigit(hi) && IsHexDigit(lo)
    ensures Hex2(ParseHexPair(hi, lo)) == [ToLowerChar(hi), ToLowerChar(lo)]
  {
    var v := ParseHexPair(hi, lo);
    assert v / 16 == HexDigitValue(hi) && v % 16 == HexDigitValue(lo);
  }

  /** A colour `hexToRgb` accepts is written back by `rgbToHex` as `#` and
      its six digits in lower case. */
  lemma HexToRgbToHex(hex: string)
    requires HexToRgb(hex).Some?
    ensures var c := HexToRgb(hex).value;
      RgbToHex(c.r, c.g, c.b) == "#" + LowerDigits(DigitsOf(hex))
  {
    var c := HexToRgb(hex).value;
    var d := DigitsOf(hex);
    RgbToHexOfChannels(c.r, c.g, c.b);
    Hex2OfPair(d[0], d[1]);
    Hex2OfPair(d[2], d[3]);
    Hex2OfPair(d[4], d[5]);
    assert LowerDigits(d) == Hex2(c.r) + Hex2(c.g) + Hex2(c.b);
  }

  // ---------------------------------------------------------------------
  // lightenColor / darkenColor

  /** `Math.round(c * factor)` where the source's factor is `(100 ± p) / 100`,
      computed first. Here `factor` is that percentage as an integer and the
      rounding is exact: the integer nearest `c * factor / 100`, halves
      rounded up. */
  function RoundPercent(c: int, factor: int): (r: int)
    ensures 100 * r - 50 <= c * factor < 100 * r + 50
  {
    (c * factor + 50) / 100
  }

  /** One channel of `lightenColor`: scaled by `100 + p` percent and capped at 255. */
  function LightenChannel(c: int, percent: int): (r: int)
    ensures r <= 255
    ensures 0 <= c <= 255 && percent >= 0 ==> c <= r
    ensures 0 <= c && percent >= -100 ==> 0 <= r
  {
    var v := RoundPercent(c, 100 + percent);
    assert 0 <= c && percent >= -100 ==> 0 <= c * (100 + percent);
    assert 0 <= c && percent >= 0 ==> c * 100 <= c * (100 + percent);
    if v < 255 then v else 255
  }

  /** One channel of `darkenColor`: scaled by `100 - p` percent, with no
      lower bound. */
  function DarkenChannel(c: int, percent: int): (r: int)
    ensures 0 <= c && 0 <= percent <= 100 ==> 0 <= r <= c
  {
    assert 0 <= c && 0 <= percent <= 100 ==> 0 <= c * (100 - percent) <= c * 100;
    RoundPercent(c, 100 - percent)
  }

  /** `lightenColor`: a colour `hexToRgb` rejects comes back unchanged. */
  function LightenColor(color: string, percent: int): (r: string)
    ensures HexToRgb(color).None? ==> r == color
  {
    match HexToRgb(color)
    case None => color
    case Some(c) =>
      RgbToHex(LightenChannel(c.r, percent), LightenChannel(c.g, percent), LightenChannel(c.b, percent))
  }

  /** `darkenColor`: a colour `hexToRgb` rejects comes back unchanged. */
  function DarkenColor(color: string, percent: int): (r: string)
    ensures HexToRgb(color).None? ==> r == color
  {
    match HexToRgb(color)
    case None => color
    case Some(c) =>
      RgbToHex(DarkenChannel(c.r, percent), DarkenChannel(c.g, percent), DarkenChannel(c.b, percent))
  }

  /** Lightening a valid colour by at least -100% gives a valid colour whose
      channels are the lightened ones; a non-negative percentage makes no
      channel darker. */
  lemma LightenColorChannels(color: string, percent: int)
    requires HexToRgb(color).Some? && percent >= -100
    ensures var c := HexToRgb(color).value;
      HexToRgb(LightenColor(color, percent)) ==
        Some(Rgb(LightenChannel(c.r, percent), LightenChannel(c.g, percent), LightenChannel(c.b, percent)))
    ensures var c := HexToRgb(color).value;
      var l := HexToRgb(LightenColor(color, percent)).value;
      percent >= 0 ==> c.r <= l.r && c.g <= l.g && c.b <= l.b
  {
    var c := HexToRgb(color).value;
    RgbToHexToRgb(LightenChannel(c.r, percent), LightenChannel(c.g, percent), LightenChannel(c.b, percent));
  }

  /** Darkening a valid colour by 0..100% gives a valid colour whose channels
      are the darkened ones, none of them lighter. */
  lemma DarkenColorChannels(color: string, percent: int)
    requires HexToRgb(color).Some? && 0 <= percent <= 100
    ensures var c := HexToRgb(color).value;
      HexToRgb(DarkenColor(color, percent)) ==
        Some(Rgb(DarkenChannel(c.r, percent), DarkenChannel(c.g, percent), DarkenChannel(c.b, percent)))
    ensures var c := HexToRgb(color).value;
      var d := HexToRgb(DarkenColor(color, percent)).value;
      d.r <= c.r && d.g <= c.g && d.b <= c.b
  {
    var c := HexToRgb(color).value;
    RgbToHexToRgb(DarkenChannel(c.r, percent), DarkenChannel(c.g, percent), DarkenChannel(c.b, percent));
  }

  /** `darkenColor` does not clamp at zero: darkening white by 150% gives
      channels of -127, which the shifts and `slice(1)` turn into a string
      `hexToRgb` rejects. */
  lemma DarkenPastBlack()
    ensures DarkenChannel(255, 150) == -127
    ensures DarkenColor("#ffffff", 150) == "#08081"
    ensures HexToRgb(DarkenColor("#ffffff", 150)).None?
  {
    assert HexToRgb("#ffffff") == Some(Rgb(255, 255, 255)) by { WhiteChannels(); }
    NegativeChannelsToHex();
  }

  lemma WhiteChannels()
    ensures HexToRgb("#ffffff") == Some(Rgb(255, 255, 255))
  {
    assert DigitsOf("#ffffff") == "ffffff";
  }

  lemma NegativeChannelsToHex()
    ensures RgbToHex(-127, -127, -127) == "#08081"
  {
    NegativeChannelsSum();
    var t := ToHex(0x808081);
    assert t == "808081" by { ToHexOf808081(); }
    assert NumberToHex(0x808081)[1..] == "08081";
  }

  lemma NegativeChannelsSum()
    ensures ShiftLeft(1, 0x100_0000) + ShiftLeft(-127, 0x1_0000) + ShiftLeft(-127, 0x100) + -127 == 0x808081
  {
    assert ShiftLeft(-127, 0x1_0000) == -8323072;
    assert ShiftLeft(-127, 0x100) == -32512;
  }

  lemma ToHexOf808081()
    ensures ToHex(0x808081) == "808081"
  {
    assert ToHex(0x80) == "80";
    ToHexByte(0x80, 0x80);
    ToHexByte(0x8080, 0x81);
    assert Hex2(0x80) == "80" && Hex2(0x81) == "81";
  }
}
