/**
 * Colour helpers (src/utils/color.ts): reading the three channels of a `#rrggbb`
 * string, a darker shade and the perceived brightness.
 *
 * `parseInt(_, 16)` yields NaN (None) for a piece with no leading hex digit; NaN
 * then flows through the arithmetic, and `NaN.toString(16)` is "NaN".
 */
module Colors {
  import opened Wrappers
  import opened Strings

  /** `s.substring(a, b)` for 0 <= a <= b: the indices are clamped to the length. */
  function Substring(s: string, a: nat, b: nat): (r: string)
    requires a <= b
    ensures |r| <= b - a
  {
    var lo := if a < |s| then a else |s|;
    var hi := if b < |s| then b else |s|;
    s[lo..hi]
  }

  /** A `#` followed by six hex digits. */
  predicate IsHexColor(s: string) {
    |s| == 7 && s[0] == '#' && forall i :: 1 <= i < 7 ==> IsHexDigit(s[i])
  }

  datatype Channels = Channels(r: Option<nat>, g: Option<nat>, b: Option<nat>)

  /** Reading a piece of two hex digits gives their value. */
  lemma ParseTwoHexDigits(s: string)
    requires |s| == 2 && IsHexDigit(s[0]) && IsHexDigit(s[1])
    ensures ParseHex(s) == Some(HexValue(s)) && HexValue(s) < 256
  {
    assert HexPrefixLength(s[1..][1..]) == 0;
    assert HexPrefixLength(s) == 2;
    assert s[..2] == s;
    assert s[..1] == [s[0]];
    assert HexValue(s) == HexValue(s[..1]) * 16 + HexDigitValue(s[1]);
  }

  /**
   * `color.replace('#', '')` cut into `substring(0, 2)`, `(2, 4)` and `(4, 6)`, each
   * read by `parseInt(_, 16)`; for a hex colour, each the value of its two digits.
   */
  function ParseChannels(color: string): (c: Channels)
    ensures IsHexColor(color) ==>
      c == Channels(Some(HexValue(color[1..3])), Some(HexValue(color[3..5])), Some(HexValue(color[5..7]))) &&
      c.r.value < 256 && c.g.value < 256 && c.b.value < 256
  {
    var hex := RemoveFirst(color, "#");
    var c := Channels(ParseHex(Substring(hex, 0, 2)), ParseHex(Substring(hex, 2, 4)), ParseHex(Substring(hex, 4, 6)));
    if IsHexColor(color) then
      ColorPieces(color);
      ParseTwoHexDigits(color[1..3]);
      ParseTwoHexDigits(color[3..5]);
      ParseTwoHexDigits(color[5..7]);
      c
    else c
  }

  /** The three pieces of a seven-character `#......` string are its pairs after the '#'. */
  lemma ColorPieces(color: string)
    requires |color| == 7 && color[0] == '#'
    ensures var hex := RemoveFirst(color, "#");
      Substring(hex, 0, 2) == color[1..3] && Substring(hex, 2, 4) == color[3..5] && Substring(hex, 4, 6) == color[5..7]
  {
    assert color[..1] == "#";
    var hex := RemoveFirst(color, "#");
    assert hex == color[1..] && |hex| == 6;
    assert hex[0..2] == color[1..3];
    assert hex[2..4] == color[3..5];
    assert hex[4..6] == color[5..7];
  }

  /** `Math.max(0, c - 40)` of a channel, NaN staying NaN. */
  function Darken(c: Option<nat>): (d: Option<nat>)
    ensures c.Some? <==> d.Some?
    ensures c.Some? ==>
      d.value <= c.value && (c.value >= 40 ==> d.value == c.value - 40) &&
      (c.value < 40 ==> d.value == 0)
  {
    if c.None? then None else Some(if c.value >= 40 then c.value - 40 else 0)
  }

  /** `d.toString(16).padStart(2, '0')`. */
  function ChannelText(d: Option<nat>): string {
    if d.None? then "NaN" else Pad2(NatToHex(d.value))
  }

  /** `getDarkerShade`. */
  function DarkerShade(color: string): string {
    var c := ParseChannels(color);
    "#" + ChannelText(Darken(c.r)) + ChannelText(Darken(c.g)) + ChannelText(Darken(c.b))
  }

  predicate IsLowerHexDigit(ch: char) {
    '0' <= ch <= '9' || 'a' <= ch <= 'f'
  }

  /** Two lower-case hex digits, as `Pad2(NatToHex(v))` writes a byte. */
  lemma ByteText(v: nat)
    requires v < 256
    ensures var t := Pad2(NatToHex(v));
      |t| == 2 && IsLowerHexDigit(t[0]) && IsLowerHexDigit(t[1]) && ParseHex(t) == Some(v) && HexValue(t) == v
  {
    ParseHexOfPaddedByte(v);
    var t := Pad2(NatToHex(v));
    assert t[0] in NatToHex(v) || t[0] == '0';
    assert t[1] in NatToHex(v);
    ParseTwoHexDigits(t);
  }

  /** A colour written from three two-digit channel texts. */
  lemma PartsOfColor(tr: string, tg: string, tb: string)
    requires |tr| == 2 && |tg| == 2 && |tb| == 2
    ensures var d := "#" + tr + tg + tb;
      |d| == 7 && d[0] == '#' && d[1..3] == tr && d[3..5] == tg && d[5..7] == tb &&
      d[1] == tr[0] && d[2] == tr[1] && d[3] == tg[0] && d[4] == tg[1] && d[5] == tb[0] && d[6] == tb[1]
  {
  }

  predicate IsHexPair(t: string) {
    |t| == 2 && IsHexDigit(t[0]) && IsHexDigit(t[1])
  }

  lemma ChannelsOfParts(tr: string, tg: string, tb: string, d: string)
    requires IsHexPair(tr) && IsHexPair(tg) && IsHexPair(tb) && d == "#" + tr + tg + tb
    ensures IsHexColor(d) && ParseChannels(d) == Channels(Some(HexValue(tr)), Some(HexValue(tg)), Some(HexValue(tb)))
  {
    PartsOfColor(tr, tg, tb);
  }

  /** Writing three bytes as hex and reading them back. */
  lemma ChannelsOfBytes(r: nat, g: nat, b: nat, d: string)
    requires r < 256 && g < 256 && b < 256
    requires d == "#" + Pad2(NatToHex(r)) + Pad2(NatToHex(g)) + Pad2(NatToHex(b))
    ensures IsHexColor(d) && (forall i :: 1 <= i < 7 ==> IsLowerHexDigit(d[i]))
    ensures ParseChannels(d) == Channels(Some(r), Some(g), Some(b))
  {
    var tr, tg, tb := Pad2(NatToHex(r)), Pad2(NatToHex(g)), Pad2(NatToHex(b));
    ByteText(r);
    ByteText(g);
    ByteText(b);
    ChannelsOfParts(tr, tg, tb, d);
    LowerParts(tr, tg, tb, d);
  }

  lemma LowerParts(tr: string, tg: string, tb: string, d: string)
    requires |tr| == 2 && |tg| == 2 && |tb| == 2 && d == "#" + tr + tg + tb
    requires IsLowerHexDigit(tr[0]) && IsLowerHexDigit(tr[1]) && IsLowerHexDigit(tg[0])
    requires IsLowerHexDigit(tg[1]) && IsLowerHexDigit(tb[0]) && IsLowerHexDigit(tb[1])
    ensures forall i :: 1 <= i < 7 ==> IsLowerHexDigit(d[i])
  {
    PartsOfColor(tr, tg, tb);
  }

  /**
   * For a hex colour the shade is again a hex colour, in lower case, whose
   * channels are the input's lowered by 40 and floored at 0: none is raised.
   */
  lemma DarkerShadeOfHexColor(color: string)
    requires IsHexColor(color)
    ensures var d := DarkerShade(color);
      var c := ParseChannels(color);
      IsHexColor(d) && (forall i :: 1 <= i < 7 ==> IsLowerHexDigit(d[i])) &&
      ParseChannels(d) == Channels(Darken(c.r), Darken(c.g), Darken(c.b)) &&
      ParseChannels(d).r.value <= c.r.value && ParseChannels(d).g.value <= c.g.value &&
      ParseChannels(d).b.value <= c.b.value
  {
    var c := ParseChannels(color);
    ChannelsOfBytes(Darken(c.r).value, Darken(c.g).value, Darken(c.b).value, DarkerShade(color));
  }

  /** Black is already as dark as it gets. */
  lemma DarkerShadeOfBlack()
    ensures DarkerShade("#000000") == "#000000"
  {
    var black := "#000000";
    assert NatToHex(0) == "0";
    assert Pad2("0") == "00";
    assert black == "#" + Pad2(NatToHex(0)) + Pad2(NatToHex(0)) + Pad2(NatToHex(0));
    ChannelsOfBytes(0, 0, 0, black);
  }

  /** `getColorBrightness`: (299 r + 587 g + 114 b) / 1000, NaN when a channel is. */
  function Brightness(color: string): (v: Option<real>)
    ensures var c := ParseChannels(color);
      v.Some? <==> c.r.Some? && c.g.Some? && c.b.Some?
  {
    var c := ParseChannels(color);
    if c.r.None? || c.g.None? || c.b.None? then None
    else Some((c.r.value * 299 + c.g.value * 587 + c.b.value * 114) as real / 1000.0)
  }

  /** For a hex colour the brightness is a number between 0 and 255. */
  lemma BrightnessInRange(color: string)
    requires IsHexColor(color)
    ensures Brightness(color).Some? && 0.0 <= Brightness(color).value <= 255.0
  {
  }

  /** Brightness grows with every channel: a colour no darker in each channel is no darker overall. */
  lemma BrightnessMonotone(x: string, y: string)
    requires IsHexColor(x) && IsHexColor(y)
    requires var cx, cy := ParseChannels(x), ParseChannels(y);
      cx.r.value <= cy.r.value && cx.g.value <= cy.g.value && cx.b.value <= cy.b.value
    ensures Brightness(x).value <= Brightness(y).value
  {
  }

  /**
   * A pair starting `0x` is not two hex digits: `parseInt` skips the prefix and
   * finds nothing, so a colour such as "#0x0000" has NaN red, NaN brightness, and
   * a darker shade that starts "#NaN".
   */
  lemma PrefixedRedIsNaN(color: string)
    requires |color| >= 3 && color[0] == '#' && HasHexPrefix(color[1..3])
    ensures ParseChannels(color).r == None
    ensures Brightness(color) == None
    ensures var c := ParseChannels(color);
      DarkerShade(color) == "#NaN" + ChannelText(Darken(c.g)) + ChannelText(Darken(c.b))
  {
    RedPiece(color);
    assert ParseHex(color[1..3]) == None;
    NaNRedShade(color);
  }

  /** The piece red is read from: the two characters after the '#'. */
  lemma RedPiece(color: string)
    requires |color| >= 3 && color[0] == '#'
    ensures Substring(RemoveFirst(color, "#"), 0, 2) == color[1..3]
  {
    assert color[..1] == "#";
    var hex := RemoveFirst(color, "#");
    assert hex == color[1..];
  }

  /** A NaN red channel is written "NaN" at the head of the shade. */
  lemma NaNRedShade(color: string)
    requires ParseChannels(color).r == None
    ensures var c := ParseChannels(color);
      DarkerShade(color) == "#NaN" + ChannelText(Darken(c.g)) + ChannelText(Darken(c.b))
  {
    assert "#" + "NaN" == "#NaN";
  }
}
