/**
 * The RGB side of the colour picker (src/components/ColorPickerModal.tsx):
 * `rgbToHex` and the state update of `handleRGBChange`. The modal's markup, its
 * grid of preset colours and its sliders are not modelled.
 */
module ColorPicker {
  import opened Wrappers
  import opened Strings
  import opened JsMath
  import opened Colors

  /** `rgbToHex`: `#` and each component as `toString(16)` padded to two digits. */
  function RgbToHex(r: int, g: int, b: int): string {
    "#" + Pad2(IntToHex(r)) + Pad2(IntToHex(g)) + Pad2(IntToHex(b))
  }

  /**
   * For components in 0..255 the result is a seven-character lower-case hex
   * colour, and reading its pairs back the way `color.ts` does gives the components.
   */
  lemma RgbToHexRoundTrip(r: int, g: int, b: int)
    requires 0 <= r < 256 && 0 <= g < 256 && 0 <= b < 256
    ensures var hex := RgbToHex(r, g, b);
      |hex| == 7 && IsHexColor(hex) && (forall i :: 1 <= i < 7 ==> IsLowerHexDigit(hex[i])) &&
      ParseChannels(hex) == Channels(Some(r), Some(g), Some(b))
  {
    ChannelsOfBytes(r, g, b, RgbToHex(r, g, b));
  }

  datatype Component = R | G | B

  /** `rgbValues`. */
  datatype Rgb = Rgb(r: int, g: int, b: int)

  /** `{ ...rgb, [component]: v }`: the named component replaced, the other two kept. */
  function WithComponent(rgb: Rgb, component: Component, v: int): (next: Rgb)
    ensures (component == R ==> next.r == v) && (component != R ==> next.r == rgb.r)
    ensures (component == G ==> next.g == v) && (component != G ==> next.g == rgb.g)
    ensures (component == B ==> next.b == v) && (component != B ==> next.b == rgb.b)
  {
    match component
    case R => rgb.(r := v)
    case G => rgb.(g := v)
    case B => rgb.(b := v)
  }

  function HexOf(rgb: Rgb): string {
    RgbToHex(rgb.r, rgb.g, rgb.b)
  }

  /** The modal's colour state: the slider values, the selected colour and what was reported to `onSelectColor`. */
  class ColorPickerState {
    var rgbValues: Rgb
    var selectedColor: string
    var reported: seq<string>

    constructor (initialColor: string)
      ensures rgbValues == Rgb(139, 92, 246) && selectedColor == initialColor && reported == []
    {
      rgbValues := Rgb(139, 92, 246);
      selectedColor := initialColor;
      reported := [];
    }

    /** `handleColorSelect`: a preset becomes the selection and is reported; the sliders stay. */
    method HandleColorSelect(color: string)
      modifies this
      ensures rgbValues == old(rgbValues) && selectedColor == color && reported == old(reported) + [color]
    {
      selectedColor := color;
      reported := reported + [color];
    }

    /**
     * `handleRGBChange`: the rounded value replaces one component, and the hex of
     * the new triple becomes the selection and is reported.
     */
    method HandleRgbChange(component: Component, value: real)
      modifies this
      ensures rgbValues == WithComponent(old(rgbValues), component, Round(value))
      ensures selectedColor == HexOf(rgbValues)
      ensures reported == old(reported) + [selectedColor]
    {
      var newRgb := WithComponent(rgbValues, component, Round(value));
      rgbValues := newRgb;
      var hex := RgbToHex(newRgb.r, newRgb.g, newRgb.b);
      selectedColor := hex;
      reported := reported + [hex];
    }
  }

  /**
   * With every component in 0..255 after the change, the reported colour reads
   * back as the new triple: the changed component and the two kept ones.
   */
  lemma RgbChangeReadsBack(rgb: Rgb, component: Component, value: real)
    requires var next := WithComponent(rgb, component, Round(value));
      0 <= next.r < 256 && 0 <= next.g < 256 && 0 <= next.b < 256
    ensures var next := WithComponent(rgb, component, Round(value));
      ParseChannels(HexOf(next)) == Channels(Some(next.r), Some(next.g), Some(next.b))
  {
    var next := WithComponent(rgb, component, Round(value));
    RgbToHexRoundTrip(next.r, next.g, next.b);
  }

  /** Two hex digits of `n`, written as `hi` and `lo`. */
  lemma HexOfByte(n: nat, hi: nat, lo: nat)
    requires 16 <= n < 256 && n == 16 * hi + lo && lo < 16
    ensures IntToHex(n) == [HexDigitChar(hi), HexDigitChar(lo)] && Pad2(IntToHex(n)) == IntToHex(n)
  {
    DivModUnique(n, 16, hi, lo);
    assert hi < 16;
    assert NatToHex(hi) == [HexDigitChar(hi)];
    assert NatToHex(n) == NatToHex(hi) + [HexDigitChar(lo)];
  }

  /** The initial slider values are the default initial colour '#8B5CF6', in lower case. */
  lemma InitialRgbIsInitialColor()
    ensures RgbToHex(139, 92, 246) == Lower("#8B5CF6")
  {
    HexOfByte(139, 8, 11);
    HexOfByte(92, 5, 12);
    HexOfByte(246, 15, 6);
    var hex := RgbToHex(139, 92, 246);
    assert hex == ['#', '8', 'b', '5', 'c', 'f', '6'];
    var lower := Lower("#8B5CF6");
    assert lower == ['#', '8', 'b', '5', 'c', 'f', '6'] by {
      assert |lower| == 7;
      assert lower[2] == ToLower('B') == 'b';
      assert lower[4] == ToLower('C') == 'c';
      assert lower[5] == ToLower('F') == 'f';
    }
  }
}
