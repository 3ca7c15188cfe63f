/**
 * The colour codec: the vendor's colour codes 0..7, the logical RGB value
 * (bit 0 red, bit 1 green, bit 2 blue) and the three LED lines of PORTB,
 * which are wired in a different order (green on bit 0, red on bit 1, blue
 * on bit 2).
 */
module Colour {

  /** PORTB bit driving the green LED. */
  const GreenBit: bv8 := 1
  /** PORTB bit driving the red LED. */
  const RedBit: bv8 := 2
  /** PORTB bit driving the blue LED. */
  const BlueBit: bv8 := 4
  /** The LED lines; no other bit of PORTB belongs to the notifier. */
  const AllBits: bv8 := RedBit | GreenBit | BlueBit

  /** Channels of the logical RGB value. */
  const RgbRed: bv8 := 1
  const RgbGreen: bv8 := 2
  const RgbBlue: bv8 := 4

  /** Vendor colour code to logical RGB value, used when the host sets a colour. */
  const WriteColourMap: seq<bv8> := [0, 2, 1, 4, 6, 3, 5, 7]

  /** Logical RGB value to vendor colour code, used when the host reads the colour. */
  const ReadColourMap: seq<bv8> := [0, 2, 1, 5, 3, 6, 4, 7]

  function RgbForCode(code: bv8): (rgb: bv8)
    requires code < 8
    ensures rgb < 8
  {
    WriteColourMap[code as int]
  }

  function CodeForRgb(rgb: bv8): (code: bv8)
    requires rgb < 8
    ensures code < 8
  {
    ReadColourMap[rgb as int]
  }

  /** Reading the colour back after setting it gives the code that was set. */
  lemma CodeForRgbForCode(code: bv8)
    requires code < 8
    ensures CodeForRgb(RgbForCode(code)) == code
  {
  }

  /** The other composition: the two tables are mutually inverse permutations of 0..7. */
  lemma RgbForCodeForRgb(rgb: bv8)
    requires rgb < 8
    ensures RgbForCode(CodeForRgb(rgb)) == rgb
  {
  }

  /** Distinct colour codes light distinct LED combinations. */
  lemma RgbForCodeInjective(c: bv8, d: bv8)
    requires c < 8 && d < 8
    ensures RgbForCode(c) == RgbForCode(d) <==> c == d
  {
    CodeForRgbForCode(c);
    CodeForRgbForCode(d);
  }

  /**
   * PORTB after showing `rgb`: the LED lines follow the three channels and
   * every other bit of the port keeps its value.
   */
  function PortWithRgb(port: bv8, rgb: bv8): (r: bv8)
    ensures r & !AllBits == port & !AllBits
    ensures (r & RedBit != 0) <==> (rgb & RgbRed != 0)
    ensures (r & GreenBit != 0) <==> (rgb & RgbGreen != 0)
    ensures (r & BlueBit != 0) <==> (rgb & RgbBlue != 0)
  {
    (port & !AllBits)
      | (if rgb & RgbRed != 0 then RedBit else 0)
      | (if rgb & RgbGreen != 0 then GreenBit else 0)
      | (if rgb & RgbBlue != 0 then BlueBit else 0)
  }

  /** The logical RGB value the LED lines of `port` show. */
  function RgbOfPort(port: bv8): (rgb: bv8)
    ensures rgb < 8
    ensures (rgb & RgbRed != 0) <==> (port & RedBit != 0)
    ensures (rgb & RgbGreen != 0) <==> (port & GreenBit != 0)
    ensures (rgb & RgbBlue != 0) <==> (port & BlueBit != 0)
  {
    (if port & RedBit != 0 then RgbRed else 0)
      | (if port & GreenBit != 0 then RgbGreen else 0)
      | (if port & BlueBit != 0 then RgbBlue else 0)
  }

  /** Decoding the port undoes encoding into it. */
  lemma RgbOfPortWithRgb(port: bv8, rgb: bv8)
    requires rgb < 8
    ensures RgbOfPort(PortWithRgb(port, rgb)) == rgb
  {
  }

  /** Re-showing what the port already shows leaves the port as it was. */
  lemma PortWithRgbOfPort(port: bv8)
    ensures PortWithRgb(port, RgbOfPort(port)) == port
  {
  }

  /**
   * The physical layout swaps the red and green bits of the logical value:
   * the LED bits of the port are not the RGB value itself.
   */
  lemma PortLayoutSwapsRedGreen(port: bv8, rgb: bv8)
    requires rgb < 8
    ensures PortWithRgb(port, rgb) & AllBits
            == ((rgb & RgbRed) << 1) | ((rgb & RgbGreen) >> 1) | (rgb & RgbBlue)
  {
  }

  /** Setting colour code `code` on any port and reading the code back gives `code`. */
  lemma ColourRoundTrip(port: bv8, code: bv8)
    requires code < 8
    ensures CodeForRgb(RgbOfPort(PortWithRgb(port, RgbForCode(code)))) == code
  {
    RgbOfPortWithRgb(port, RgbForCode(code));
    CodeForRgbForCode(code);
  }
}
