/**
 * The device serial number: a 32-bit value kept in a 4-byte EEPROM cell and
 * shown to the host as eight upper-case hexadecimal digits (or the placeholder
 * "UNSETXXX" while the cell still holds the erased, all-ones pattern).
 */
module SerialNumber {

  /** The erased-EEPROM pattern, read as "no serial programmed yet". */
  const Unset: bv32 := 0xffff_ffff

  /** What the descriptor shows while no serial is programmed. */
  const UnsetText: seq<char> := "UNSETXXX"

  predicate IsUpperHexDigit(c: char) {
    ('0' <= c <= '9') || ('A' <= c <= 'F')
  }

  /**
   * `hexdigit`: a nibble as an upper-case ASCII hexadecimal digit. Its callers
   * only ever pass a value in 0..15.
   */
  function HexDigit(i: int): (c: char)
    requires 0 <= i < 16
    ensures IsUpperHexDigit(c)
    ensures ('0' <= c <= '9') <==> i < 10
  {
    if i < 10 then ('0' as int + i) as char else ('A' as int - 10 + i) as char
  }

  /**
   * Value of a hexadecimal digit as the low four bits of a word: the inverse
   * of HexDigit on '0'..'9' and 'A'..'F'.
   */
  function DigitBits(c: char): (v: bv32)
    ensures v < 16
  {
    match c
    case '0' => 0  case '1' => 1  case '2' => 2  case '3' => 3
    case '4' => 4  case '5' => 5  case '6' => 6  case '7' => 7
    case '8' => 8  case '9' => 9  case 'A' => 10 case 'B' => 11
    case 'C' => 12 case 'D' => 13 case 'E' => 14 case 'F' => 15
    case _ => 0
  }

  /** HexDigit and DigitBits are inverse on nibbles. */
  lemma DigitBitsOfHexDigit(x: bv32)
    requires x < 16
    ensures DigitBits(HexDigit(x as int)) == x
  {
  }

  /** Distinct nibbles give distinct digits. */
  lemma HexDigitInjective(x: bv32, y: bv32)
    requires x < 16 && y < 16
    ensures HexDigit(x as int) == HexDigit(y as int) <==> x == y
  {
    DigitBitsOfHexDigit(x);
    DigitBitsOfHexDigit(y);
  }

  /**
   * Eight hexadecimal digits of `s`, most significant nibble first: digit k
   * (k = 0..7) is `(s >> (28 - 4k)) & 0xF`. The leading digit is `s >> 28`,
   * which needs no mask because `s` has 32 bits. ParseHexSerial is its inverse.
   */
  function HexSerial(s: bv32): (r: seq<char>)
    ensures |r| == 8
    ensures forall i :: 0 <= i < 8 ==> IsUpperHexDigit(r[i])
  {
    [HexDigit((s >> 28) as int), HexDigit(((s >> 24) & 0xF) as int),
     HexDigit(((s >> 20) & 0xF) as int), HexDigit(((s >> 16) & 0xF) as int),
     HexDigit(((s >> 12) & 0xF) as int), HexDigit(((s >> 8) & 0xF) as int),
     HexDigit(((s >> 4) & 0xF) as int), HexDigit((s & 0xF) as int)]
  }

  /**
   * The text the identity store shows for a stored value: always eight
   * characters, and the placeholder exactly for the erased pattern.
   */
  function SerialText(s: bv32): (r: seq<char>)
    ensures |r| == 8
    ensures r == UnsetText <==> s == Unset
  {
    if s == Unset then UnsetText else UnsetTextIsNotHex(s); HexSerial(s)
  }

  /** Reference parser: hexadecimal digits, most significant first, into 32 bits. */
  function ParseHex(t: seq<char>): bv32
    decreases |t|
  {
    if t == [] then 0
    else (ParseHex(t[..|t| - 1]) << 4) | DigitBits(t[|t| - 1])
  }

  lemma ParseHexStep(t: seq<char>, n: nat)
    requires 0 < n <= |t|
    ensures ParseHex(t[..n]) == (ParseHex(t[..n - 1]) << 4) | DigitBits(t[n - 1])
  {
    assert t[..n][..n - 1] == t[..n - 1];
  }

  /** Parsing eight digits puts digit k into bits 28 - 4k .. 31 - 4k. */
  lemma ParseHexEight(t: seq<char>)
    requires |t| == 8
    ensures var d := seq(8, i requires 0 <= i < 8 => DigitBits(t[i]));
      ParseHex(t) == (d[0] << 28) | (d[1] << 24) | (d[2] << 20) | (d[3] << 16)
                   | (d[4] << 12) | (d[5] << 8) | (d[6] << 4) | d[7]
  {
    assert t[..0] == [];
    ParseHexStep(t, 1);
    ParseHexStep(t, 2);
    ParseHexStep(t, 3);
    ParseHexStep(t, 4);
    ParseHexStep(t, 5);
    ParseHexStep(t, 6);
    ParseHexStep(t, 7);
    ParseHexStep(t, 8);
    assert t[..8] == t;
  }

  /** Each digit of HexSerial(s) reads back as the nibble it was made from. */
  lemma DigitsOfHexSerial(s: bv32)
    ensures |HexSerial(s)| == 8
    ensures DigitBits(HexSerial(s)[0]) == s >> 28
    ensures DigitBits(HexSerial(s)[1]) == (s >> 24) & 0xF
    ensures DigitBits(HexSerial(s)[2]) == (s >> 20) & 0xF
    ensures DigitBits(HexSerial(s)[3]) == (s >> 16) & 0xF
    ensures DigitBits(HexSerial(s)[4]) == (s >> 12) & 0xF
    ensures DigitBits(HexSerial(s)[5]) == (s >> 8) & 0xF
    ensures DigitBits(HexSerial(s)[6]) == (s >> 4) & 0xF
    ensures DigitBits(HexSerial(s)[7]) == s & 0xF
  {
    DigitBitsOfHexDigit(s >> 28);
    DigitBitsOfHexDigit((s >> 24) & 0xF);
    DigitBitsOfHexDigit((s >> 20) & 0xF);
    DigitBitsOfHexDigit((s >> 16) & 0xF);
    DigitBitsOfHexDigit((s >> 12) & 0xF);
    DigitBitsOfHexDigit((s >> 8) & 0xF);
    DigitBitsOfHexDigit((s >> 4) & 0xF);
    DigitBitsOfHexDigit(s & 0xF);
  }

  /** Parsing the eight digits back as hexadecimal gives the serial again. */
  lemma ParseHexSerial(s: bv32)
    ensures ParseHex(HexSerial(s)) == s
  {
    DigitsOfHexSerial(s);
    ParseHexEight(HexSerial(s));
  }

  /** The displayed text determines the stored value, placeholder included. */
  lemma SerialTextInjective(s: bv32, u: bv32)
    ensures SerialText(s) == SerialText(u) <==> s == u
  {
    if SerialText(s) == SerialText(u) && s != Unset && u != Unset {
      ParseHexSerial(s);
      ParseHexSerial(u);
    }
  }

  /**
   * The placeholder never collides with a programmed serial's text: it is not
   * made of hexadecimal digits.
   */
  lemma UnsetTextIsNotHex(s: bv32)
    ensures UnsetText != HexSerial(s)
  {
    assert !IsUpperHexDigit(UnsetText[0]);
  }

  /** Little-endian bytes of a 32-bit value, as the AVR stores a uint32_t in memory. */
  function EncodeLE(s: bv32): (b: seq<bv8>)
    ensures |b| == 4
    ensures DecodeLE(b) == s
  {
    [(s & 0xFF) as bv8, ((s >> 8) & 0xFF) as bv8, ((s >> 16) & 0xFF) as bv8, (s >> 24) as bv8]
  }

  /** A uint32_t read from four little-endian bytes (`*(uint32_t *) p` on the AVR). */
  function DecodeLE(b: seq<bv8>): (r: bv32)
    requires |b| == 4
    ensures r & 0xFF == b[0] as bv32
    ensures (r >> 8) & 0xFF == b[1] as bv32
    ensures (r >> 16) & 0xFF == b[2] as bv32
    ensures r >> 24 == b[3] as bv32
  {
    (b[0] as bv32) | ((b[1] as bv32) << 8) | ((b[2] as bv32) << 16) | ((b[3] as bv32) << 24)
  }

  /** Every 4-byte cell content is the encoding of exactly one value. */
  lemma EncodeDecodeLE(b: seq<bv8>)
    requires |b| == 4
    ensures EncodeLE(DecodeLE(b)) == b
  {
  }

  /**
   * Storing a serial and reading the cell back shows the same text that the
   * store rendered when it stored it, unless the serial is the erased pattern.
   */
  lemma FetchAfterUpdate(s: bv32)
    ensures s != Unset ==> SerialText(DecodeLE(EncodeLE(s))) == HexSerial(s)
    ensures s == Unset ==> SerialText(DecodeLE(EncodeLE(s))) == UnsetText != HexSerial(s)
  {
    if s == Unset {
      UnsetTextIsNotHex(s);
    }
  }

  /** Three examples of the rendering. */
  lemma HexSerialExamples()
    ensures HexSerial(0x1234_5678) == "12345678"
    ensures HexSerial(0xDEAD_BEEF) == "DEADBEEF"
    ensures HexSerial(Unset) == "FFFFFFFF"
  {
  }
}
