/**
 * The notifier's application state and its USB hooks. The hardware is plain
 * state: PORTB is a byte, the EEPROM cell holding the serial is four bytes,
 * and `serno_str` is the nine-slot string descriptor exposed to the host.
 */
module Notifier {
  import opened SerialNumber
  import opened Colour
  import opened UsbRequests

  /** Leading byte of a Set Serial command. */
  const CmdSetSerial: bv8 := 0xfa

  datatype Option<T> = None | Some(value: T)

  /**
   * Characters as they sit in the `int` slots of a string descriptor: one
   * 16-bit code unit each.
   */
  function CharCodes(t: seq<char>): seq<int> {
    seq(|t|, i requires 0 <= i < |t| => t[i] as int)
  }

  /** The descriptor slots that show text `t` after the fixed header. */
  function SernoSlots(t: seq<char>): seq<int> {
    [SernoHeader] + CharCodes(t)
  }

  /** Every slot holds a 16-bit value, as an AVR `int` does. */
  ghost predicate SlotsFit(slots: seq<int>) {
    forall i :: 0 <= i < |slots| ==> 0 <= slots[i] < 0x1_0000
  }

  /** Text made of 16-bit characters fits the descriptor slots. */
  lemma SernoSlotsFit(t: seq<char>)
    requires forall i :: 0 <= i < |t| ==> t[i] as int < 0x1_0000
    ensures SlotsFit(SernoSlots(t))
  {
  }

  class Device {
    /** The PORTB output register; its LED lines are AllBits. */
    var portb: bv8
    /** The EEPROM cell at address 0 that keeps the serial, lowest byte first. */
    var eeprom: seq<bv8>
    /** `serno_str`: slot 0 is the descriptor header, slots 1..8 the characters. */
    const sernoStr: array<int>

    ghost predicate Valid()
      reads this, sernoStr
    {
      |eeprom| == 4 && sernoStr.Length == SernoStrSlots && sernoStr[0] == SernoHeader
      && SlotsFit(sernoStr[..])
    }

    /**
     * Power-on state: the EEPROM keeps whatever was stored before, PORTB has
     * its reset value, and `serno_str` holds its static initialiser.
     */
    constructor (storedCell: seq<bv8>, portbAtReset: bv8)
      requires |storedCell| == 4
      ensures Valid() && fresh(sernoStr)
      ensures eeprom == storedCell && portb == portbAtReset
      ensures sernoStr[..] == SernoSlots(UnsetText)
    {
      portb := portbAtReset;
      eeprom := storedCell;
      sernoStr := new int[SernoStrSlots](i requires 0 <= i < SernoStrSlots =>
        if i == 0 then SernoHeader else UnsetText[i - 1] as int);
      new;
      assert sernoStr[..] == SernoSlots(UnsetText);
    }

    /** Renders `serno` into slots 1..8 as eight hex digits; slot 0 is left alone. */
    method WriteHexSlots(serno: bv32)
      requires Valid()
      modifies sernoStr
      ensures Valid()
      ensures sernoStr[..] == SernoSlots(HexSerial(serno))
    {
      sernoStr[1] := HexDigit((serno >> 28) as int) as int;
      sernoStr[2] := HexDigit(((serno >> 24) & 0xF) as int) as int;
      sernoStr[3] := HexDigit(((serno >> 20) & 0xF) as int) as int;
      sernoStr[4] := HexDigit(((serno >> 16) & 0xF) as int) as int;
      sernoStr[5] := HexDigit(((serno >> 12) & 0xF) as int) as int;
      sernoStr[6] := HexDigit(((serno >> 8) & 0xF) as int) as int;
      sernoStr[7] := HexDigit(((serno >> 4) & 0xF) as int) as int;
      sernoStr[8] := HexDigit((serno & 0xF) as int) as int;
      assert sernoStr[..] == SernoSlots(HexSerial(serno));
      SernoSlotsFit(HexSerial(serno));
    }

    /**
     * `fetch_serno`: reads the stored serial and renders it, or the
     * placeholder when the cell holds the erased pattern.
     */
    method FetchSerno()
      requires Valid()
      modifies sernoStr
      ensures Valid()
      ensures sernoStr[..] == SernoSlots(SerialText(DecodeLE(eeprom)))
    {
      var serno := DecodeLE(eeprom);
      if serno == Unset {
        sernoStr[1] := 'U' as int;
        sernoStr[2] := 'N' as int;
        sernoStr[3] := 'S' as int;
        sernoStr[4] := 'E' as int;
        sernoStr[5] := 'T' as int;
        sernoStr[6] := 'X' as int;
        sernoStr[7] := 'X' as int;
        sernoStr[8] := 'X' as int;
        assert sernoStr[..] == SernoSlots(UnsetText);
      } else {
        WriteHexSlots(serno);
      }
    }

    /**
     * `update_serno`: stores `serno` in the cell and renders it as eight hex
     * digits, even when it is the erased pattern.
     */
    method UpdateSerno(serno: bv32)
      requires Valid()
      modifies this`eeprom, sernoStr
      ensures Valid()
      ensures eeprom == EncodeLE(serno)
      ensures sernoStr[..] == SernoSlots(HexSerial(serno))
    {
      eeprom := EncodeLE(serno);
      WriteHexSlots(serno);
    }

    /**
     * `usbFunctionDescriptor`: string descriptor 3 is `serno_str`, with its
     * full size; any other descriptor request gets no data from this hook.
     */
    method FunctionDescriptor(rq: seq<bv8>) returns (len: nat, msg: Option<seq<int>>)
      requires Valid() && |rq| == 8
      ensures IsSerialStringRequest(rq) ==> len == SernoStrSize && msg == Some(sernoStr[..])
      ensures !IsSerialStringRequest(rq) ==> len == 0 && msg == None
    {
      if rq[3] == UsbdescrString && rq[2] == SerialStringIndex {
        return SernoStrSize, Some(sernoStr[..]);
      }
      return 0, None;
    }

    /**
     * `usbFunctionRead`: for a non-empty request, reports the colour code the
     * LEDs currently show in `data[0]`.
     */
    method FunctionRead(data: array<bv8>, len: bv8) returns (r: bv8)
      requires Valid()
      requires len != 0 ==> data.Length > 0
      modifies data
      ensures len == 0 ==> r == 0 && data[..] == old(data[..])
      ensures len != 0 ==> r == len && data[..] == old(data[..])[0 := CodeForRgb(RgbOfPort(portb))]
    {
      if len != 0 {
        var status: bv8 := 0;
        if portb & RedBit != 0 {
          status := status | RgbRed;
        }
        if portb & GreenBit != 0 {
          status := status | RgbGreen;
        }
        if portb & BlueBit != 0 {
          status := status | RgbBlue;
        }
        assert status == RgbOfPort(portb);
        data[0] := ReadColourMap[status as int];
        return len;
      }
      return 0;
    }

    /**
     * Shows colour code `code` on the LEDs by a read-modify-write of PORTB
     * that builds the new value one LED line at a time.
     */
    method ShowColour(code: bv8)
      requires code < 8
      modifies this`portb
      ensures portb == PortWithRgb(old(portb), RgbForCode(code))
    {
      var rgbVal := WriteColourMap[code as int];
      var portVal := portb & !AllBits;
      if rgbVal & RgbRed != 0 {
        portVal := portVal | RedBit;
      }
      if rgbVal & RgbGreen != 0 {
        portVal := portVal | GreenBit;
      }
      if rgbVal & RgbBlue != 0 {
        portVal := portVal | BlueBit;
      }
      portb := portVal;
    }

    /**
     * `usbFunctionWrite`, the feature-report path: a first byte 0..7 sets the
     * colour, CmdSetSerial sets the serial from the next four bytes (read
     * whatever `len` is), anything else is ignored. It always accepts `len`.
     */
    method FunctionWrite(data: seq<bv8>, len: bv8) returns (r: bv8)
      requires Valid()
      requires |data| >= 1 && (data[0] == CmdSetSerial ==> |data| >= 5)
      modifies this`portb, this`eeprom, sernoStr
      ensures Valid() && r == len
      ensures data[0] < 8 ==>
        portb == PortWithRgb(old(portb), RgbForCode(data[0]))
        && eeprom == old(eeprom) && sernoStr[..] == old(sernoStr[..])
      ensures data[0] == CmdSetSerial ==>
        portb == old(portb) && eeprom == data[1..5]
        && sernoStr[..] == SernoSlots(HexSerial(DecodeLE(data[1..5])))
      ensures data[0] >= 8 && data[0] != CmdSetSerial ==>
        portb == old(portb) && eeprom == old(eeprom) && sernoStr[..] == old(sernoStr[..])
    {
      if data[0] < 8 {
        ShowColour(data[0]);
      } else if data[0] == CmdSetSerial {
        EncodeDecodeLE(data[1..5]);
        UpdateSerno(DecodeLE(data[1..5]));
      }
      return len;
    }

    /**
     * `usbFunctionWriteOut`, the interrupt OUT path: an empty packet is
     * ignored, a first byte 0..7 sets the colour, and CmdSetSerial sets the
     * serial only in a packet of exactly five bytes.
     */
    method FunctionWriteOut(data: seq<bv8>, len: bv8)
      requires Valid()
      requires len as int <= |data|
      modifies this`portb, this`eeprom, sernoStr
      ensures Valid()
      ensures len != 0 && data[0] < 8 ==>
        portb == PortWithRgb(old(portb), RgbForCode(data[0]))
        && eeprom == old(eeprom) && sernoStr[..] == old(sernoStr[..])
      ensures len == 5 && data[0] == CmdSetSerial ==>
        portb == old(portb) && eeprom == data[1..5]
        && sernoStr[..] == SernoSlots(HexSerial(DecodeLE(data[1..5])))
      ensures len == 0 || (data[0] >= 8 && !(len == 5 && data[0] == CmdSetSerial)) ==>
        portb == old(portb) && eeprom == old(eeprom) && sernoStr[..] == old(sernoStr[..])
    {
      if len == 0 {
        return;
      }
      if data[0] < 8 {
        ShowColour(data[0]);
      } else if len == 5 && data[0] == CmdSetSerial {
        EncodeDecodeLE(data[1..5]);
        UpdateSerno(DecodeLE(data[1..5]));
      }
    }

    /**
     * The application steps of start-up: load the identity into the string
     * descriptor, then switch the LEDs off without touching the other port bits.
     */
    method Boot()
      requires Valid()
      modifies sernoStr, this`portb
      ensures Valid()
      ensures sernoStr[..] == SernoSlots(SerialText(DecodeLE(eeprom)))
      ensures portb == old(portb) & !AllBits
      ensures RgbOfPort(portb) == 0
    {
      FetchSerno();
      portb := portb & !AllBits;
    }
  }

  /**
   * Setting colour `code` on either write path and then reading the status
   * reports `code`, whatever the port held before.
   */
  method ColourReadBack(portbAtReset: bv8, storedCell: seq<bv8>, code: bv8, viaInterrupt: bool)
    returns (reported: bv8)
    requires |storedCell| == 4 && code < 8
    ensures reported == code
  {
    var d := new Device(storedCell, portbAtReset);
    if viaInterrupt {
      d.FunctionWriteOut([code], 1);
    } else {
      var _ := d.FunctionWrite([code], 1);
    }
    var buf := new bv8[8];
    var n := d.FunctionRead(buf, 8);
    ColourRoundTrip(portbAtReset, code);
    reported := buf[0];
  }

  /**
   * A device with an unprogrammed cell shows "UNSETXXX"; after the host sets
   * serial 0xDEADBEEF over the feature report, the identity reloaded at the
   * next start-up shows "DEADBEEF".
   */
  method SerialLifecycle() returns (before: seq<int>, after: seq<int>)
    ensures before == SernoSlots("UNSETXXX")
    ensures after == SernoSlots("DEADBEEF")
  {
    var d := new Device([0xff, 0xff, 0xff, 0xff], 0);
    d.Boot();
    var getSerial: seq<bv8> := [0x80, 0x06, 0x03, 0x03, 0x09, 0x04, 0xff, 0x00];
    var len, msg := d.FunctionDescriptor(getSerial);
    before := msg.value;
    var report: seq<bv8> := [CmdSetSerial, 0xef, 0xbe, 0xad, 0xde, 0, 0, 0];
    var _ := d.FunctionWrite(report, 8);
    assert report[1..5] == [0xef, 0xbe, 0xad, 0xde] by {
      assert |report[1..5]| == 4;
      assert report[1..5][0] == 0xef && report[1..5][3] == 0xde;
    }
    assert d.eeprom == [0xef, 0xbe, 0xad, 0xde];
    assert DecodeLE(d.eeprom) == 0xDEAD_BEEF;
    d := new Device(d.eeprom, 0);
    d.Boot();
    HexSerialExamples();
    assert d.sernoStr[..] == SernoSlots("DEADBEEF");
    len, msg := d.FunctionDescriptor(getSerial);
    after := msg.value;
  }

  /**
   * On the interrupt OUT path a Set Serial packet of any length other than
   * five bytes leaves the stored serial and its rendering as they were.
   */
  method SetSerialNeedsFiveBytes(storedCell: seq<bv8>, data: seq<bv8>, len: bv8)
    returns (cell: seq<bv8>, shown: seq<int>)
    requires |storedCell| == 4 && len as int <= |data| && len != 5
    requires len != 0 ==> data[0] == CmdSetSerial
    ensures cell == storedCell
    ensures shown == SernoSlots(SerialText(DecodeLE(storedCell)))
  {
    var d := new Device(storedCell, 0);
    d.Boot();
    d.FunctionWriteOut(data, len);
    cell, shown := d.eeprom, d.sernoStr[..];
  }

  /**
   * Setting the serial to the erased pattern renders "FFFFFFFF" at once, but
   * the identity reloaded at the next start-up reads the cell as unprogrammed.
   */
  method ErasedPatternAfterRestart(storedCell: seq<bv8>) returns (rendered: seq<int>, reloaded: seq<int>)
    requires |storedCell| == 4
    ensures rendered == SernoSlots("FFFFFFFF")
    ensures reloaded == SernoSlots("UNSETXXX")
  {
    var d := new Device(storedCell, 0);
    var _ := d.FunctionWrite([CmdSetSerial, 0xff, 0xff, 0xff, 0xff], 5);
    HexSerialExamples();
    rendered := d.sernoStr[..];
    d := new Device(d.eeprom, 0);
    d.Boot();
    reloaded := d.sernoStr[..];
  }
}
