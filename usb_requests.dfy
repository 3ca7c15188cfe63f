/**
 * Classification of USB control requests as the notifier's setup and
 * descriptor hooks see them. A request is the 8-byte SETUP packet laid out
 * as `usbRequest_t`: byte 0 bmRequestType, byte 1 bRequest, bytes 2..3
 * wValue (low byte first), bytes 4..5 wIndex, bytes 6..7 wLength.
 */
module UsbRequests {

  /** Bits 6..5 of bmRequestType: the request type (USB 2.0, section 9.3.1). */
  const UsbrqTypeMask: bv8 := 0x60
  /** Request type "class". */
  const UsbrqTypeClass: bv8 := 0x20
  /** HID class request GET_REPORT (HID 1.11, section 7.2.1). */
  const UsbrqHidGetReport: bv8 := 0x01
  /** HID class request SET_REPORT (HID 1.11, section 7.2.2). */
  const UsbrqHidSetReport: bv8 := 0x09
  /** Descriptor type STRING (USB 2.0, table 9-5). */
  const UsbdescrString: bv8 := 3
  /** The string descriptor index under which the serial is published. */
  const SerialStringIndex: bv8 := 3

  /**
   * Setup reply meaning "the data stage is handled by the read or write hook",
   * rather than a fixed reply length.
   */
  const UsbNoMsg: bv8 := 0xFF

  /** Number of 16-bit slots of the serial string descriptor: header plus 8 characters. */
  const SernoStrSlots: nat := 9
  /** sizeof(serno_str): nine `int`s, which are 16 bits wide on the AVR. */
  const SernoStrSize: nat := 2 * SernoStrSlots

  /**
   * Slot 0 of the serial string descriptor, USB_STRING_DESCRIPTOR_HEADER(8):
   * bLength = 2 * 8 + 2 in the low byte and bDescriptorType = STRING in the
   * high byte of a little-endian 16-bit word.
   */
  const SernoHeader: int := (2 * 8 + 2) + 0x100 * (UsbdescrString as int)

  /** The header announces exactly the length the descriptor hook reports. */
  lemma SernoHeaderConsistent()
    ensures SernoHeader % 0x100 == SernoStrSize
    ensures SernoHeader / 0x100 == UsbdescrString as int
  {
  }

  predicate IsClassRequest(rq: seq<bv8>)
    requires |rq| == 8
  {
    rq[0] & UsbrqTypeMask == UsbrqTypeClass
  }

  predicate IsReportRequest(rq: seq<bv8>)
    requires |rq| == 8
  {
    rq[1] == UsbrqHidGetReport || rq[1] == UsbrqHidSetReport
  }

  /**
   * `usbFunctionSetup`: defers the data stage of HID class GET_REPORT and
   * SET_REPORT requests to the read and write hooks and answers every other
   * request with no data; in particular standard, vendor and reserved
   * request types are never deferred, whatever bRequest is.
   */
  function FunctionSetup(rq: seq<bv8>): (len: bv8)
    requires |rq| == 8
    ensures len == UsbNoMsg <==> IsClassRequest(rq) && IsReportRequest(rq)
    ensures len != UsbNoMsg ==> len == 0
  {
    if rq[0] & UsbrqTypeMask == UsbrqTypeClass then
      if rq[1] == UsbrqHidGetReport || rq[1] == UsbrqHidSetReport then UsbNoMsg else 0
    else
      0
  }

  /** A GET_DESCRIPTOR request for string descriptor 3: wValue high byte STRING, low byte 3. */
  predicate IsSerialStringRequest(rq: seq<bv8>)
    requires |rq| == 8
  {
    rq[3] == UsbdescrString && rq[2] == SerialStringIndex
  }
}
