# RGB LED notifier firmware: application layer

This project is a Dafny model of the application layer of a USB RGB LED
notifier that copies the Riso Kagaku webmail notifier's command set
(`main.c`). The firmware has four parts, and the model follows them:

- **Identity store** (`serial_number.dfy`, module `SerialNumber`, plus the
  `FetchSerno`/`UpdateSerno` methods in `notifier.dfy`). A 32-bit serial
  (`bv32`) lives in a 4-byte EEPROM cell, stored little-endian as the AVR
  stores a `uint32_t`. It is shown in slots 1..8 of the string descriptor
  `serno_str` as eight upper-case hex digits, most significant first. The
  erased pattern `0xffffffff` is shown as `"UNSETXXX"`. `ParseHex` is a
  reference hex parser. The model proves that parsing the eight digits back
  gives the serial.
- **Colour codec** (`colour.dfy`, module `Colour`). It holds the two 8-entry
  vendor tables, the logical RGB value (red 1, green 2, blue 4) and the PORTB
  layout (green bit 0, red bit 1, blue bit 2). A port update changes only the
  three LED bits.
- **Request classifiers** (`usb_requests.dfy`, module `UsbRequests`).
  `usbFunctionSetup` is modelled over the 8-byte SETUP packet. The same file
  holds the string descriptor header and size constants.
- **Device state and hooks** (`notifier.dfy`, module `Notifier`). Class
  `Device` has three fields: `portb: bv8`, `eeprom: seq<bv8>` (4 bytes) and
  `sernoStr: array<int>` (9 slots). Its methods model `fetch_serno`,
  `update_serno`, `usbFunctionDescriptor`, `usbFunctionRead`,
  `usbFunctionWrite` and `usbFunctionWriteOut`. Each method states the
  complete new state in terms of the functions above. Client methods at the
  end of the module show four end-to-end behaviours:
  - a colour read back after a write on either path;
  - an unprogrammed device receiving serial 0xDEADBEEF;
  - an interrupt OUT Set Serial packet of the wrong length;
  - serial 0xffffffff shown as digits until the next start-up, then as
    "UNSETXXX".

`uint8_t` values are `bv8` and `uint32_t` values are `bv32`, so the C code's
shifts and masks appear unchanged. main.c takes `USBRQ_TYPE_MASK` (0x60),
`USBRQ_TYPE_CLASS` (0x20), `USBRQ_HID_GET_REPORT` (1),
`USBRQ_HID_SET_REPORT` (9) and `USBDESCR_STRING` (3) from V-USB's
`usbdrv.h`, which is not part of this model; their values here are those of
USB 2.0 section 9.3 and table 9-5 and HID 1.11 section 7.2. The string
descriptor header `USB_STRING_DESCRIPTOR_HEADER(8)` is modelled as
`(2 * 8 + 2) + 0x100 * (UsbdescrString as int)`. `sizeof(serno_str)` is 18, because `int` is 16 bits
on the AVR.

Facts about main.c that the model makes explicit:

- The read table `{0,2,1,5,3,6,4,7}` is the inverse permutation of the
  write table `{0,2,1,4,6,3,5,7}` (`CodeForRgbForCode`, `RgbForCodeForRgb`).
  The read path decodes the port bits back into the same RGB value the
  write path encoded (`RgbOfPortWithRgb`), so reading the colour always
  reports the code that was last written (`ColourRoundTrip`).
- main.c has no explicit request state machine: `usbFunctionSetup` is a
  stateless classifier and the two write hooks are separate functions. Only
  their colour update is shared here (`ShowColour`).
- `update_serno(0xffffffff)` renders `"FFFFFFFF"`, but a later `fetch_serno`
  of the same cell renders `"UNSETXXX"` (`FetchAfterUpdate`,
  `ErasedPatternAfterRestart`). The model keeps this as the code has it.

## Model

| member | source | states |
|---|---|---|
| SerialNumber.HexDigit | main.c:97-100 | a nibble 0..15 becomes an upper-case hex digit, a decimal digit exactly for nibbles below 10 |
| SerialNumber.DigitBitsOfHexDigit | main.c:97-100 | reading the digit back with the reference digit table gives the nibble: hexdigit is invertible |
| SerialNumber.HexDigitInjective | main.c:97-100 | distinct nibbles give distinct digits, and equal nibbles equal digits |
| SerialNumber.HexSerial | main.c:117-124 | a serial renders as exactly 8 upper-case hex characters; ParseHexSerial shows the rendering loses nothing |
| SerialNumber.SerialText | main.c:107-125 | the displayed text is always 8 characters, and it is "UNSETXXX" exactly when the stored value is 0xffffffff |
| SerialNumber.ParseHexSerial | main.c:132-139 | parsing the 8 rendered digits as hex, most significant first, yields the serial again |
| SerialNumber.SerialTextInjective | main.c:107-125 | two stored values, the erased pattern included, display the same text only if they are equal |
| SerialNumber.UnsetTextIsNotHex | main.c:107-115 | the placeholder "UNSETXXX" differs from every rendering of a serial |
| SerialNumber.DecodeLE | main.c:106 | the value loaded from the cell has byte k of the cell as its bits 8k..8k+7, lowest byte first; EncodeDecodeLE and EncodeLE make it a bijection |
| SerialNumber.EncodeLE | main.c:130 | the 4 little-endian bytes written to the cell read back as the same 32-bit value |
| SerialNumber.EncodeDecodeLE | main.c:211 | every 4-byte cell content is the encoding of the value read from it, so storing a decoded packet stores its bytes |
| SerialNumber.FetchAfterUpdate | main.c:102-140 | after storing s, fetch shows the same digits update rendered, except for 0xffffffff, where fetch shows "UNSETXXX" and update showed its digits |
| SerialNumber.HexSerialExamples | main.c:132-139 | 0x12345678 renders "12345678", 0xDEADBEEF "DEADBEEF", 0xffffffff "FFFFFFFF" |
| Colour.RgbForCode | main.c:194-198 | the write table maps each code 0..7 to an RGB value 0..7 |
| Colour.CodeForRgb | main.c:169-181 | the read table maps each RGB value 0..7 to a code 0..7, so the index is in bounds and the reported code is a valid code |
| Colour.CodeForRgbForCode | main.c:169-198 | read table after write table is the identity on codes 0..7 |
| Colour.RgbForCodeForRgb | main.c:169-198 | write table after read table is the identity on RGB values 0..7: the tables are inverse permutations |
| Colour.RgbForCodeInjective | main.c:194 | distinct colour codes select distinct RGB values |
| Colour.PortWithRgb | main.c:200-209 | the new port keeps every bit outside ALL_BITS; RED_BIT is set iff RGB bit 1, GREEN_BIT iff RGB bit 2, BLUE_BIT iff RGB bit 4 |
| Colour.RgbOfPort | main.c:173-179 | the status is 0..7 with bit 1 iff RED_BIT, bit 2 iff GREEN_BIT, bit 4 iff BLUE_BIT of the port |
| Colour.RgbOfPortWithRgb | main.c:173-209 | decoding the port bits recovers the RGB value the write encoded into them |
| Colour.PortWithRgbOfPort | main.c:173-209 | writing back the RGB value read from a port leaves the port unchanged |
| Colour.PortLayoutSwapsRedGreen | main.c:30-33 | the LED bits of the port are the RGB value with its red and green bits swapped |
| Colour.ColourRoundTrip | main.c:169-209 | setting code c in 0..7 on any port and reading the status back gives c |
| UsbRequests.SernoHeaderConsistent | main.c:36-39 | the descriptor header's length byte is the size the descriptor hook reports, and its type byte is STRING |
| UsbRequests.FunctionSetup | main.c:142-154 | returns 0xFF exactly for a class-type GET_REPORT or SET_REPORT request, and 0 for every other request |
| Notifier.SernoSlotsFit | main.c:36-39 | the header and any text of 16-bit characters fit the 16-bit `int` slots of serno_str, so the invariant every Device method keeps is never broken by a write |
| Notifier.Device.constructor | main.c:36-39 | at power-on serno_str holds the header followed by "UNSETXXX" |
| Notifier.Device.WriteHexSlots | main.c:117-124 | slots 1..8 become the digits of the serial, most significant first; slot 0 is untouched |
| Notifier.Device.FetchSerno | main.c:102-126 | slots 1..8 show "UNSETXXX" when the cell's little-endian value is 0xffffffff and its 8 hex digits otherwise; slot 0, the port and the cell are unchanged |
| Notifier.Device.UpdateSerno | main.c:128-140 | the cell holds the little-endian bytes of s and slots 1..8 its 8 hex digits; the port is unchanged |
| Notifier.Device.FunctionDescriptor | main.c:156-165 | string descriptor 3 gets serno_str and its 18-byte size; every other request gets length 0 and no message |
| Notifier.Device.FunctionRead | main.c:167-186 | with len 0 it returns 0 and writes nothing; otherwise it returns len and writes only data[0], the read-table code of the port's RGB value |
| Notifier.Device.ShowColour | main.c:197-209 | PORTB becomes the old port with its LED bits set from the write-table entry of the code |
| Notifier.Device.FunctionWrite | main.c:188-215 | returns len; code 0..7 changes only the LED bits of the port; 0xfa stores data[1..4] as the serial and renders it; any other first byte changes nothing |
| Notifier.Device.FunctionWriteOut | main.c:217-245 | len 0 changes nothing; code 0..7 sets the LED bits; 0xfa sets the serial only when len is 5; anything else changes nothing |
| Notifier.Device.Boot | main.c:253-269 | the string descriptor is loaded from the cell and the LED bits are cleared, other port bits kept |
| Notifier.ColourReadBack | main.c:167-245 | after setting code c over either write path, a status read reports c |
| Notifier.SerialLifecycle | main.c:102-215 | an unprogrammed device shows "UNSETXXX"; after Set Serial 0xDEADBEEF over the feature path and a restart it shows "DEADBEEF" |
| Notifier.SetSerialNeedsFiveBytes | main.c:242-243 | on the interrupt OUT path a Set Serial packet whose length is not 5 leaves the cell and the displayed serial unchanged |
| Notifier.ErasedPatternAfterRestart | main.c:102-140 | setting serial 0xffffffff shows "FFFFFFFF" until the next start-up, which shows "UNSETXXX" |

## Left out

- The USB descriptor byte tables `usbDescriptorConfiguration` and `usbHidReportDescriptor` (main.c:41-95) are constant data for the USB stack and have no behaviour of their own.
- Boot: of `main` it models only the identity load and the clearing of the LED bits. It leaves out the watchdog, `usbInit`, the forced disconnect with its 255 × 1 ms debounce loop, the `DDRB` direction setup, `sei()` and the endless `usbPoll` loop, which are hardware timing and a loop that never ends.
- EEPROM timing and write failures (`eeprom_read_block`, `eeprom_write_block`) are not modelled. The cell is a plain 4-byte value that a write always replaces.
- The V-USB stack (`usbdrv.h`, `osccal.h`) is not part of this model: it decides when it calls the hooks and what their return values mean to it. Its global `usbMsgPtr` is a returned `Option` with a snapshot of `serno_str` in `FunctionDescriptor`, not a pointer into the live array.
- Interrupts and concurrency are left out. The hooks run one at a time, as single method calls.
- HexDigit: defined only for 0..15, the only values its callers pass. The C function would give other characters for other integers.
- FunctionWrite: requires at least 5 bytes in the buffer when the first byte is 0xfa. The C code reads `data[1..4]` whatever `len` is and relies on the stack's 8-byte report buffer.
- FunctionRead: requires a buffer of at least one byte when `len` is not 0. The C code trusts the stack for this.
- The `serno_str` slots are unbounded Dafny `int`s. `Device.Valid()` keeps every slot in 0..0xFFFF (`SlotsFit`, `SernoSlotsFit`), so no 16-bit truncation can arise and none is modelled.
- main.c never queues an interrupt IN report (there is no `usbSetInterrupt` call), so the endpoint carries no data from this code; it is not modelled.
