# AD5274/AD5272 digital potentiometer driver, modelled in Dafny

This project models the Systronix Arduino driver for the Analog Devices
AD5274 (8-bit) and AD5272 (10-bit) digital potentiometers. The chip takes
16-bit command frames over I2C: bits 15:14 are zero, bits 13:10 hold one of
ten command codes, and bits 9:0 hold the command's data. A frame is sent most
significant byte first. The driver object stores the chip's I2C base
address. Its operations check the command and the datum, send frames through
the Arduino `Wire` library, read two-byte answers back, and return error codes
that pack caller errors and transport error counts into one small signed integer.

Files:

- `ad5274_defs.dfy`, module `AD5274Defs`: the constants of
  `Systronix_AD5274.h` (base addresses, command codes, control bits, 50-TP
  locations, the 10-bit data mask). It also holds the frame codec: `Frame`
  packs a command and data, `Msb`/`Lsb` split a frame into bytes, `Assemble`
  joins two bytes. Lemmas state the frame layout and the properties of the
  constants.
- `wire.dfy`, module `Wire`: the I2C transport as a scripted oracle. The
  class `Bus` answers each `write`, `endTransmission`, `requestFrom` and
  `read` from its own queue of scripted replies. It also appends every call
  to `log`, so "no bus activity" can be stated as an unchanged `Bus`.
- `ad5274.dfy`, module `AD5274Driver`: the class `AD5274` holds `_base`,
  `BaseAddr` and the transport. Its methods `CommandWrite`, `CommandRead`,
  `ControlWriteVerified` and `IsAvailable` follow the source statement by
  statement, and `Unlock` is a function. Each method is proved against a
  reference function of its inputs and of the replies the transport gives:
  `WriteResult`, `ReadResult`, `ControlResult`. The new log is stated as
  frames built by `WriteFrame`, `ReadFrame` and `Frame`. Lemmas state the
  properties of these reference functions.

Fixed widths follow the source:

- `error_count` is a `uint8_t`. `+=` and `|=` on it wrap modulo 256 (`AddU8`, `OrU8`).
- The results are `int8_t` (`Int8`, `ToInt8`) and `int16_t` (`Int16`, `Signed16`).
- The frame is a `uint16_t` held as a `bv16`, and bytes are `bv8`.

Where the source narrows a value, the subset types make the verifier prove
that the value fits, except in two places where the narrowing does wrap:

- The `int16_t` read result goes negative when the first byte received is
  0x80 or more (`Signed16`, `ReadWrapCollides`).
- `Wire.read()`'s -1 is stored into a `uint8_t` and becomes 0xFF. The scripted
  `Bus` delivers that byte as 0xFF already, and `RxReply.Valid` requires it.

The transport's replies are limited to what the `Wire` calls can return:

- `write` accepts 0 or 1 byte.
- `endTransmission` returns a status of 0 to 4.
- `requestFrom(address, 2, stop)` receives 0 to 2 bytes.
- A `read` past the bytes received returns -1. The driver stores that into a
  `uint8_t`, so it reads as 0xFF. `RxReply.Valid` states this: with fewer
  than two bytes received the second byte read is 0xFF, and with none the
  first is too. `Receive`, and every operation that calls it, requires the
  script's next reception to be valid.

Each method requires that the script holds a reply for every call the method
may make. This includes the calls an early error return skips. It constrains
the oracle only: a real bus always answers. The log records every call
together with the transport's answer to it.

Some of the code's behaviour is easy to misread. The model keeps it as
written:

- `control_write_verified` compares the whole second byte read back with
  `control`, not only its three low bits.
- `command_write` checks the datum against 10 bits for every command, not
  against each command's own data width. The datum is checked before the
  command, and both flags can be set together.
- `command_read` returns the received word read as an `int16_t`, so a
  successful read whose first byte is 0x80 or more returns a negative value
  (`ReadWrapCollides`).
- `control_write_verified` returns a positive error count, where
  `command_write` returns a negated one.

The source repeats one block four times: open a transmission, write two
bytes, count the bytes not accepted, end the transmission. Two more blocks,
one in `control_write_verified` and one in `command_read`, request two bytes
and read them. The model writes these once, as the helper
methods `Transmit` and `Receive`, and each operation calls them where the
source has the block inline. The checks that `command_write` and `command_read` make before touching
the bus are the static methods `CheckWrite` and `CheckRead`. The byte split
`data_to_write >> 8` / `data_to_write & 0x0FF` is written as `Msb` and `Lsb`,
and the `(msb << 8) | lsb` of the received bytes as `Assemble`.

The frames are meant for the device, so `wire.dfy` also gives the device's side
of the bus. `DeviceFrames` reads a call log and yields the frames the device
acknowledged. A transmission to the device counts only when both of its
bytes were accepted and it ended with status 0. It yields its two bytes,
reassembled with the first one high. Nothing that happened on the bus earlier
can merge with calls that start with an open or a request
(`DeviceFramesAppend`). So the lemmas `WriteReachesDevice`, `ReadReachesDevice`
and `ControlReachesDevice` hold for any earlier history of the bus. They state
what each operation adds to the acknowledged frames: its frame when its
transmission was clean, and nothing otherwise. `WriteFrame` and `ReadFrame`
state the fields of those frames.

## Model

| member | source | states |
|---|---|---|
| `AD5274Defs.Frame` | Systronix_AD5274.h:82-85 | for a command below 16 and data of at most 10 bits, the frame holds the command in bits 13:10, the data in bits 9:0 and zeros in bits 15:14 |
| `AD5274Defs.Msb` | Systronix_AD5274.cpp:292 | the byte sent first is bits 15:8 of the frame |
| `AD5274Defs.Lsb` | Systronix_AD5274.cpp:294 | the byte sent second is bits 7:0 of the frame |
| `AD5274Defs.Assemble` | Systronix_AD5274.cpp:214-218 | splitting the assembled word gives back the first byte as its high byte and the second as its low byte |
| `AD5274Defs.SplitAssemble` | Systronix_AD5274.cpp:194-197 | a frame split into MSB and LSB and assembled again is the same frame |
| `AD5274Defs.FrameRoundTrip` | Systronix_AD5274.h:37-38 | sending a frame byte by byte and reassembling it recovers the command in bits 13:10 and the data in bits 9:0, with bits 15:14 zero |
| `AD5274Defs.CommandCodes` | Systronix_AD5274.h:88-117 | the ten command codes are 0x00..0x09 in order, pairwise distinct, each at most 0x0F |
| `AD5274Defs.CommandFitsFourBits` | Systronix_AD5274.h:82-85 | a command code below 16 shifted by 10 touches neither bits 15:14 nor the data field |
| `AD5274Defs.ControlBits` | Systronix_AD5274.h:126-139 | C0, C1 and C2 are disjoint single bits; every OR of them is at most 7 and shows exactly the bits chosen; the 50-TP success flag 0x08 is the next bit up |
| `AD5274Defs.BaseAddresses` | Systronix_AD5274.h:75-77 | the GND, VDD and floating addresses are distinct 7-bit values equal outside their two low bits |
| `AD5274Defs.FiftyTpLocationFits` | Systronix_AD5274.h:102-105 | every 50-TP location 0x01..0x32 is non-zero and fits bits 5:0 |
| `AD5274Defs.DataFieldWidth` | Systronix_AD5274.cpp:259-262 | a datum exceeds 0x3FF exactly when it has a bit in 15:10, the bits that would clobber the command; the mask is 2^10-1 |
| `AD5274Driver.ToInt8` | Systronix_AD5274.cpp:306 | storing into an `int8_t` keeps values in -128..127 and otherwise wraps modulo 256 |
| `AD5274Driver.AddU8` | Systronix_AD5274.cpp:296-298 | `+=` on the `uint8_t` error count is plain addition while the sum stays below 256 |
| `AD5274Driver.TransmitSum` | Systronix_AD5274.cpp:198-199 | adding the write shortfall (only when there is one) and then the end status to the uint8_t error count is the same as adding the transmission's transport errors at once, modulo 256 |
| `AD5274Driver.Signed16` | Systronix_AD5274.cpp:215-218 | a 16-bit pattern read as an `int16_t` is non-negative exactly when bit 15 is clear, and is congruent to the pattern modulo 2^16 |
| `AD5274Driver.TxErrors` | Systronix_AD5274.cpp:291-298 | a transmission's error count is zero exactly when the device acknowledged it (both bytes accepted, end status 0), and is at most 6 |
| `AD5274Driver.OrFlags` | Systronix_AD5274.cpp:264-285 | the two OR-assignments of the flags into a zero count give the flag itself, and both together give 0x30, their sum |
| `AD5274Driver.RxErrors` | Systronix_AD5274.cpp:205-213 | a reception's error count is zero exactly when both requested bytes arrive, and is at most 2 |
| `AD5274Driver.WriteFlags` | Systronix_AD5274.cpp:259-286 | command_write raises no flag exactly when the command is one of the five writes and the datum is at most 0x3FF |
| `AD5274Driver.IsWritable` | Systronix_AD5274.cpp:267-275 | each of the five commands command_write accepts is a command code other than NOP, and none of them is a read |
| `AD5274Driver.TakesData` | Systronix_AD5274.cpp:267-273 | the three commands that carry the datum are among the writes |
| `AD5274Driver.IsReadable` | Systronix_AD5274.cpp:166-173 | each of the four commands command_read accepts is a command code other than NOP |
| `AD5274Driver.WriteFrame` | Systronix_AD5274.cpp:267-280 | for a write and a datum of at most 10 bits, the frame holds the command in bits 13:10 and zeros in 15:14; its data field is the datum for RDAC_WRITE, CONTROL_WRITE and SHUTDOWN and zero for 50TP_WRITE and RDAC_REFRESH |
| `AD5274Driver.ReadFrame` | Systronix_AD5274.cpp:166-178 | for a read, the frame holds the command in bits 13:10 and zeros in 15:14; its data field is the whole location byte for 50TP_WIPER_READ and zero for the other reads |
| `AD5274Driver.WriteResult` | Systronix_AD5274.cpp:289-309 | command_write returns 0 exactly when command and datum are valid and the transport reports no error; a caller error gives -0x10 or less; on valid input the result is minus the transport errors and above -0x10 |
| `AD5274Driver.ReadResult` | Systronix_AD5274.cpp:179-226 | a command that is not one of the four reads gives exactly -100; a readable command with transport errors gives a value in -8..-1 |
| `AD5274Driver.ControlResult` | Systronix_AD5274.cpp:80-133 | control_write_verified's count lies in 0..15, is zero exactly when control is at most 7 and every phase is clean, and takes no argument from the bytes read back |
| `AD5274Driver.DecodeWriteResult` | Systronix_AD5274.cpp:245-247 | in the magnitude of command_write's result, bit 4 is set exactly for a bad datum, bit 5 exactly for a bad command, bits 2:0 hold the transport error count, and bits 3, 6 and 7 are clear |
| `AD5274Driver.WriteBothFaults` | Systronix_AD5274.cpp:259-286 | a bad command with a bad datum returns -0x30 whatever the transport does |
| `AD5274Driver.WriteReachesDevice` | Systronix_AD5274.cpp:288-299 | whatever the bus saw before, command_write's transmission adds `WriteFrame`'s frame to the frames the device acknowledged when the transmission has no transport error, and nothing otherwise |
| `AD5274Driver.ReadReachesDevice` | Systronix_AD5274.cpp:190-218 | whatever the bus saw before, command_read's transmission and reception add `ReadFrame`'s frame to the frames the device acknowledged when the transmission has no transport error, and nothing otherwise; the reception adds none |
| `AD5274Driver.ControlReachesDevice` | Systronix_AD5274.cpp:86-120 | whatever the bus saw before, control_write_verified adds the CONTROL_WRITE frame, then the CONTROL_READ frame, each only when its own transmission is clean |
| `AD5274Driver.ReadSuccess` | Systronix_AD5274.cpp:214-218 | with no transport error the result is the word `msb << 8` ORed with `lsb` (`Assemble`) when msb is below 0x80, and that word minus 2^16, a negative value, otherwise |
| `AD5274Driver.ReadFailure` | Systronix_AD5274.cpp:198-226 | with transport errors the result is minus (write shortfall + end status + read shortfall), a value in -8..-1 |
| `AD5274Driver.SignBit` | Systronix_AD5274.cpp:215 | the assembled word is below 0x8000 exactly when the first byte is below 0x80 |
| `AD5274Driver.ReadWrapCollides` | Systronix_AD5274.cpp:148-151 | a clean read of 0xFF, 0x9C returns -100, the same as a bad command; a clean read of 0xFF, 0xFF returns -1, the same as one transport error; a clean read of 0xFF, 0xA6 returns unlock's -90 |
| `AD5274Driver.ControlReadExample` | Systronix_AD5274.cpp:173-178 | reading CONTROL_READ when the device answers 0x00, 0x07 returns 7 |
| `AD5274Driver.ControlSoftError` | Systronix_AD5274.cpp:80-85 | a control value above 7 adds exactly one to the count, compared with its three low bits over the same transactions |
| `AD5274Driver.ControlPhasesMatchCommands` | Systronix_AD5274.cpp:86-105 | the write phase sends command_write's CONTROL_WRITE frame, the read-back phase sends command_read's CONTROL_READ frame, and command_write raises no flag for any control byte; the CONTROL_WRITE frame carries the whole control byte in its data field |
| `AD5274Driver.UnlockDistinct` | Systronix_AD5274.cpp:358-362 | unlock's -90 differs from every result of command_write and of control_write_verified (a clean command_read can return it, see `ReadWrapCollides`) |
| `AD5274Driver.AD5274.constructor` | Systronix_AD5274.cpp:30-34 | `_base` and `BaseAddr` both hold the given address |
| `AD5274Driver.AD5274.Transmit` | Systronix_AD5274.cpp:291-298 | sends one frame: the log gains begin, MSB, LSB and end with stop, each with its reply; two write replies and one status are consumed; the error count grows by the transmission's errors, modulo 256 |
| `AD5274Driver.AD5274.Receive` | Systronix_AD5274.cpp:205-218 | for a valid scripted reception: requests two bytes and reads two, logged with their replies; the error count grows by the shortfall; the two bytes returned are the next two scripted bytes |
| `AD5274Driver.AD5274.CheckWrite` | Systronix_AD5274.cpp:259-286 | the error count after the checks is the caller-error flags; when there are none, the frame is the one `WriteFrame` describes |
| `AD5274Driver.AD5274.CheckRead` | Systronix_AD5274.cpp:166-185 | a command that is not one of the four reads gives the error count 100 before the bus is touched; a read gives error count 0 and the frame `ReadFrame` describes, with the 50-TP location in the data field only for 50TP_WIPER_READ |
| `AD5274Driver.AD5274.CommandWrite` | Systronix_AD5274.cpp:250-311 | returns `WriteResult` of the replies; with a caller error the bus is unchanged, no call logged and no reply consumed; otherwise exactly one transmission of `WriteFrame` is logged |
| `AD5274Driver.AD5274.CommandRead` | Systronix_AD5274.cpp:155-230 | returns `ReadResult` of the replies; a command that is not a read leaves the bus unchanged; a read logs the transmission of `ReadFrame` followed by a two-byte reception |
| `AD5274Driver.AD5274.ControlWriteVerified` | Systronix_AD5274.cpp:71-134 | always logs the control write, the control-read frame and the reception, even for a control value above 7; returns `ControlResult` of the replies; `mismatch` is set exactly when the second byte read differs from `control`, so with fewer than two bytes received exactly when `control` is not 0xFF |
| `AD5274Driver.AD5274.IsAvailable` | Systronix_AD5274.cpp:330-352 | logs an empty transmission; the stored status is the end status, and the device is available exactly when it is 0 |
| `AD5274Driver.AD5274.Unlock` | Systronix_AD5274.cpp:358-362 | always returns -90, "not implemented" |
| `AD5274Driver.ControlEcho` | Systronix_AD5274.cpp:119-133 | control_write_verified(5) on a clean bus counts no error, and reports a mismatch exactly when the device echoes something other than 5 |
| `AD5274Driver.ControlNoAnswer` | Systronix_AD5274.cpp:111-128 | control_write_verified(5) with clean writes but no byte received counts two errors and reports a mismatch: both reads give 0xFF |
| `Wire.Bus.EndTransmission` | Systronix_AD5274.cpp:319-326 | the status is the next scripted one, in 0..4, and the call is logged |
| `Wire.Transmission` | Systronix_AD5274.cpp:291-298 | the calls of one frame transmission with their replies: begin, MSB, LSB, end with stop |
| `Wire.Reception` | Systronix_AD5274.cpp:205-218 | the calls of one two-byte reception with their replies: request of two bytes with stop, then two reads |
| `Wire.Transmissions` | Systronix_AD5274.cpp:291-298 | a run of frame transmissions makes four calls per frame |
| `Wire.AcknowledgedFrames` | Systronix_AD5274.cpp:291-298 | the frames of a run whose transmissions were acknowledged are at most all of them, and all of them when every transmission was acknowledged |
| `Wire.DeviceFramesAppend` | Systronix_AD5274.cpp:291-298 | whatever the log held before, calls that start with an open or a request add exactly their own acknowledged frames |
| `Wire.DeviceFrames` | Systronix_AD5274.h:79-84 | the frames the device acknowledged in a log, each reassembled from its two bytes, number at most a quarter of the calls in the log |
| `Wire.DeviceFramesTransmission` | Systronix_AD5274.cpp:291-298 | a transmission at the front of a log adds its own frame, most significant byte first, exactly when both bytes were accepted and the status is 0 |
| `Wire.DeviceFramesReception` | Systronix_AD5274.cpp:205-218 | a two-byte reception delivers no frame |
| `Wire.DeviceFramesAfterTransmission` | Systronix_AD5274.cpp:291-298 | whatever the log held before, one more transmission adds its frame to the acknowledged frames exactly when both bytes were accepted and the status is 0 |
| `Wire.DeviceFramesAfterReception` | Systronix_AD5274.cpp:205-218 | whatever the log held before, a two-byte reception adds no acknowledged frame |
| `Wire.DeviceFramesRoundTrip` | Systronix_AD5274.cpp:291-298 | a run of transmissions yields exactly its acknowledged frames, in order, with none added |

## Left out

- The device's own reaction to a frame (the wiper, the 50-TP memory) is out of scope. The device side of the bus recognises only transmissions of the shape the driver sends: open, two bytes, close with a stop. A transmission with a byte refused or a non-zero end status counts as not acknowledged as a whole, although a real device may already have latched part of it.
- `begin()` (Systronix_AD5274.cpp:41-53): it only calls `Wire.begin()` and always returns 0.
- All `Serial.print` diagnostics and the `_DEBUG` flag. These are output only. The control-register mismatch that `control_write_verified` prints is returned as the boolean `mismatch`. The value it prints is not returned.
- The real I2C transport is not modelled. This includes its timing, the 350 ms busy window after a 50-TP write and the delay after a software reset. The `Wire` library is not part of this model. The scripted `Bus` stands in for it and nothing models time.
- The `Wire` object is a global in the source. Here it is a field of the driver object, set by the constructor.
- `is_available` stores the status through a `uint8_t *`. The model returns it as an out-parameter, so aliasing of that pointer is not modelled.
- The declared but never defined methods `fiftytp_unlock`, `rdac_calib`, `wiper_write` and `wiper_read`, and the unused `_bits` field.
- The electrical behaviour of the chip: resistance, current, and the fact that the AD5274 ignores the two low data bits. No member models the device itself.
- `Wire.Bus.EndTransmission`: statuses are limited to the documented 0..4. With that limit, the conversion of the status to `int8_t` in `is_available` never goes negative.
