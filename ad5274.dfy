/** The Systronix AD5274/AD5272 driver: command validation, frame transmission
    over the I2C transport, and the packed error codes the operations return. */
module AD5274Driver {
  import opened AD5274Defs
  import opened Wire

  /** The values of a uint8_t, an int8_t and an int16_t. */
  type U8 = x: int | 0 <= x < 0x100
  type Int8 = x: int | -0x80 <= x < 0x80
  type Int16 = x: int | -0x8000 <= x < 0x8000

  /** command_write's flag for a datum wider than ten bits (bit 4). */
  const BAD_DATUM: U8 := 0x10
  /** command_write's flag for a command that is not a write (bit 5). */
  const BAD_COMMAND: U8 := 0x20
  /** command_read's result for a command that is not a read. */
  const BAD_READ_COMMAND: Int16 := -100
  /** unlock's result: the operation is not implemented. */
  const NOT_IMPLEMENTED: Int8 := -90

  /** An int stored into an int8_t: wrapped modulo 2^8 into -128..127. */
  function ToInt8(x: int): (r: Int8)
    ensures -0x80 <= x < 0x80 ==> r == x
    ensures (x - r) % 0x100 == 0
  {
    var m := x % 0x100;
    if m < 0x80 then m else m - 0x100
  }

  /** `a += b` on a uint8_t. */
  function AddU8(a: U8, b: int): (r: U8)
    ensures 0 <= a + b < 0x100 ==> r == a + b
  {
    (a + b) % 0x100
  }

  /** The two additions of one transmission, the shortfall (made only when
      there is one) and then the status, add up to its transport errors. */
  lemma TransmitSum(errorCount: U8, t: TxReply)
    ensures var afterWrites := if t.first + t.second != 2 then AddU8(errorCount, 2 - (t.first + t.second)) else errorCount;
            AddU8(afterWrites, t.status) == AddU8(errorCount, TxErrors(t))
  {
  }

  /** `a |= b` on a uint8_t. */
  function OrU8(a: U8, b: U8): U8 {
    ((a as Byte) | (b as Byte)) as int
  }

  /** The two caller-error flags are distinct single bits: each `|=` of a flag
      into a count of zero gives the flag, and ORing both gives their sum. */
  lemma OrFlags()
    ensures OrU8(0, BAD_DATUM) == BAD_DATUM && OrU8(0, BAD_COMMAND) == BAD_COMMAND
    ensures OrU8(BAD_DATUM, BAD_COMMAND) == BAD_DATUM + BAD_COMMAND
    ensures OrU8(BAD_DATUM, BAD_DATUM) == BAD_DATUM
  {
  }

  /** A 16-bit pattern stored into an int16_t (two's complement). */
  function Signed16(w: Word): (r: Int16)
    ensures r >= 0 <==> w < 0x8000
    ensures (r - w as int) % 0x10000 == 0
  {
    if w < 0x8000 then w as int else w as int - 0x10000
  }

  /** The five commands command_write accepts. */
  predicate IsWritable(command: Byte)
    ensures IsWritable(command) ==> command in COMMANDS && !IsReadable(command) && command != COMMAND_NOP
  {
    command == RDAC_WRITE || command == CONTROL_WRITE || command == SHUTDOWN
    || command == FIFTY_TP_WRITE || command == RDAC_REFRESH
  }

  /** The writes whose frame carries the caller's datum. */
  predicate TakesData(command: Byte)
    ensures TakesData(command) ==> IsWritable(command)
  {
    command == RDAC_WRITE || command == CONTROL_WRITE || command == SHUTDOWN
  }

  /** The four commands command_read accepts. */
  predicate IsReadable(command: Byte)
    ensures IsReadable(command) ==> command in COMMANDS && command != COMMAND_NOP
  {
    command == FIFTY_TP_WIPER_READ || command == RDAC_READ
    || command == FIFTY_TP_LAST_USED || command == CONTROL_READ
  }

  /** Transport errors of one frame transmission: the bytes the transport did not
      accept plus the status that ended the transmission. */
  function TxErrors(t: TxReply): (n: nat)
    ensures n == 0 <==> t.Acknowledged()
    ensures n <= 6
  {
    (2 - (t.first + t.second)) + t.status
  }

  /** Transport errors of one two-byte reception: the bytes missing. */
  function RxErrors(x: RxReply): (n: nat)
    ensures n == 0 <==> x.received == 2
    ensures n <= 2
  {
    2 - x.received
  }

  /** The caller errors command_write detects before the bus is touched. */
  function WriteFlags(command: Byte, datum: Word): (flags: U8)
    ensures flags == 0 <==> IsWritable(command) && datum <= DATA_MASK
  {
    (if datum > DATA_MASK then BAD_DATUM else 0) + (if IsWritable(command) then 0 else BAD_COMMAND)
  }

  /** The frame command_write sends: only RDAC_WRITE, CONTROL_WRITE and SHUTDOWN
      carry the datum; 50TP_WRITE and RDAC_REFRESH send an empty data field. */
  function WriteFrame(command: Byte, datum: Word): (f: Word)
    ensures IsWritable(command) && datum <= DATA_MASK ==>
              CommandField(f) == command && ReservedField(f) == 0
              && DataField(f) == (if TakesData(command) then datum else 0)
  {
    if TakesData(command) then Frame(command, datum) else Frame(command, 0)
  }

  /** The frame command_read sends: only 50TP_WIPER_READ carries the location. */
  function ReadFrame(command: Byte, location: Byte): (f: Word)
    ensures IsReadable(command) ==>
              CommandField(f) == command && ReservedField(f) == 0
              && DataField(f) == (if command == FIFTY_TP_WIPER_READ then location as Word else 0)
  {
    if command == FIFTY_TP_WIPER_READ then Frame(command, location as Word) else Frame(command, 0)
  }

  /** command_write's result: 0 on success, otherwise minus the packed error
      code, whose magnitude is either the caller-error flags or, when there are
      none, the transport error count. */
  function WriteResult(command: Byte, datum: Word, t: TxReply): (r: Int8)
    ensures r <= 0
    ensures r == 0 <==> IsWritable(command) && datum <= DATA_MASK && TxErrors(t) == 0
    ensures datum > DATA_MASK || !IsWritable(command) ==> r <= -0x10
    ensures IsWritable(command) && datum <= DATA_MASK ==> r == -(TxErrors(t) as int) && r > -0x10
  {
    var flags := WriteFlags(command, datum);
    if flags != 0 then -(flags as int) else -(TxErrors(t) as int)
  }

  /** command_read's result: -100 for a command that is not a read; otherwise
      the received word read as an int16_t when no transport error occurred, or
      minus the transport error count of both phases. */
  function ReadResult(command: Byte, t: TxReply, x: RxReply): (r: Int16)
    ensures !IsReadable(command) ==> r == BAD_READ_COMMAND
    ensures IsReadable(command) && TxErrors(t) + RxErrors(x) > 0 ==> -8 <= r < 0
  {
    var errors := TxErrors(t) + RxErrors(x);
    if !IsReadable(command) then BAD_READ_COMMAND
    else if errors == 0 then Signed16(Assemble(x.msb, x.lsb))
    else -errors
  }

  /** control_write_verified's result: one soft error for a control value above
      7, plus the transport errors of the write, of the read command and of the
      reception. The bytes received take no part in it. */
  function ControlResult(control: Byte, write: TxReply, readCommand: TxReply, received: Received): (r: Int8)
    ensures 0 <= r <= 15
    ensures r == 0 <==> control <= 7 && TxErrors(write) == 0 && TxErrors(readCommand) == 0 && received == 2
  {
    (if control > 7 then 1 else 0) + TxErrors(write) + TxErrors(readCommand) + (2 - received)
  }

  /** Reading command_write's packed code back, as its documentation says to:
      the magnitude has bit 4 set exactly for a bad datum and bit 5 exactly for
      a bad command; its low three bits are the transport error count, and bits
      3, 6 and 7 are never set, so the count never reaches the flags. */
  lemma DecodeWriteResult(command: Byte, datum: Word, t: TxReply)
    ensures var m := (-WriteResult(command, datum, t)) as Byte;
            (m & 0x10 != 0 <==> datum > DATA_MASK)
            && (m & 0x20 != 0 <==> !IsWritable(command))
            && (m & 0x07) as int == (if WriteFlags(command, datum) == 0 then TxErrors(t) else 0)
            && m & 0xC8 == 0
  {
  }

  /** Both caller errors together give -0x30, whatever the transport would say. */
  lemma WriteBothFaults(command: Byte, datum: Word, t: TxReply)
    requires !IsWritable(command) && datum > DATA_MASK
    ensures WriteResult(command, datum, t) == -0x30
  {
  }

  /** What the device acknowledges after a valid command_write, whatever the bus
      saw before: the one frame `WriteFrame` describes when the transmission is
      clean, nothing otherwise. */
  lemma WriteReachesDevice(address: Byte, history: seq<Call>, command: Byte, datum: Word, t: TxReply)
    ensures var w := WriteFrame(command, datum);
            DeviceFrames(address, history + Transmission(address, w, t))
              == DeviceFrames(address, history) + (if TxErrors(t) == 0 then [w] else [])
  {
    DeviceFramesAfterTransmission(address, history, WriteFrame(command, datum), t);
  }

  /** What the device acknowledges after a valid command_read, whatever the bus
      saw before: the one frame `ReadFrame` describes when its transmission is
      clean, nothing otherwise; the reception adds none. */
  lemma ReadReachesDevice(address: Byte, history: seq<Call>, command: Byte, location: Byte,
                          t: TxReply, x: RxReply)
    ensures var w := ReadFrame(command, location);
            DeviceFrames(address, history + Transmission(address, w, t) + Reception(address, x))
              == DeviceFrames(address, history) + (if TxErrors(t) == 0 then [w] else [])
  {
    var w := ReadFrame(command, location);
    DeviceFramesAfterTransmission(address, history, w, t);
    DeviceFramesAfterReception(address, history + Transmission(address, w, t), x);
  }

  /** What the device acknowledges after control_write_verified, whatever the
      bus saw before: the CONTROL_WRITE frame, then the CONTROL_READ frame,
      each only when its transmission is clean. */
  lemma ControlReachesDevice(address: Byte, history: seq<Call>, control: Byte,
                             write: TxReply, readCommand: TxReply, x: RxReply)
    ensures var w, r := Frame(CONTROL_WRITE, control as Word), Frame(CONTROL_READ, 0);
            DeviceFrames(address, history + Transmission(address, w, write)
                                  + Transmission(address, r, readCommand) + Reception(address, x))
              == DeviceFrames(address, history) + (if TxErrors(write) == 0 then [w] else [])
                 + (if TxErrors(readCommand) == 0 then [r] else [])
  {
    // the write phase is command_write's CONTROL_WRITE, the read-back phase
    // command_read's CONTROL_READ
    var w, r := Frame(CONTROL_WRITE, control as Word), Frame(CONTROL_READ, 0);
    assert w == WriteFrame(CONTROL_WRITE, control as Word) && r == ReadFrame(CONTROL_READ, 0);
    WriteReachesDevice(address, history, CONTROL_WRITE, control as Word, write);
    ReadReachesDevice(address, history + Transmission(address, w, write), CONTROL_READ, 0, readCommand, x);
  }

  /** A readable command with no transport error returns the received word
      read as an int16_t: the word itself when the first byte is below 0x80,
      the word minus 2^16 (a negative value) otherwise. */
  lemma ReadSuccess(command: Byte, t: TxReply, x: RxReply)
    requires IsReadable(command) && TxErrors(t) == 0 && RxErrors(x) == 0
    ensures var r := ReadResult(command, t, x);
            var w := Assemble(x.msb, x.lsb) as int;
            (x.msb < 0x80 ==> r == w && r >= 0) && (x.msb >= 0x80 ==> r == w - 0x10000 && r < 0)
  {
    SignBit(x.msb, x.lsb);
  }

  /** A readable command with transport errors returns minus the bytes the
      transport did not accept, plus the end status, plus the bytes not
      received: a value in -8..-1, never the -100 of a bad command. */
  lemma ReadFailure(command: Byte, t: TxReply, x: RxReply)
    requires IsReadable(command) && TxErrors(t) + RxErrors(x) > 0
    ensures ReadResult(command, t, x)
            == -((2 - (t.first + t.second)) + t.status + (2 - x.received))
    ensures -8 <= ReadResult(command, t, x) < 0
  {
  }

  /** The assembled word's top bit is the first byte's top bit. */
  lemma SignBit(msb: Byte, lsb: Byte)
    ensures Assemble(msb, lsb) < 0x8000 <==> msb < 0x80
  {
  }

  /** The int16_t wrap makes a read whose first byte is 0x80 or more come back
      negative with no error at all: 0xFF, 0x9C reads as the -100 of a bad
      command, 0xFF, 0xFF as the -1 of one transport error, and 0xFF, 0xA6 as
      unlock's -90. */
  lemma ReadWrapCollides()
    ensures ReadResult(RDAC_READ, TxReply(1, 1, 0), RxReply(2, 0xFF, 0x9C)) == BAD_READ_COMMAND
    ensures ReadResult(RDAC_READ, TxReply(1, 1, 0), RxReply(2, 0xFF, 0xA6)) == AD5274.Unlock(true, true)
    ensures ReadResult(RDAC_READ, TxReply(1, 1, 0), RxReply(2, 0xFF, 0xFF))
            == ReadResult(RDAC_READ, TxReply(1, 1, 1), RxReply(2, 0, 0))
  {
  }

  /** Reading the control register when the device answers 0x00, 0x07 gives 7. */
  lemma ControlReadExample()
    ensures ReadResult(CONTROL_READ, TxReply(1, 1, 0), RxReply(2, 0x00, 0x07)) == 7
  {
  }

  /** A control value above 7 costs exactly one soft error on top of what the
      same transactions give for its three low bits. */
  lemma ControlSoftError(control: Byte, write: TxReply, readCommand: TxReply, received: Received)
    requires control > 7
    ensures ControlResult(control, write, readCommand, received)
            == 1 + ControlResult(control & 7, write, readCommand, received)
  {
  }

  /** control_write_verified's write phase sends the frame command_write would
      send for CONTROL_WRITE, and its read-back phase the frame command_read
      sends for CONTROL_READ. command_write accepts every control byte, even
      those control_write_verified counts as a soft error, and the whole byte
      lands in the data field. */
  lemma ControlPhasesMatchCommands(control: Byte, location: Byte, t: TxReply)
    ensures Frame(CONTROL_WRITE, control as Word) == WriteFrame(CONTROL_WRITE, control as Word)
    ensures Frame(CONTROL_READ, 0) == ReadFrame(CONTROL_READ, location)
    ensures WriteResult(CONTROL_WRITE, control as Word, t) == -(TxErrors(t) as int)
    ensures CommandField(Frame(CONTROL_WRITE, control as Word)) == CONTROL_WRITE
            && DataField(Frame(CONTROL_WRITE, control as Word)) == control as Word
            && CommandField(Frame(CONTROL_READ, 0)) == CONTROL_READ
  {
  }

  /** unlock's "not implemented" result can be told apart from every result
      of command_write and of control_write_verified (not from every result of
      command_read: see `ReadWrapCollides`). */
  lemma UnlockDistinct(rdac: bool, fiftyTP: bool, command: Byte, datum: Word, control: Byte,
                       t1: TxReply, t2: TxReply, received: Received)
    ensures AD5274.Unlock(rdac, fiftyTP) != WriteResult(command, datum, t1)
    ensures AD5274.Unlock(rdac, fiftyTP) != ControlResult(control, t1, t2, received)
  {
  }

  /** The driver object: the device's base address and the transport it talks
      through (the library's global `Wire`). */
  class AD5274 {
    var base: Byte
    var baseAddr: Byte
    const wire: Bus

    /** The constructor records the base address in both fields. */
    constructor (base: Byte, wire: Bus)
      ensures this.base == base && baseAddr == base && this.wire == wire
    {
      this.base := base;
      baseAddr := base;
      this.wire := wire;
    }

    /** The block every operation repeats: open a transmission to the device,
        write the frame's two bytes most significant first, add the bytes not
        accepted to the error count, close with a stop and add the status. */
    method Transmit(errorCount: U8, frame: Word) returns (errors: U8)
      requires wire.CanAnswer(2, 1, 0, 0)
      modifies wire
      ensures errors == AddU8(errorCount, TxErrors(old(wire.NextTx(0))))
      ensures wire.log == old(wire.log) + Transmission(base, frame, old(wire.NextTx(0)))
      ensures wire.accepts == old(wire.accepts[2..]) && wire.statuses == old(wire.statuses[1..])
      ensures wire.counts == old(wire.counts) && wire.bytes == old(wire.bytes)
    {
      ghost var t := wire.NextTx(0);
      errors := errorCount;
      wire.BeginTransmission(base);
      // the frame's high byte, then its low byte
      var data := Msb(frame);
      var count: Int8 := wire.Write(data);
      data := Lsb(frame);
      var n := wire.Write(data);
      count := count + n;
      if count != 2 {
        errors := AddU8(errors, 2 - count);
      }
      var status := wire.EndTransmission(true);
      errors := AddU8(errors, status);
      TransmitSum(errorCount, t);
    }

    /** The reception every read repeats: request two bytes, add the shortfall
        to the error count, then read two bytes. */
    method Receive(errorCount: U8) returns (errors: U8, first: Byte, second: Byte)
      requires wire.CanAnswer(0, 0, 1, 2) && wire.NextRx().Valid()
      modifies wire
      ensures errors == AddU8(errorCount, RxErrors(old(wire.NextRx())))
      ensures first == old(wire.bytes[0]) && second == old(wire.bytes[1])
      ensures wire.log == old(wire.log) + Reception(base, old(wire.NextRx()))
      ensures wire.counts == old(wire.counts[1..]) && wire.bytes == old(wire.bytes[2..])
      ensures wire.accepts == old(wire.accepts) && wire.statuses == old(wire.statuses)
    {
      errors := errorCount;
      var count := wire.RequestFrom(base, 2, true);
      if count != 2 {
        errors := AddU8(errors, 2 - count);
      }
      first := wire.Read();
      second := wire.Read();
    }

    /** command_write's checks, made before the bus is touched: the caller-error
        flags, and the frame to send when there are none. */
    static method CheckWrite(command: Byte, datum: Word) returns (errorCount: U8, dataToWrite: Word)
      ensures errorCount == WriteFlags(command, datum)
      ensures IsWritable(command) && datum <= DATA_MASK ==> dataToWrite == WriteFrame(command, datum)
    {
      errorCount := 0;
      dataToWrite := 0;
      var datum16 := datum;
      if datum16 > DATA_MASK {
        // the high bits would clobber the command; clip them, but do not send
        datum16 := datum16 & DATA_MASK;
        errorCount := OrU8(errorCount, BAD_DATUM);
      }
      if command == RDAC_WRITE || command == CONTROL_WRITE || command == SHUTDOWN {
        dataToWrite := (command as Word) << 10;
        dataToWrite := dataToWrite | datum16;
      } else if command == FIFTY_TP_WRITE || command == RDAC_REFRESH {
        dataToWrite := (command as Word) << 10;
      } else {
        errorCount := OrU8(errorCount, BAD_COMMAND);
      }
    }

    /** command_write: validates the datum and the command, and only when both
        are good sends one frame. */
    method CommandWrite(command: Byte, datum: Word) returns (r: Int8)
      requires wire.CanAnswer(2, 1, 0, 0)
      modifies wire
      ensures r == WriteResult(command, datum, old(wire.NextTx(0)))
      ensures WriteFlags(command, datum) != 0 ==> unchanged(wire)
      ensures WriteFlags(command, datum) == 0 ==>
                wire.log == old(wire.log) + Transmission(base, WriteFrame(command, datum), old(wire.NextTx(0)))
                && wire.accepts == old(wire.accepts[2..]) && wire.statuses == old(wire.statuses[1..])
                && wire.counts == old(wire.counts) && wire.bytes == old(wire.bytes)
    {
      var returnVal: Int8 := 0;
      var errorCount, dataToWrite := CheckWrite(command, datum);
      if errorCount == 0 {
        errorCount := Transmit(errorCount, dataToWrite);
      }
      if errorCount > 0 {
        returnVal := ToInt8(-1 * errorCount as int);
      }
      r := returnVal;
    }

    /** command_read's check, made before the bus is touched: a command that is
        not a read gives the error count 100, and a read gives its frame. */
    static method CheckRead(command: Byte, location: Byte) returns (errorCount: U8, dataToWrite: Word)
      ensures errorCount == if IsReadable(command) then 0 else 100
      ensures IsReadable(command) ==> dataToWrite == ReadFrame(command, location)
    {
      errorCount := 0;
      dataToWrite := 0;
      if command == FIFTY_TP_WIPER_READ {
        // the 50-TP location goes into the data field
        dataToWrite := (command as Word) << 10;
        dataToWrite := dataToWrite | location as Word;
      } else if command == RDAC_READ || command == FIFTY_TP_LAST_USED || command == CONTROL_READ {
        dataToWrite := (command as Word) << 10;
      } else {
        errorCount := 100;
      }
    }

    /** command_read: validates the command, sends its frame and reads two bytes
        back. */
    method CommandRead(command: Byte, location: Byte) returns (r: Int16)
      requires wire.CanAnswer(2, 1, 1, 2) && wire.NextRx().Valid()
      modifies wire
      ensures r == ReadResult(command, old(wire.NextTx(0)), old(wire.NextRx()))
      ensures !IsReadable(command) ==> unchanged(wire)
      ensures IsReadable(command) ==>
                wire.log == old(wire.log) + Transmission(base, ReadFrame(command, location), old(wire.NextTx(0)))
                            + Reception(base, old(wire.NextRx()))
                && wire.accepts == old(wire.accepts[2..]) && wire.statuses == old(wire.statuses[1..])
                && wire.counts == old(wire.counts[1..]) && wire.bytes == old(wire.bytes[2..])
    {
      ghost var t, x := wire.NextTx(0), wire.NextRx();
      var readDatum: Int16 := 0;
      var errorCount, dataToWrite := CheckRead(command, location);
      if errorCount != 0 {
        readDatum := -1 * errorCount as int;
      } else {
        errorCount := Transmit(errorCount, dataToWrite);
        assert errorCount == TxErrors(t);
        var msb, lsb;
        errorCount, msb, lsb := Receive(errorCount);
        assert errorCount == TxErrors(t) + RxErrors(x);
        // read_datum's 16 bits: the first byte shifted high, ORed with the second
        var pattern := Assemble(msb, lsb);
        readDatum := Signed16(pattern);
        if errorCount > 0 {
          readDatum := -1 * errorCount as int;
        }
      }
      r := readDatum;
    }

    /** control_write_verified: writes the control register, reads it back and
        compares; `mismatch` stands for the diagnostic the source prints. */
    method ControlWriteVerified(control: Byte) returns (r: Int8, mismatch: bool)
      requires wire.CanAnswer(4, 2, 1, 2) && wire.NextRx().Valid()
      modifies wire
      ensures r == ControlResult(control, old(wire.NextTx(0)), old(wire.NextTx(1)), old(wire.counts[0]))
      ensures mismatch <==> old(wire.bytes[1]) != control
      ensures old(wire.counts[0]) < 2 ==> (mismatch <==> control != 0xFF)
      ensures wire.log == old(wire.log) + Transmission(base, Frame(CONTROL_WRITE, control as Word), old(wire.NextTx(0)))
                          + Transmission(base, Frame(CONTROL_READ, 0), old(wire.NextTx(1)))
                          + Reception(base, old(wire.NextRx()))
      ensures wire.accepts == old(wire.accepts[4..]) && wire.statuses == old(wire.statuses[2..])
      ensures wire.counts == old(wire.counts[1..]) && wire.bytes == old(wire.bytes[2..])
    {
      var errorCount: U8 := 0;
      if control > 7 {
        errorCount := AddU8(errorCount, 1);
      }
      // (CONTROL_WRITE << 10) | control
      var dataToWrite: Word := Frame(CONTROL_WRITE, control as Word);
      errorCount := Transmit(errorCount, dataToWrite);
      // read the control register back; its data bits are don't-cares
      dataToWrite := Frame(CONTROL_READ, 0);
      errorCount := Transmit(errorCount, dataToWrite);
      var first, recvd;
      errorCount, first, recvd := Receive(errorCount);
      // the first byte is a don't-care; bits 2:0 of the second are the register
      mismatch := recvd != control;
      r := ToInt8(errorCount);
    }

    /** is_available: an empty transmission to the device; `i2cStatus` is what
        the source stores through its pointer argument. */
    method IsAvailable() returns (available: bool, i2cStatus: U8)
      requires wire.CanAnswer(0, 1, 0, 0)
      modifies wire
      ensures i2cStatus == old(wire.statuses[0])
      ensures available <==> i2cStatus == 0
      ensures wire.log == old(wire.log) + [Begin(base), End(true, old(wire.statuses[0]))]
      ensures wire.statuses == old(wire.statuses[1..])
      ensures wire.accepts == old(wire.accepts) && wire.counts == old(wire.counts)
      ensures wire.bytes == old(wire.bytes)
    {
      wire.BeginTransmission(base);
      var status := wire.EndTransmission(true);
      var errorCount := ToInt8(status);
      i2cStatus := errorCount % 0x100;
      available := !(errorCount > 0);
    }

    /** unlock: not implemented, always reports failure. */
    static function Unlock(rdac: bool, fiftyTP: bool): (r: Int8)
      ensures r == NOT_IMPLEMENTED
    {
      -90
    }
  }

  /** control_write_verified(5) against a clean bus and a device that echoes
      `echo`: no error is counted, and a mismatch is reported exactly when the
      echo differs from 5. */
  method ControlEcho(echo: Byte) returns (r: Int8, mismatch: bool)
    ensures r == 0
    ensures mismatch <==> echo != 5
  {
    var bus := new Bus([1, 1, 1, 1], [0, 0], [2], [0x00, echo]);
    var device := new AD5274(BASE_ADDR_GND, bus);
    r, mismatch := device.ControlWriteVerified(5);
  }

  /** control_write_verified(5) when both transmissions are clean but the device
      sends nothing back: the two missing bytes are counted, and both reads give
      `Wire.read()`'s -1 as 0xFF, so a mismatch is reported. */
  method ControlNoAnswer() returns (r: Int8, mismatch: bool)
    ensures r == 2 && mismatch
  {
    var bus := new Bus([1, 1, 1, 1], [0, 0], [0], [0xFF, 0xFF]);
    var device := new AD5274(BASE_ADDR_GND, bus);
    r, mismatch := device.ControlWriteVerified(5);
  }
}
