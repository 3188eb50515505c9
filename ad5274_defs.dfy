/** Constants of the AD5272/AD5274 digital potentiometer and the layout of its
    16-bit command frame: bits 15:14 are zero, bits 13:10 hold the command and
    bits 9:0 hold the command's data. A frame travels as two bytes, most
    significant byte first. */
module AD5274Defs {

  type Byte = bv8
  type Word = bv16

  // I2C base addresses; the ADDR pin strap selects one of them
  const BASE_ADDR_GND: Byte := 0x2F
  const BASE_ADDR_VDD: Byte := 0x2C
  const BASE_ADDR_FLOAT: Byte := 0x2E

  // Command codes, carried in frame bits 13:10
  const COMMAND_NOP: Byte := 0x00
  const RDAC_WRITE: Byte := 0x01
  const RDAC_READ: Byte := 0x02
  const FIFTY_TP_WRITE: Byte := 0x03
  const RDAC_REFRESH: Byte := 0x04
  const FIFTY_TP_WIPER_READ: Byte := 0x05
  const FIFTY_TP_LAST_USED: Byte := 0x06
  const CONTROL_WRITE: Byte := 0x07
  const CONTROL_READ: Byte := 0x08
  const SHUTDOWN: Byte := 0x09

  /** The ten commands, in the order of their codes. */
  const COMMANDS: seq<Byte> := [COMMAND_NOP, RDAC_WRITE, RDAC_READ, FIFTY_TP_WRITE, RDAC_REFRESH,
                                FIFTY_TP_WIPER_READ, FIFTY_TP_LAST_USED, CONTROL_WRITE, CONTROL_READ,
                                SHUTDOWN]

  // Control register bits C0, C1, C2 (written with CONTROL_WRITE) and the
  // read-only "50-TP programmed" flag
  const FIFTY_TP_WRITE_ENABLE: Byte := 0x01
  const RDAC_WIPER_WRITE_ENABLE: Byte := 0x02
  const RDAC_CALIB_DISABLE: Byte := 0x04
  const FIFTY_TP_WRITE_SUCCESS: Byte := 0x08

  // 50-TP memory locations; location 0 is reserved
  const FIFTY_TP_FIRST_LOCATION: Byte := 0x01
  const FIFTY_TP_LAST_LOCATION: Byte := 0x32

  /** The 10-bit data field of a frame. */
  const DATA_MASK: Word := 0x3FF

  /** Frame bits 13:10. */
  function CommandField(f: Word): Byte {
    ((f >> 10) & 0x0F) as Byte
  }

  /** Frame bits 9:0. */
  function DataField(f: Word): Word {
    f & DATA_MASK
  }

  /** Frame bits 15:14. */
  function ReservedField(f: Word): Word {
    f >> 14
  }

  /** The driver's frame: the command shifted into bits 13:10 (truncated to
      16 bits, as the assignment to a uint16_t does), ORed with the data. */
  function Frame(command: Byte, data: Word): (f: Word)
    ensures command <= 0x0F && data <= DATA_MASK ==>
              CommandField(f) == command && DataField(f) == data && ReservedField(f) == 0
  {
    ((command as Word) << 10) | data
  }

  /** The byte sent first: bits 15:8 of the frame. */
  function Msb(f: Word): (b: Byte)
    ensures (b as Word) << 8 == f & 0xFF00
  {
    (f >> 8) as Byte
  }

  /** The byte sent second: bits 7:0 of the frame. */
  function Lsb(f: Word): (b: Byte)
    ensures b as Word == f & 0x00FF
  {
    (f & 0xFF) as Byte
  }

  /** Two received bytes put back together, the first one high. */
  function Assemble(msb: Byte, lsb: Byte): (w: Word)
    ensures Msb(w) == msb && Lsb(w) == lsb
  {
    ((msb as Word) << 8) | (lsb as Word)
  }

  /** Splitting a word into its two bytes and assembling them loses nothing. */
  lemma SplitAssemble(f: Word)
    ensures Assemble(Msb(f), Lsb(f)) == f
  {
  }

  /** Sending a frame and reassembling the two bytes gives back the command in
      bits 13:10 and the data in bits 9:0, with bits 15:14 clear. */
  lemma FrameRoundTrip(command: Byte, data: Word)
    requires command <= 0x0F && data <= DATA_MASK
    ensures var w := Assemble(Msb(Frame(command, data)), Lsb(Frame(command, data)));
            CommandField(w) == command && DataField(w) == data && ReservedField(w) == 0
  {
    SplitAssemble(Frame(command, data));
  }

  /** The command codes are 0x00 to 0x09 in order, so they are distinct and each
      fits the four bits 13:10, leaving bits 15:14 of any frame clear. */
  lemma CommandCodes()
    ensures |COMMANDS| == 10
    ensures forall i :: 0 <= i < |COMMANDS| ==> COMMANDS[i] as int == i
    ensures forall i, j :: 0 <= i < j < |COMMANDS| ==> COMMANDS[i] != COMMANDS[j]
    ensures forall c :: c in COMMANDS ==> c <= 0x0F
  {
  }

  /** Any command code below 16 shifted into place sets only bits 13:10. */
  lemma CommandFitsFourBits(command: Byte, data: Word)
    requires command <= 0x0F
    ensures ReservedField(Frame(command, data & DATA_MASK)) == 0
    ensures ((command as Word) << 10) & DATA_MASK == 0
  {
  }

  /** The three control bits are distinct single bits, every combination of them
      is at most 7, and the "50-TP programmed" flag lies just above that range. */
  lemma ControlBits(c0: bool, c1: bool, c2: bool)
    ensures FIFTY_TP_WRITE_ENABLE & RDAC_WIPER_WRITE_ENABLE == 0
    ensures FIFTY_TP_WRITE_ENABLE & RDAC_CALIB_DISABLE == 0
    ensures RDAC_WIPER_WRITE_ENABLE & RDAC_CALIB_DISABLE == 0
    ensures var combined := (if c0 then FIFTY_TP_WRITE_ENABLE else 0)
                          | (if c1 then RDAC_WIPER_WRITE_ENABLE else 0)
                          | (if c2 then RDAC_CALIB_DISABLE else 0);
            combined <= 7
            && (combined & FIFTY_TP_WRITE_ENABLE != 0 <==> c0)
            && (combined & RDAC_WIPER_WRITE_ENABLE != 0 <==> c1)
            && (combined & RDAC_CALIB_DISABLE != 0 <==> c2)
    ensures FIFTY_TP_WRITE_SUCCESS > 7 && FIFTY_TP_WRITE_SUCCESS & 7 == 0 && FIFTY_TP_WRITE_SUCCESS >> 1 == RDAC_CALIB_DISABLE
  {
  }

  /** The three base addresses are distinct 7-bit values that agree everywhere
      except in their two least significant bits. */
  lemma BaseAddresses()
    ensures BASE_ADDR_GND != BASE_ADDR_VDD && BASE_ADDR_GND != BASE_ADDR_FLOAT
    ensures BASE_ADDR_VDD != BASE_ADDR_FLOAT
    ensures BASE_ADDR_GND < 0x80 && BASE_ADDR_VDD < 0x80 && BASE_ADDR_FLOAT < 0x80
    ensures BASE_ADDR_GND & !3 == BASE_ADDR_VDD & !3 == BASE_ADDR_FLOAT & !3
  {
  }

  /** Every 50-TP location, 0x01 to 0x32, fits the six-bit location field
      (frame bits 5:0). */
  lemma FiftyTpLocationFits(location: Byte)
    requires FIFTY_TP_FIRST_LOCATION <= location <= FIFTY_TP_LAST_LOCATION
    ensures location & 0x3F == location && location != 0
  {
  }

  /** The data field is ten bits wide: a datum is at most DATA_MASK exactly
      when it has no bit in 15:10, the bits that would clobber the command. */
  lemma DataFieldWidth(data: Word)
    ensures data <= DATA_MASK <==> data & !DATA_MASK == 0
    ensures DATA_MASK == (1 << 10) - 1
  {
  }
}
