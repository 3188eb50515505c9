/** The Arduino `Wire` I2C controller as the driver uses it, reduced to a scripted
    oracle: each call takes its answer from the front of a queue of replies, and
    every call is appended to a log together with its answer, so that "the
    driver did not touch the bus" is a statement about the log. */
module Wire {
  import opened AD5274Defs

  /** What one `Wire.write(byte)` reports: the number of bytes accepted. */
  type Accepted = n: int | 0 <= n <= 1

  /** What `Wire.endTransmission` reports: 0 success, 1 data too long for the
      transmit buffer, 2 NACK on the address, 3 NACK on data, 4 other error. */
  type Status = s: int | 0 <= s <= 4

  /** What `Wire.requestFrom(address, 2, stop)` reports: the number of bytes
      received, never more than the two requested. */
  type Received = n: int | 0 <= n <= 2

  /** One call into the transport, with what the transport answered. */
  datatype Call =
    | Begin(address: Byte)
    | WriteByte(value: Byte, accepted: Accepted)
    | End(sendStop: bool, status: Status)
    | Request(address: Byte, quantity: Byte, sendStop: bool, received: Received)
    | ReadByte(value: Byte)

  /** The transport's answers to one frame transmission: the two write results
      and the end status. */
  datatype TxReply = TxReply(first: Accepted, second: Accepted, status: Status) {
    /** Both bytes accepted and the transmission ended with status 0: the
        device acknowledged the frame. */
    predicate Acknowledged() {
      first == 1 && second == 1 && status == 0
    }
  }

  /** The transport's answers to one two-byte reception: the count received and
      the two bytes read. */
  datatype RxReply = RxReply(received: Received, msb: Byte, lsb: Byte) {
    /** A byte read past the count received is `Wire.read()`'s -1, which the
        driver narrows to 0xFF. */
    predicate Valid() {
      (received < 2 ==> lsb == 0xFF) && (received == 0 ==> msb == 0xFF)
    }
  }

  /** The calls of one frame transmission: open, the two bytes most significant
      first, close with a stop condition. */
  function Transmission(address: Byte, frame: Word, t: TxReply): seq<Call> {
    [Begin(address), WriteByte(Msb(frame), t.first), WriteByte(Lsb(frame), t.second), End(true, t.status)]
  }

  /** The calls of one two-byte reception: the request, then two reads. */
  function Reception(address: Byte, x: RxReply): seq<Call> {
    [Request(address, 2, true, x.received), ReadByte(x.msb), ReadByte(x.lsb)]
  }

  /** The calls of several frame transmissions to one device, in order, each
      with its own replies. */
  function Transmissions(address: Byte, frames: seq<Word>, replies: seq<TxReply>): (log: seq<Call>)
    requires |replies| == |frames|
    ensures |log| == 4 * |frames|
  {
    if frames == [] then []
    else Transmission(address, frames[0], replies[0]) + Transmissions(address, frames[1..], replies[1..])
  }

  /** The frames of a run whose transmission the device acknowledged. */
  function AcknowledgedFrames(frames: seq<Word>, replies: seq<TxReply>): (acked: seq<Word>)
    requires |replies| == |frames|
    ensures |acked| <= |frames|
    ensures (forall i :: 0 <= i < |replies| ==> replies[i].Acknowledged()) ==> acked == frames
  {
    if frames == [] then []
    else (if replies[0].Acknowledged() then [frames[0]] else []) + AcknowledgedFrames(frames[1..], replies[1..])
  }

  /** A complete transmission to `address` opens the log. */
  predicate OpensTransmission(address: Byte, log: seq<Call>) {
    |log| >= 4 && log[0] == Begin(address) && log[1].WriteByte? && log[2].WriteByte?
    && log[3].End? && log[3].sendStop
  }

  /** The frames the device at `address` acknowledged in a log: each complete
      transmission to it (open, two bytes, close with a stop) whose two bytes
      were accepted and whose status is 0 delivers its two bytes reassembled,
      the first one high; every other call delivers nothing. */
  function DeviceFrames(address: Byte, log: seq<Call>): (frames: seq<Word>)
    ensures 4 * |frames| <= |log|
    decreases |log|
  {
    if |log| == 0 then []
    else if OpensTransmission(address, log) then
      (if log[1].accepted == 1 && log[2].accepted == 1 && log[3].status == 0
       then [Assemble(log[1].value, log[2].value)] else [])
      + DeviceFrames(address, log[4..])
    else DeviceFrames(address, log[1..])
  }

  /** A transmission at the front of a log delivers its frame exactly when the
      device acknowledged it. */
  lemma DeviceFramesTransmission(address: Byte, frame: Word, t: TxReply, rest: seq<Call>)
    ensures DeviceFrames(address, Transmission(address, frame, t) + rest)
            == (if t.Acknowledged() then [frame] else []) + DeviceFrames(address, rest)
  {
    var log := Transmission(address, frame, t) + rest;
    assert OpensTransmission(address, log);
    assert log[4..] == rest;
    SplitAssemble(frame);
  }

  /** A two-byte reception at the front of a log delivers nothing. */
  lemma DeviceFramesReception(address: Byte, x: RxReply, rest: seq<Call>)
    ensures DeviceFrames(address, Reception(address, x) + rest) == DeviceFrames(address, rest)
  {
    var log := Reception(address, x) + rest;
    // none of the three calls opens a transmission, so each is skipped
    assert DeviceFrames(address, log) == DeviceFrames(address, log[1..]);
    assert DeviceFrames(address, log[1..]) == DeviceFrames(address, log[2..]) by {
      assert log[1..][1..] == log[2..];
    }
    assert DeviceFrames(address, log[2..]) == DeviceFrames(address, rest) by {
      assert log[2..][1..] == rest;
    }
  }

  /** Calls that start with an open or a request: no earlier call can form a
      transmission with them. */
  predicate StartsAfresh(calls: seq<Call>) {
    calls == [] || calls[0].Begin? || calls[0].Request?
  }

  /** Whatever happened on the bus before, calls that start afresh add exactly
      their own frames to what the device has acknowledged. */
  lemma {:induction false} DeviceFramesAppend(address: Byte, history: seq<Call>, calls: seq<Call>)
    requires StartsAfresh(calls)
    ensures DeviceFrames(address, history + calls) == DeviceFrames(address, history) + DeviceFrames(address, calls)
    decreases |history|
  {
    var log := history + calls;
    if calls == [] {
      assert log == history;
    } else if history == [] {
      assert log == calls;
    } else if OpensTransmission(address, history) {
      assert OpensTransmission(address, log) && log[..4] == history[..4];
      assert log[4..] == history[4..] + calls;
      DeviceFramesAppend(address, history[4..], calls);
    } else {
      // a transmission at the front of log would have to reach into calls,
      // whose first call is neither a write nor an end
      assert !OpensTransmission(address, log) by {
        if |history| < 4 {
          assert log[|history|] == calls[0];
        } else {
          assert log[..4] == history[..4];
        }
      }
      assert log[1..] == history[1..] + calls;
      DeviceFramesAppend(address, history[1..], calls);
    }
  }

  /** Whatever the bus saw before, one more transmission adds its frame to what
      the device acknowledged exactly when the device acknowledged it. */
  lemma DeviceFramesAfterTransmission(address: Byte, history: seq<Call>, frame: Word, t: TxReply)
    ensures DeviceFrames(address, history + Transmission(address, frame, t))
            == DeviceFrames(address, history) + (if t.Acknowledged() then [frame] else [])
  {
    var calls := Transmission(address, frame, t);
    DeviceFramesAppend(address, history, calls);
    DeviceFramesTransmission(address, frame, t, []);
    assert calls + [] == calls;
  }

  /** Whatever the bus saw before, a two-byte reception adds nothing to what the
      device acknowledged. */
  lemma DeviceFramesAfterReception(address: Byte, history: seq<Call>, x: RxReply)
    ensures DeviceFrames(address, history + Reception(address, x)) == DeviceFrames(address, history)
  {
    var calls := Reception(address, x);
    DeviceFramesAppend(address, history, calls);
    DeviceFramesReception(address, x, []);
    assert calls + [] == calls;
  }

  /** The device acknowledges the frames of a run of transmissions whose
      replies say so, all of them and in order, and nothing else. */
  lemma {:induction false} DeviceFramesRoundTrip(address: Byte, frames: seq<Word>, replies: seq<TxReply>)
    requires |replies| == |frames|
    ensures DeviceFrames(address, Transmissions(address, frames, replies)) == AcknowledgedFrames(frames, replies)
  {
    if frames != [] {
      DeviceFramesTransmission(address, frames[0], replies[0], Transmissions(address, frames[1..], replies[1..]));
      DeviceFramesRoundTrip(address, frames[1..], replies[1..]);
    }
  }

  class Bus {
    // replies still to come, one queue per kind of call
    var accepts: seq<Accepted>
    var statuses: seq<Status>
    var counts: seq<Received>
    var bytes: seq<Byte>
    // every call made so far with its answer, oldest first
    var log: seq<Call>

    constructor (accepts: seq<Accepted>, statuses: seq<Status>, counts: seq<Received>, bytes: seq<Byte>)
      ensures this.accepts == accepts && this.statuses == statuses
      ensures this.counts == counts && this.bytes == bytes
      ensures log == []
    {
      this.accepts := accepts;
      this.statuses := statuses;
      this.counts := counts;
      this.bytes := bytes;
      log := [];
    }

    /** The script holds replies for at least this many calls of each kind. */
    predicate CanAnswer(writes: nat, ends: nat, requests: nat, byteReads: nat)
      reads this
    {
      |accepts| >= writes && |statuses| >= ends && |counts| >= requests && |bytes| >= byteReads
    }

    /** The replies the k-th coming frame transmission will get. */
    function NextTx(k: nat): TxReply
      reads this
      requires CanAnswer(2 * k + 2, k + 1, 0, 0)
    {
      TxReply(accepts[2 * k], accepts[2 * k + 1], statuses[k])
    }

    /** The replies the coming two-byte reception will get. */
    function NextRx(): RxReply
      reads this
      requires CanAnswer(0, 0, 1, 2)
    {
      RxReply(counts[0], bytes[0], bytes[1])
    }

    /** `Wire.beginTransmission(address)`: starts queuing bytes for a device. */
    method BeginTransmission(address: Byte)
      modifies this
      ensures log == old(log) + [Begin(address)]
      ensures accepts == old(accepts) && statuses == old(statuses)
      ensures counts == old(counts) && bytes == old(bytes)
    {
      log := log + [Begin(address)];
    }

    /** `Wire.write(value)`. */
    method Write(value: Byte) returns (n: Accepted)
      requires |accepts| > 0
      modifies this
      ensures n == old(accepts[0]) && accepts == old(accepts[1..])
      ensures log == old(log) + [WriteByte(value, n)]
      ensures statuses == old(statuses) && counts == old(counts) && bytes == old(bytes)
    {
      n := accepts[0];
      accepts := accepts[1..];
      log := log + [WriteByte(value, n)];
    }

    /** `Wire.endTransmission(sendStop)`: sends the queued bytes. */
    method EndTransmission(sendStop: bool) returns (s: Status)
      requires |statuses| > 0
      modifies this
      ensures s == old(statuses[0]) && statuses == old(statuses[1..])
      ensures log == old(log) + [End(sendStop, s)]
      ensures accepts == old(accepts) && counts == old(counts) && bytes == old(bytes)
    {
      s := statuses[0];
      statuses := statuses[1..];
      log := log + [End(sendStop, s)];
    }

    /** `Wire.requestFrom(address, quantity, sendStop)`. */
    method RequestFrom(address: Byte, quantity: Byte, sendStop: bool) returns (n: Received)
      requires |counts| > 0
      modifies this
      ensures n == old(counts[0]) && counts == old(counts[1..])
      ensures log == old(log) + [Request(address, quantity, sendStop, n)]
      ensures accepts == old(accepts) && statuses == old(statuses) && bytes == old(bytes)
    {
      n := counts[0];
      counts := counts[1..];
      log := log + [Request(address, quantity, sendStop, n)];
    }

    /** `Wire.read()`, already narrowed to the driver's uint8_t: a read with
        nothing received yields -1, which narrows to 0xFF. */
    method Read() returns (b: Byte)
      requires |bytes| > 0
      modifies this
      ensures b == old(bytes[0]) && bytes == old(bytes[1..])
      ensures log == old(log) + [ReadByte(b)]
      ensures accepts == old(accepts) && statuses == old(statuses) && counts == old(counts)
    {
      b := bytes[0];
      bytes := bytes[1..];
      log := log + [ReadByte(b)];
    }
  }
}
